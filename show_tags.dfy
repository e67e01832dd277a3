/** The store reducer for the "show tags" preference. */
module ShowTags {
  import opened Options

  /** The action type the reducer reacts to (its value is defined in the
      store's actions module, which is not part of this model). */
  const TOGGLE_SHOW_TAGS: string := "TOGGLE_SHOW_TAGS"

  /** Tags are shown until toggled. */
  const SHOW_TAG_INITIAL_STATE: bool := true

  datatype Action = Action(kind: string, payload: bool)

  /** `toggleShowTagReducer`: a toggle yields the negated payload, whatever
      the current state; any other action keeps the state, which defaults to
      `true` when the store passes none. */
  function ToggleShowTagReducer(state: Option<bool>, action: Action): (r: bool)
    ensures action.kind == TOGGLE_SHOW_TAGS ==> r == !action.payload
    ensures action.kind != TOGGLE_SHOW_TAGS && state.Some? ==> r == state.value
    ensures action.kind != TOGGLE_SHOW_TAGS && state.None? ==> r == SHOW_TAG_INITIAL_STATE
  {
    if action.kind == TOGGLE_SHOW_TAGS then !action.payload else state.GetOr(SHOW_TAG_INITIAL_STATE)
  }

  /** The toggle ignores the state it is applied to. */
  lemma ToggleIgnoresState(s1: Option<bool>, s2: Option<bool>, payload: bool)
    ensures ToggleShowTagReducer(s1, Action(TOGGLE_SHOW_TAGS, payload)) == !payload
    ensures ToggleShowTagReducer(s1, Action(TOGGLE_SHOW_TAGS, payload))
         == ToggleShowTagReducer(s2, Action(TOGGLE_SHOW_TAGS, payload))
  {
  }

  /** Applying the same toggle twice gives the state applying it once gives. */
  lemma ToggleTwiceIsToggleOnce(s: Option<bool>, payload: bool)
    ensures var once := ToggleShowTagReducer(s, Action(TOGGLE_SHOW_TAGS, payload));
            ToggleShowTagReducer(Some(once), Action(TOGGLE_SHOW_TAGS, payload)) == once
  {
  }

  /** Other actions leave the state alone, and the missing state is `true`. */
  lemma OtherActionsKeepState(s: Option<bool>, action: Action)
    requires action.kind != TOGGLE_SHOW_TAGS
    ensures s.Some? ==> ToggleShowTagReducer(s, action) == s.value
    ensures s.None? ==> ToggleShowTagReducer(s, action)
  {
  }
}
