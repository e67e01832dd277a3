/** The AI code-review panel: a text box for a code snippet, a request for a
    review, and a panel that shows the review. */
module AICodeReview {

  /** What the review panel shows. */
  datatype PanelView = Skeleton | Markdown(text: string) | Prompt

  class CodeReviewPanel {
    var input: string
    var response: string
    var isLoading: bool
    var isReviewing: bool

    constructor ()
      ensures input == "" && response == "" && !isLoading && !isReviewing
      ensures ShowsInputArea() && Panel() == Prompt
    {
      input, response := "", "";
      isLoading, isReviewing := false, false;
    }

    /** The text area and its button are shown unless a review is on screen;
        otherwise the "review another" button is. */
    predicate ShowsInputArea(): (shown: bool)
      reads this
      ensures shown <==> !isReviewing
    {
      !isReviewing
    }

    /** A skeleton while loading, else the review when there is one, else
        the prompt to enter code. */
    function Panel(): (p: PanelView)
      reads this
      ensures p == Skeleton <==> isLoading
      ensures p.Markdown? <==> !isLoading && response != ""
      ensures p.Markdown? ==> p.text == response
      ensures p == Prompt <==> !isLoading && response == ""
    {
      if isLoading then Skeleton else if response != "" then Markdown(response) else Prompt
    }

    /** `handleInputChange`: the text area's new value. */
    method HandleInputChange(value: string)
      modifies this`input
      ensures input == value
    {
      input := value;
    }

    /** `handleGetReview` up to its request: both flags are raised, and the
        request carries the current input as `codeSnippet`. If the request
        is rejected nothing further happens, so the flags stay raised. */
    method BeginGetReview() returns (codeSnippet: string)
      modifies this`isLoading, this`isReviewing
      ensures isLoading && isReviewing
      ensures codeSnippet == input
      ensures Panel() == Skeleton && !ShowsInputArea()
    {
      isLoading := true;
      isReviewing := true;
      codeSnippet := input;
    }

    /** The rest of `handleGetReview`, once the request resolved to `review`:
        the review is stored and loading ends, while the panel stays in
        reviewing mode. */
    method ResolveGetReview(review: string)
      modifies this`response, this`isLoading
      ensures response == review && !isLoading
      ensures isReviewing == old(isReviewing) && input == old(input)
      ensures Panel() == if review != "" then Markdown(review) else Prompt
    {
      response := review;
      isLoading := false;
    }

    /** `handleReviewAnother`: back to an empty text area; `isLoading` is not
        touched. */
    method HandleReviewAnother()
      modifies this`isReviewing, this`input, this`response
      ensures !isReviewing && input == "" && response == ""
      ensures ShowsInputArea()
      ensures !isLoading ==> Panel() == Prompt
      ensures isLoading ==> Panel() == Skeleton
    {
      isReviewing := false;
      input := "";
      response := "";
    }
  }

  /** A full round: type, ask, receive a non-empty review. The review is on
      screen, the input area is hidden and the snippet sent was what was typed. */
  method ReviewSession(code: string, review: string) returns (sent: string, shown: PanelView, inputShown: bool)
    requires review != ""
    ensures sent == code && shown == Markdown(review) && !inputShown
  {
    var panel := new CodeReviewPanel();
    panel.HandleInputChange(code);
    sent := panel.BeginGetReview();
    panel.ResolveGetReview(review);
    shown := panel.Panel();
    inputShown := panel.ShowsInputArea();
  }

  /** A rejected review request leaves the skeleton on screen until a later
      request resolves: with no handler for the error nothing clears
      `isLoading`, and "review another" leaves it set. */
  method RejectedReviewStaysLoading(code: string) returns (shown: PanelView, inputShown: bool)
    ensures shown == Skeleton && inputShown
  {
    var panel := new CodeReviewPanel();
    panel.HandleInputChange(code);
    var _ := panel.BeginGetReview();
    panel.HandleReviewAnother();
    shown := panel.Panel();
    inputShown := panel.ShowsInputArea();
  }

  /** "Review another" pressed while a request is still loading: when the
      review then arrives it is shown together with an empty input area. */
  method ReviewAnotherWhileLoading(code: string, review: string) returns (shown: PanelView, inputShown: bool)
    requires review != ""
    ensures shown == Markdown(review) && inputShown
  {
    var panel := new CodeReviewPanel();
    panel.HandleInputChange(code);
    var _ := panel.BeginGetReview();
    panel.HandleReviewAnother();
    panel.ResolveGetReview(review);
    shown := panel.Panel();
    inputShown := panel.ShowsInputArea();
  }
}
