/** The repository list view model: the state the dashboard component keeps
    while pages of repositories arrive, and the handlers and effects that
    change it. Each handler or effect is one atomic transition; the response
    a fetch resolves to is a parameter of the transition that consumes it. */
module Dashboard {
  import opened Options
  import opened Seqs
  import opened Repository
  import opened RepoView

  /** What one request for a page resolves to: the HTTP status with the
      decoded JSON array, or an exception (network failure, a body that does
      not decode, a body that is not an array). */
  datatype PageResponse = Thrown | Response(status: int, data: seq<Repo>)

  const UNAUTHORIZED: int := 401

  /** The component state (`repos`, `filterdData` and the three flags), the
      `page` it was rendered with and the store's `sortingOrder`. */
  datatype ViewState = ViewState(
    repos: seq<Repo>,
    filteredData: seq<Repo>,
    loadingData: bool,
    isFetching: bool,
    isLastPage: bool,
    page: int,
    sortingOrder: int)

  /** The state the component starts with. */
  function Initial(page: int, sortingOrder: int): ViewState
  {
    ViewState([], [], true, false, false, page, sortingOrder)
  }

  /** What the rendered list may contain: records of `repos` only, with no
      more copies than `repos` has, and no `null` language anywhere. */
  ghost predicate Consistent(s: ViewState)
  {
    && multiset(s.filteredData) <= multiset(s.repos)
    && forall r :: r in s.repos ==> r.language != Null
  }

  /** An empty array: the upstream has no more repositories. */
  predicate IsEndOfData(response: PageResponse)
  {
    response.Response? && response.data == []
  }

  /** A non-empty array that did not come with status 401. */
  predicate IsAccepted(response: PageResponse)
  {
    response.Response? && response.data != [] && response.status != UNAUTHORIZED
  }

  /** `fetchRepositories`, from the moment its request resolves. */
  function AfterFetch(s: ViewState, response: PageResponse): (t: ViewState)
    ensures t.page == s.page && t.sortingOrder == s.sortingOrder
    ensures IsEndOfData(response) ==> t == s.(isLastPage := true, isFetching := false)
    ensures !IsEndOfData(response) ==>
              !t.loadingData && t.isFetching == s.isFetching && t.isLastPage == s.isLastPage
    ensures IsAccepted(response) ==>
              && t.repos == s.repos + NormalizePage(response.data)
              && t.filteredData == s.filteredData + NormalizePage(response.data)
    ensures !IsAccepted(response) ==> t.repos == s.repos && t.filteredData == s.filteredData
    ensures Consistent(s) ==> Consistent(t)
  {
    match response
    case Thrown => s.(loadingData := false)
    case Response(status, data) =>
      if |data| == 0 then
        s.(isLastPage := true, isFetching := false)
      else
        var page := NormalizePage(data);
        if status != UNAUTHORIZED then
          assert multiset(s.filteredData + page) == multiset(s.filteredData) + multiset(page);
          assert multiset(s.repos + page) == multiset(s.repos) + multiset(page);
          s.(repos := s.repos + page, filteredData := s.filteredData + page, loadingData := false)
        else
          s.(loadingData := false)
  }

  /** The page effect: unless the last page was reached, mark a fetch of a
      further page as in progress (only once the initial load is over) and
      fetch the current page. */
  function AfterPageEffect(s: ViewState, response: PageResponse): (t: ViewState)
    ensures s.isLastPage ==> t == s
    ensures !s.isLastPage && !IsEndOfData(response) ==> t.isFetching == (s.isFetching || !s.loadingData)
    ensures !s.isLastPage ==>
              t.repos == AfterFetch(s, response).repos && t.filteredData == AfterFetch(s, response).filteredData
    ensures Consistent(s) ==> Consistent(t)
  {
    if s.isLastPage then s
    else AfterFetch(s.(isFetching := if !s.loadingData then true else s.isFetching), response)
  }

  /** `refreshAllHandler`: show the loading state again and re-fetch the
      current page; nothing fetched so far is discarded. */
  function AfterRefresh(s: ViewState, response: PageResponse): (t: ViewState)
    ensures IsEndOfData(response) ==> t.loadingData && t.isLastPage && !t.isFetching
    ensures IsAccepted(response) ==> t.repos == s.repos + NormalizePage(response.data)
    ensures !IsAccepted(response) ==> t.repos == s.repos
    ensures Consistent(s) ==> Consistent(t)
  {
    AfterFetch(s.(loadingData := true), response)
  }

  /** The sort effect: the rendered list becomes the sorted copy of `repos`. */
  function AfterSort(s: ViewState): (t: ViewState)
    ensures multiset(t.filteredData) == multiset(s.repos)
    ensures t.(filteredData := s.filteredData) == s
    ensures Consistent(s) ==> Consistent(t)
  {
    s.(filteredData := SortedView(s.repos, s.sortingOrder))
  }

  /** `handleFilter`: the rendered list becomes the search result over
      `repos` (not over the list shown before). */
  function AfterSearch(s: ViewState, term: string): (t: ViewState)
    ensures IsSubsequence(t.filteredData, s.repos)
    ensures forall x :: x in t.filteredData <==> x in s.repos && Matches(x, term)
    ensures t.(filteredData := s.filteredData) == s
    ensures Consistent(s) ==> Consistent(t)
  {
    s.(filteredData := FilterRepos(s.repos, term))
  }

  /** The inputs the component reacts to. */
  datatype Event =
    | PageChanged(newPage: int, response: PageResponse)
    | RefreshClicked(response: PageResponse)
    | SortingOrderChanged(order: int)
    | SearchTyped(term: string)

  /** After a transition from `before` to `after`, React runs the sort effect
      when one of its dependencies (`sortingOrder`, `repos`) changed. */
  function Settle(before: ViewState, after: ViewState): (t: ViewState)
    ensures t.(filteredData := after.filteredData) == after
    ensures after.repos != before.repos || after.sortingOrder != before.sortingOrder ==>
              t.filteredData == SortedView(after.repos, after.sortingOrder)
    ensures after.repos == before.repos && after.sortingOrder == before.sortingOrder ==> t == after
  {
    if after.repos != before.repos || after.sortingOrder != before.sortingOrder then AfterSort(after) else after
  }

  /** The state after one event, effects included. The page effect runs only
      when the page actually changes; whenever `repos` or the sort order
      changed, the rendered list ends up as the sorted copy of `repos`. */
  function Step(s: ViewState, e: Event): (t: ViewState)
    ensures e.PageChanged? && e.newPage == s.page ==> t == s
    ensures t.page == if e.PageChanged? then e.newPage else s.page
    ensures t.sortingOrder == if e.SortingOrderChanged? then e.order else s.sortingOrder
    ensures e.SortingOrderChanged? || e.SearchTyped? ==> t.repos == s.repos
    ensures e.SearchTyped? ==> forall x :: x in t.filteredData <==> x in s.repos && Matches(x, e.term)
    ensures t.repos != s.repos || t.sortingOrder != s.sortingOrder ==>
              t.filteredData == SortedView(t.repos, t.sortingOrder)
  {
    match e
    case PageChanged(p, response) =>
      if p == s.page then s else Settle(s, AfterPageEffect(s.(page := p), response))
    case RefreshClicked(response) => Settle(s, AfterRefresh(s, response))
    case SortingOrderChanged(o) => Settle(s, s.(sortingOrder := o))
    case SearchTyped(term) => AfterSearch(s, term)
  }

  /** The page an event asks the server for, if any. */
  function Request(s: ViewState, e: Event): (r: Option<int>)
    ensures e.PageChanged? && s.isLastPage ==> r == None
    ensures e.PageChanged? && e.newPage != s.page && !s.isLastPage ==> r == Some(e.newPage)
    ensures e.RefreshClicked? ==> r == Some(s.page)
    ensures e.SortingOrderChanged? || e.SearchTyped? ==> r == None
  {
    match e
    case PageChanged(p, _) => if p != s.page && !s.isLastPage then Some(p) else None
    case RefreshClicked(_) => Some(s.page)
    case _ => None
  }

  /** The state after mounting: the sort effect and then the page effect run
      once, the page effect's fetch resolving to `response`. */
  function Mount(page: int, sortingOrder: int, response: PageResponse): (t: ViewState)
    ensures t.page == page && t.sortingOrder == sortingOrder
    ensures t.repos == if IsAccepted(response) then NormalizePage(response.data) else []
    ensures t.filteredData == SortedView(t.repos, sortingOrder)
    ensures t.loadingData == IsEndOfData(response) && t.isLastPage == IsEndOfData(response)
    ensures !t.isFetching
  {
    var s := AfterSort(Initial(page, sortingOrder));
    Settle(s, AfterPageEffect(s, response))
  }

  function Run(s: ViewState, events: seq<Event>): ViewState
    decreases |events|
  {
    if events == [] then s else Run(Step(s, events[0]), events[1..])
  }

  /** The pages requested by page changes during a run (refreshes excluded). */
  function PageRequests(s: ViewState, events: seq<Event>): seq<int>
    decreases |events|
  {
    if events == [] then []
    else
      var here := if events[0].PageChanged? && Request(s, events[0]).Some? then [Request(s, events[0]).value] else [];
      here + PageRequests(Step(s, events[0]), events[1..])
  }

  /** One event, with the sort effect it triggers, keeps the state consistent. */
  lemma StepConsistent(s: ViewState, e: Event)
    requires Consistent(s)
    ensures Consistent(Step(s, e))
  {
  }

  /** Every reachable state keeps the rendered list within `repos` and every
      stored language non-null. */
  lemma {:induction false} RunConsistent(s: ViewState, events: seq<Event>)
    requires Consistent(s)
    ensures Consistent(Run(s, events))
    decreases |events|
  {
    if events != [] {
      StepConsistent(s, events[0]);
      RunConsistent(Step(s, events[0]), events[1..]);
    }
  }

  /** `repos` is never cleared, reordered or deduplicated: what was
      accumulated stays a prefix of everything accumulated later. */
  lemma {:induction false} RunKeepsAccumulated(s: ViewState, events: seq<Event>)
    ensures |s.repos| <= |Run(s, events).repos|
    ensures Run(s, events).repos[..|s.repos|] == s.repos
    decreases |events|
  {
    if events != [] {
      var t := Step(s, events[0]);
      assert t.repos[..|s.repos|] == s.repos;
      RunKeepsAccumulated(t, events[1..]);
      assert Run(s, events).repos[..|t.repos|][..|s.repos|] == Run(s, events).repos[..|s.repos|];
    }
  }

  /** Once the last page was reached it stays reached, and no page change
      ever issues another fetch. */
  lemma {:induction false} LastPageIsFinal(s: ViewState, events: seq<Event>)
    requires s.isLastPage
    ensures Run(s, events).isLastPage
    ensures PageRequests(s, events) == []
    decreases |events|
  {
    if events != [] {
      var t := Step(s, events[0]);
      assert t.isLastPage;
      LastPageIsFinal(t, events[1..]);
    }
  }

  /** An accepted page replaces whatever the search had shown by the sorted
      copy of all of `repos`: the sort effect runs after the append. */
  lemma AcceptedPageDiscardsSearch(s: ViewState, p: int, response: PageResponse)
    requires p != s.page && !s.isLastPage && IsAccepted(response)
    ensures Step(s, PageChanged(p, response)).filteredData
            == SortedView(s.repos + NormalizePage(response.data), s.sortingOrder)
  {
  }

  /** If the very first page is empty the loading flag is still set and the
      end of data is recorded, so from then on no page change clears it
      (`LoadingClearedOnlyByRefresh`). */
  lemma EmptyFirstPageKeepsLoading(page: int, sortingOrder: int, status: int)
    ensures var s := Mount(page, sortingOrder, Response(status, []));
            s.loadingData && s.isLastPage && s.repos == []
  {
  }

  /** Once the end of data is recorded while loading, only a refresh can
      clear the loading flag, and it does so unless its page is empty too. */
  lemma LoadingClearedOnlyByRefresh(s: ViewState, e: Event)
    requires s.isLastPage && s.loadingData
    ensures !e.RefreshClicked? ==> Step(s, e).loadingData && Step(s, e).isLastPage
    ensures e.RefreshClicked? ==> Step(s, e).loadingData == IsEndOfData(e.response)
  {
  }

  /** Two positions of the list hold records with the same `id`. */
  predicate HasDuplicateId(rs: seq<Repo>)
  {
    exists i, j :: 0 <= i < j < |rs| && rs[i].id == rs[j].id
  }

  /** A refresh that succeeds appends the current page again: when that page
      had just been appended, it now appears twice in a row at the end, and
      `repos` holds two records with the same `id`. */
  lemma RefreshDuplicatesPage(s: ViewState, data: seq<Repo>)
    requires data != [] && |s.repos| >= |data|
    requires s.repos[|s.repos| - |data|..] == NormalizePage(data)
    ensures var t := Step(s, RefreshClicked(Response(200, data)));
            && t.repos == s.repos + NormalizePage(data)
            && t.repos[|s.repos| - |data|..] == NormalizePage(data) + NormalizePage(data)
            && HasDuplicateId(t.repos)
  {
    var t := AfterRefresh(s, Response(200, data));
    assert IsAccepted(Response(200, data));
    var k := |s.repos| - |data|;
    assert t.repos[k..] == s.repos[k..] + NormalizePage(data);
    assert t.repos[k] == t.repos[|s.repos|];
    assert HasDuplicateId(t.repos);
  }

  /** A page change to a new page, before the end of data, fetches that page
      and records whether it was the end. */
  lemma PageChangedOutcome(s: ViewState, p: int, response: PageResponse)
    requires p != s.page && !s.isLastPage
    ensures var t := Step(s, PageChanged(p, response));
            && t.page == p
            && t.repos == AfterFetch(s, response).repos
            && t.isLastPage == IsEndOfData(response)
  {
  }

  /** Two pages of two records each and then an empty page: four records are
      accumulated, the end of data is recorded, and moving on to a fourth page
      requests nothing. */
  lemma ThreePageSession(p1: seq<Repo>, p2: seq<Repo>, last: PageResponse)
    requires |p1| == 2 && |p2| == 2
    ensures var s := Run(Mount(1, 0, Response(200, p1)),
                         [PageChanged(2, Response(200, p2)), PageChanged(3, Response(200, []))]);
            && |s.repos| == 4
            && s.isLastPage
            && Request(s, PageChanged(4, last)) == None
  {
    var s1 := Mount(1, 0, Response(200, p1));
    assert IsAccepted(Response(200, p1)) && IsAccepted(Response(200, p2));
    assert |s1.repos| == 2 && !s1.isLastPage && s1.page == 1;
    var e2, e3 := PageChanged(2, Response(200, p2)), PageChanged(3, Response(200, []));
    PageChangedOutcome(s1, 2, Response(200, p2));
    var s2 := Step(s1, e2);
    PageChangedOutcome(s2, 3, Response(200, []));
    var s3 := Step(s2, e3);
    assert |s3.repos| == 4 && s3.isLastPage;
    RunTwo(s1, e2, e3);
  }

  /** A run of two events is the two steps in order. */
  lemma RunTwo(s: ViewState, e1: Event, e2: Event)
    ensures Run(s, [e1, e2]) == Step(Step(s, e1), e2)
  {
    var t := Step(s, e1);
    assert [e1, e2][1..] == [e2];
    assert Run(s, [e1, e2]) == Run(t, [e2]);
    assert [e2][1..] == [];
    assert Run(t, [e2]) == Run(Step(t, e2), []);
  }

  /** The dashboard component's state, updated in place by its handlers and
      effects. `filteredData` is the list the component renders. */
  class DashboardState {
    var repos: seq<Repo>
    var filteredData: seq<Repo>
    var loadingData: bool
    var isFetching: bool
    var isLastPage: bool
    var page: int
    var sortingOrder: int

    function State(): ViewState
      reads this
    {
      ViewState(repos, filteredData, loadingData, isFetching, isLastPage, page, sortingOrder)
    }

    ghost predicate Valid()
      reads this
    {
      Consistent(State())
    }

    constructor (page: int, sortingOrder: int)
      ensures Valid() && State() == Initial(page, sortingOrder)
    {
      repos, filteredData := [], [];
      loadingData, isFetching, isLastPage := true, false, false;
      this.page, this.sortingOrder := page, sortingOrder;
    }

    /** The sort effect: a sorted copy of `repos` replaces the rendered list;
        `repos` itself is not touched. */
    method SortEffect()
      requires Valid()
      modifies this`filteredData
      ensures Valid() && State() == AfterSort(old(State()))
    {
      var sortedData := SortedView(repos, sortingOrder);
      filteredData := sortedData;
    }

    /** `handleFilter`, with the text typed into the search box. */
    method HandleFilter(value: string)
      requires Valid()
      modifies this`filteredData
      ensures Valid() && State() == AfterSearch(old(State()), value)
    {
      filteredData := FilterRepos(repos, value);
    }

    /** `fetchRepositories`, once its request has resolved to `response`. */
    method FetchRepositories(response: PageResponse)
      requires Valid()
      modifies this`repos, this`filteredData, this`loadingData, this`isFetching, this`isLastPage
      ensures Valid() && State() == AfterFetch(old(State()), response)
    {
      match response {
        case Thrown =>
          loadingData := false;
        case Response(status, data) =>
          if |data| == 0 {
            isLastPage := true;
            isFetching := false;
          } else {
            var filteredPropertiesRepo := NormalizePage(data);
            if status != UNAUTHORIZED {
              repos := repos + filteredPropertiesRepo;
              filteredData := filteredData + filteredPropertiesRepo;
            }
            loadingData := false;
          }
      }
      assert State() == AfterFetch(old(State()), response);
    }

    /** The page effect; returns the page it requested, if it requested one. */
    method PageEffect(response: PageResponse) returns (request: Option<int>)
      requires Valid()
      modifies this`repos, this`filteredData, this`loadingData, this`isFetching, this`isLastPage
      ensures Valid() && State() == AfterPageEffect(old(State()), response)
      ensures request == if old(isLastPage) then None else Some(page)
    {
      request := None;
      if !isLastPage {
        if !loadingData {
          isFetching := true;
        }
        request := Some(page);
        FetchRepositories(response);
      }
    }

    /** `refreshAllHandler`; returns the page it requested. */
    method RefreshAllHandler(response: PageResponse) returns (request: int)
      requires Valid()
      modifies this`repos, this`filteredData, this`loadingData, this`isFetching, this`isLastPage
      ensures Valid() && State() == AfterRefresh(old(State()), response)
      ensures request == page
    {
      loadingData := true;
      request := page;
      FetchRepositories(response);
    }
  }
}
