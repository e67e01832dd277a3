/** The two derived lists the dashboard can render from the accumulated
    repositories: the search result and the sorted copy. */
module RepoView {
  import opened Text
  import opened Seqs
  import opened StableSort
  import opened Repository

  /** An optional text field matches when it is a string whose lower-cased
      form contains the lower-cased term; `null` and absent never match. */
  predicate FieldMatches(field: JsString, term: string)
  {
    field.Str? && Contains(Lower(field.value), Lower(term))
  }

  /** The search predicate: the term occurs, ignoring case, in the name,
      the visibility or the language. */
  predicate Matches(item: Repo, term: string)
  {
    || Contains(Lower(item.name), Lower(term))
    || FieldMatches(item.visibility, term)
    || FieldMatches(item.language, term)
  }

  /** The search result: the matching records of `repos`, in accumulation
      order, every copy of a matching record kept. */
  function FilterRepos(repos: seq<Repo>, term: string): (r: seq<Repo>)
    ensures IsSubsequence(r, repos)
    ensures forall x :: x in r <==> x in repos && Matches(x, term)
    ensures forall x :: multiset(r)[x] == if Matches(x, term) then multiset(repos)[x] else 0
  {
    var r := Filter(repos, item => Matches(item, term));
    FilterIsSubsequence(repos, item => Matches(item, term));
    assert forall x :: x in r <==> x in multiset(r);
    assert forall x :: x in repos <==> x in multiset(repos);
    r
  }

  /** The empty search term keeps every record, in order. */
  lemma FilterEmptyTermKeepsAll(repos: seq<Repo>)
    ensures FilterRepos(repos, "") == repos
  {
    forall i | 0 <= i < |repos| ensures Matches(repos[i], "") {
      ContainsEmpty(Lower(repos[i].name));
    }
    FilterKeepsAll(repos, item => Matches(item, ""));
  }

  /** Terms that lower-case alike select the same records. */
  lemma SearchIgnoresCase(repos: seq<Repo>, term1: string, term2: string)
    requires Lower(term1) == Lower(term2)
    ensures FilterRepos(repos, term1) == FilterRepos(repos, term2)
  {
    FilterCongruent(repos, item => Matches(item, term1), item => Matches(item, term2));
  }

  /** Searching the accumulated list after a page was appended gives the
      old result followed by the matches in the new page. */
  lemma FilterAfterAppend(repos: seq<Repo>, page: seq<Repo>, term: string)
    ensures FilterRepos(repos + page, term) == FilterRepos(repos, term) + FilterRepos(page, term)
  {
    FilterAppend(repos, page, item => Matches(item, term));
  }

  /** Sort order 0: by name, ascending. */
  predicate ByName(a: Repo, b: Repo)
  {
    CodeUnitLeq(a.name, b.name)
  }

  /** Sort order 1: most recently created first. */
  predicate ByCreatedDesc(a: Repo, b: Repo)
  {
    a.createdAt >= b.createdAt
  }

  /** Sort order 2: most recently updated first. */
  predicate ByUpdatedDesc(a: Repo, b: Repo)
  {
    a.updatedAt >= b.updatedAt
  }

  /** The comparator selected by a sorting order the dashboard knows. */
  function OrderLeq(sortingOrder: int): (Repo, Repo) -> bool
    requires 0 <= sortingOrder <= 2
  {
    if sortingOrder == 0 then ByName
    else if sortingOrder == 1 then ByCreatedDesc
    else ByUpdatedDesc
  }

  lemma OrderLeqIsTotalPreorder(sortingOrder: int)
    requires 0 <= sortingOrder <= 2
    ensures TotalPreorder(OrderLeq(sortingOrder))
  {
    if sortingOrder == 0 {
      forall a: Repo, b: Repo ensures ByName(a, b) || ByName(b, a) {
        CodeUnitLeqTotal(a.name, b.name);
      }
      forall a: Repo, b: Repo, c: Repo | ByName(a, b) && ByName(b, c) ensures ByName(a, c) {
        CodeUnitLeqTransitive(a.name, b.name, c.name);
      }
    }
  }

  /** The list the sort effect renders: a sorted copy of `repos` for orders
      0, 1 and 2, and `repos` itself in accumulation order for any other. */
  function SortedView(repos: seq<Repo>, sortingOrder: int): (r: seq<Repo>)
    ensures multiset(r) == multiset(repos)
    ensures sortingOrder == 0 ==> forall i, j :: 0 <= i < j < |r| ==> CodeUnitLeq(r[i].name, r[j].name)
    ensures sortingOrder == 1 ==> forall i, j :: 0 <= i < j < |r| ==> r[i].createdAt >= r[j].createdAt
    ensures sortingOrder == 2 ==> forall i, j :: 0 <= i < j < |r| ==> r[i].updatedAt >= r[j].updatedAt
    ensures !(0 <= sortingOrder <= 2) ==> r == repos
  {
    if 0 <= sortingOrder <= 2 then
      OrderLeqIsTotalPreorder(sortingOrder);
      SortBySorted(repos, OrderLeq(sortingOrder));
      SortBy(repos, OrderLeq(sortingOrder))
    else
      repos
  }

  /** Stability of the three orders: the records tied with any record `e`
      (same name, same creation time or same update time) appear in the
      sorted copy in the order they were accumulated. */
  lemma SortedViewStable(repos: seq<Repo>, sortingOrder: int, e: Repo)
    requires 0 <= sortingOrder <= 2
    ensures TiesOf(SortedView(repos, sortingOrder), e, OrderLeq(sortingOrder))
            == TiesOf(repos, e, OrderLeq(sortingOrder))
  {
    OrderLeqIsTotalPreorder(sortingOrder);
    SortByKeepsTies(repos, OrderLeq(sortingOrder), e);
  }

  /** Any list a stable sort by the same comparator can produce is the
      sorted copy: sortedness and stability leave no other choice. */
  lemma SortedViewIsOnlyStableResult(repos: seq<Repo>, sortingOrder: int, r: seq<Repo>)
    requires 0 <= sortingOrder <= 2
    requires Sorted(r, OrderLeq(sortingOrder))
    requires forall e :: TiesOf(r, e, OrderLeq(sortingOrder)) == TiesOf(repos, e, OrderLeq(sortingOrder))
    ensures r == SortedView(repos, sortingOrder)
  {
    OrderLeqIsTotalPreorder(sortingOrder);
    StableSortIsUnique(repos, r, OrderLeq(sortingOrder));
  }

  /** Re-sorting the sorted copy by the same order changes nothing. */
  lemma SortedViewIdempotent(repos: seq<Repo>, sortingOrder: int)
    ensures SortedView(SortedView(repos, sortingOrder), sortingOrder) == SortedView(repos, sortingOrder)
  {
    if 0 <= sortingOrder <= 2 {
      OrderLeqIsTotalPreorder(sortingOrder);
      SortByIdempotent(repos, OrderLeq(sortingOrder));
    }
  }

  /** A language of "Python" is found by the term "PY". */
  lemma SearchExamplePython(item: Repo)
    requires item.language == Str("Python")
    ensures Matches(item, "PY")
  {
    assert Lower("Python") == "python";
    assert Lower("PY") == "py";
    assert IsPrefix("py", "python");
  }
}
