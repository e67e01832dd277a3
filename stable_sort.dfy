/** A stable sort by a comparator, the behaviour section 23.1.3.30 of
    ECMA-262 (2023 edition) requires of `Array.prototype.sort`: the result
    is ordered by the comparator, is a permutation of the input, and keeps
    the input order among elements the comparator ties. */
module StableSort {
  import opened Seqs

  /** `leq(a, b)`: `a` may come before `b`. A consistent comparator induces
      a total preorder: every two elements compare, and comparison chains. */
  ghost predicate TotalPreorder<T(!new)>(leq: (T, T) -> bool)
  {
    && (forall a, b :: leq(a, b) || leq(b, a))
    && (forall a, b, c :: leq(a, b) && leq(b, c) ==> leq(a, c))
  }

  ghost predicate Sorted<T>(s: seq<T>, leq: (T, T) -> bool)
  {
    forall i, j :: 0 <= i < j < |s| ==> leq(s[i], s[j])
  }

  /** Every two elements selected by `p` are tied under `leq`. */
  ghost predicate TiedClass<T(!new)>(p: T -> bool, leq: (T, T) -> bool)
  {
    forall a, b :: p(a) && p(b) ==> leq(a, b)
  }

  /** The elements of `s` tied with `e`, in their order in `s`. */
  function TiesOf<T(==, !new)>(s: seq<T>, e: T, leq: (T, T) -> bool): seq<T>
  {
    Filter(s, x => leq(x, e) && leq(e, x))
  }

  /** Puts `x` in front of the first element of `s` it may precede. */
  function Insert<T(==)>(x: T, s: seq<T>, leq: (T, T) -> bool): (r: seq<T>)
    ensures multiset(r) == multiset(s) + multiset{x}
  {
    if s == [] then [x]
    else if leq(x, s[0]) then [x] + s
    else
      assert s == [s[0]] + s[1..];
      [s[0]] + Insert(x, s[1..], leq)
  }

  /** Insertion sort: each element is inserted, from the back of the input
      forwards, into the already sorted remainder. */
  function SortBy<T(==)>(s: seq<T>, leq: (T, T) -> bool): (r: seq<T>)
    ensures multiset(r) == multiset(s)
    ensures |r| == |s|
  {
    if s == [] then []
    else
      assert s == [s[0]] + s[1..];
      Insert(s[0], SortBy(s[1..], leq), leq)
  }

  lemma {:induction false} InsertSorted<T(!new)>(x: T, s: seq<T>, leq: (T, T) -> bool)
    requires TotalPreorder(leq) && Sorted(s, leq)
    ensures Sorted(Insert(x, s, leq), leq)
  {
    if s != [] && !leq(x, s[0]) {
      InsertSorted(x, s[1..], leq);
      var r := Insert(x, s[1..], leq);
      forall j | 0 <= j < |r| ensures leq(s[0], r[j]) {
        assert r[j] in multiset(r);
        assert r[j] == x || r[j] in multiset(s[1..]);
      }
    }
  }

  /** With a consistent comparator, the sorted copy is in comparator order. */
  lemma {:induction false} SortBySorted<T(!new)>(s: seq<T>, leq: (T, T) -> bool)
    requires TotalPreorder(leq)
    ensures Sorted(SortBy(s, leq), leq)
  {
    if s != [] {
      SortBySorted(s[1..], leq);
      InsertSorted(s[0], SortBy(s[1..], leq), leq);
    }
  }

  lemma {:induction false} FilterInsert<T(!new)>(x: T, s: seq<T>, leq: (T, T) -> bool, p: T -> bool)
    requires TiedClass(p, leq)
    ensures Filter(Insert(x, s, leq), p) == (if p(x) then [x] else []) + Filter(s, p)
  {
    if s == [] {
    } else if leq(x, s[0]) {
      assert ([x] + s)[1..] == s;
    } else {
      FilterInsert(x, s[1..], leq, p);
      assert ([s[0]] + Insert(x, s[1..], leq))[1..] == Insert(x, s[1..], leq);
    }
  }

  /** Stability: elements the comparator ties keep their input order. */
  lemma {:induction false} SortByStable<T(!new)>(s: seq<T>, leq: (T, T) -> bool, p: T -> bool)
    requires TiedClass(p, leq)
    ensures Filter(SortBy(s, leq), p) == Filter(s, p)
  {
    if s != [] {
      SortByStable(s[1..], leq, p);
      FilterInsert(s[0], SortBy(s[1..], leq), leq, p);
    }
  }

  /** Sorting an already sorted sequence changes nothing; so sorting twice
      is the same as sorting once. */
  lemma {:induction false} SortBySortedIsIdentity<T(!new)>(s: seq<T>, leq: (T, T) -> bool)
    requires Sorted(s, leq)
    ensures SortBy(s, leq) == s
  {
    if s != [] {
      SortBySortedIsIdentity(s[1..], leq);
      if |s| > 1 {
        assert leq(s[0], s[1]);
      }
    }
  }

  lemma SortByIdempotent<T(!new)>(s: seq<T>, leq: (T, T) -> bool)
    requires TotalPreorder(leq)
    ensures SortBy(SortBy(s, leq), leq) == SortBy(s, leq)
  {
    SortBySorted(s, leq);
    SortBySortedIsIdentity(SortBy(s, leq), leq);
  }

  /** Under a consistent comparator the elements tied with `e` form a class
      of mutually tied elements. */
  lemma TiesAreTied<T(!new)>(leq: (T, T) -> bool, e: T)
    requires TotalPreorder(leq)
    ensures TiedClass(x => leq(x, e) && leq(e, x), leq)
  {
  }

  /** The sorted copy lists the elements tied with any `e` in input order. */
  lemma SortByKeepsTies<T(!new)>(s: seq<T>, leq: (T, T) -> bool, e: T)
    requires TotalPreorder(leq)
    ensures TiesOf(SortBy(s, leq), e, leq) == TiesOf(s, e, leq)
  {
    TiesAreTied(leq, e);
    SortByStable(s, leq, x => leq(x, e) && leq(e, x));
  }

  lemma {:induction false} InOwnTies<T(!new)>(s: seq<T>, i: int, leq: (T, T) -> bool)
    requires TotalPreorder(leq) && 0 <= i < |s|
    ensures s[i] in TiesOf(s, s[i], leq)
  {
    var p := x => leq(x, s[i]) && leq(s[i], x);
    assert p(s[i]);
    assert s[i] in multiset(s);
    assert multiset(Filter(s, p))[s[i]] == multiset(s)[s[i]];
  }

  lemma InTiesIsIn<T(!new)>(s: seq<T>, e: T, leq: (T, T) -> bool, y: T)
    requires y in TiesOf(s, e, leq)
    ensures y in s
  {
    var p := x => leq(x, e) && leq(e, x);
    assert y in multiset(Filter(s, p));
  }

  lemma TiesOfCons<T(!new)>(s: seq<T>, e: T, leq: (T, T) -> bool)
    requires s != []
    ensures TiesOf(s, e, leq) == (if leq(s[0], e) && leq(e, s[0]) then [s[0]] else []) + TiesOf(s[1..], e, leq)
  {
  }

  /** The first elements of two sorted sequences with the same classes of
      tied elements are tied with each other. */
  lemma HeadsTied<T(!new)>(a: seq<T>, b: seq<T>, leq: (T, T) -> bool)
    requires TotalPreorder(leq) && Sorted(a, leq) && a != [] && b != []
    requires TiesOf(a, b[0], leq) == TiesOf(b, b[0], leq)
    ensures leq(a[0], b[0])
  {
    InOwnTies(b, 0, leq);
    InTiesIsIn(a, b[0], leq, b[0]);
    var j :| 0 <= j < |a| && a[j] == b[0];
    assert j == 0 || leq(a[0], a[j]);
  }

  lemma HeadsEqual<T(!new)>(a: seq<T>, b: seq<T>, leq: (T, T) -> bool)
    requires TotalPreorder(leq) && a != [] && b != [] && leq(a[0], b[0]) && leq(b[0], a[0])
    requires TiesOf(a, a[0], leq) == TiesOf(b, a[0], leq)
    ensures a[0] == b[0]
  {
    var x := a[0];
    TiesOfCons(a, x, leq);
    TiesOfCons(b, x, leq);
    assert leq(x, x);
    assert TiesOf(a, x, leq) == [x] + TiesOf(a[1..], x, leq);
    assert TiesOf(b, x, leq) == [b[0]] + TiesOf(b[1..], x, leq);
    assert TiesOf(a, x, leq)[0] == x && TiesOf(b, x, leq)[0] == b[0];
  }

  lemma TailsSameTies<T(!new)>(a: seq<T>, b: seq<T>, leq: (T, T) -> bool)
    requires a != [] && b != [] && a[0] == b[0]
    requires forall e :: TiesOf(a, e, leq) == TiesOf(b, e, leq)
    ensures forall e :: TiesOf(a[1..], e, leq) == TiesOf(b[1..], e, leq)
  {
    forall e ensures TiesOf(a[1..], e, leq) == TiesOf(b[1..], e, leq) {
      TiesOfCons(a, e, leq);
      TiesOfCons(b, e, leq);
      var head := if leq(a[0], e) && leq(e, a[0]) then [a[0]] else [];
      assert head + TiesOf(a[1..], e, leq) == head + TiesOf(b[1..], e, leq);
      assert (head + TiesOf(a[1..], e, leq))[|head|..] == TiesOf(a[1..], e, leq);
      assert (head + TiesOf(b[1..], e, leq))[|head|..] == TiesOf(b[1..], e, leq);
    }
  }

  lemma NotEmptyWhenOtherIsNot<T(!new)>(a: seq<T>, b: seq<T>, leq: (T, T) -> bool)
    requires TotalPreorder(leq) && a != []
    requires TiesOf(a, a[0], leq) == TiesOf(b, a[0], leq)
    ensures b != []
  {
    InOwnTies(a, 0, leq);
    InTiesIsIn(b, a[0], leq, a[0]);
  }

  /** Two sorted sequences that list every class of tied elements alike are
      equal. */
  lemma {:induction false} SortedTiesDetermine<T(!new)>(a: seq<T>, b: seq<T>, leq: (T, T) -> bool)
    requires TotalPreorder(leq) && Sorted(a, leq) && Sorted(b, leq)
    requires forall e :: TiesOf(a, e, leq) == TiesOf(b, e, leq)
    ensures a == b
    decreases |a| + |b|
  {
    if a != [] {
      NotEmptyWhenOtherIsNot(a, b, leq);
      HeadsTied(a, b, leq);
      HeadsTied(b, a, leq);
      HeadsEqual(a, b, leq);
      TailsSameTies(a, b, leq);
      SortedTiesDetermine(a[1..], b[1..], leq);
      assert a == [a[0]] + a[1..] && b == [b[0]] + b[1..];
    } else if b != [] {
      NotEmptyWhenOtherIsNot(b, a, leq);
    }
  }

  /** Whatever algorithm produces it, a result that is sorted and keeps
      every class of tied elements in input order is this sort's result. */
  lemma StableSortIsUnique<T(!new)>(s: seq<T>, r: seq<T>, leq: (T, T) -> bool)
    requires TotalPreorder(leq) && Sorted(r, leq)
    requires forall e :: TiesOf(r, e, leq) == TiesOf(s, e, leq)
    ensures r == SortBy(s, leq)
  {
    SortBySorted(s, leq);
    forall e ensures TiesOf(SortBy(s, leq), e, leq) == TiesOf(r, e, leq) {
      SortByKeepsTies(s, leq, e);
    }
    SortedTiesDetermine(r, SortBy(s, leq), leq);
  }
}
