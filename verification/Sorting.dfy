/** `sorted`, as insertion sort: stable, ordered and a permutation. */
module Sorting {
  ghost predicate TotalOrder<T(!new)>(le: (T, T) -> bool) {
    && (forall a, b :: le(a, b) || le(b, a))
    && (forall a, b, c :: le(a, b) && le(b, c) ==> le(a, c))
  }

  predicate SortedBy<T>(s: seq<T>, le: (T, T) -> bool) {
    forall i, j :: 0 <= i < j < |s| ==> le(s[i], s[j])
  }

  /** `e` goes behind every element that it does not have to precede. */
  function Insert<T(!new)>(s: seq<T>, e: T, le: (T, T) -> bool): (r: seq<T>)
    requires TotalOrder(le) && SortedBy(s, le)
    ensures SortedBy(r, le) && multiset(r) == multiset(s) + multiset{e}
    ensures forall x :: x in r ==> x == e || x in s
  {
    if s == [] then [e]
    else
      var front, last := s[..|s| - 1], s[|s| - 1];
      assert s == front + [last];
      if le(last, e) then AppendLargest(s, e, le)
      else AppendLargest(Insert(front, e, le), last, le)
  }

  function AppendLargest<T(!new)>(s: seq<T>, last: T, le: (T, T) -> bool): (r: seq<T>)
    requires TotalOrder(le) && SortedBy(s, le)
    requires s != [] ==> le(s[|s| - 1], last)
    ensures r == s + [last] && SortedBy(r, le)
  {
    s + [last]
  }

  function Sort<T(!new)>(s: seq<T>, le: (T, T) -> bool): (r: seq<T>)
    requires TotalOrder(le)
    ensures SortedBy(r, le) && multiset(r) == multiset(s)
  {
    if s == [] then []
    else
      assert s == s[..|s| - 1] + [s[|s| - 1]];
      Insert(Sort(s[..|s| - 1], le), s[|s| - 1], le)
  }

  lemma SameElements<T>(a: seq<T>, b: seq<T>, x: T)
    requires multiset(a) == multiset(b)
    ensures x in a <==> x in b
    ensures |a| == |b|
  {
    assert x in a <==> x in multiset(a);
    assert |a| == |multiset(a)|;
  }

  // ---------------------------------------------------------------------------
  // sorted(set(...)) of integers
  // ---------------------------------------------------------------------------

  predicate Increasing(s: seq<int>) {
    forall i, j :: 0 <= i < j < |s| ==> s[i] < s[j]
  }

  function InsertDistinct(s: seq<int>, n: int): (r: seq<int>)
    requires Increasing(s)
    ensures Increasing(r) && forall x :: x in r <==> x in s || x == n
  {
    if s == [] then [n]
    else
      var front, last := s[..|s| - 1], s[|s| - 1];
      assert s == front + [last];
      if last < n then s + [n]
      else if last == n then s
      else AppendGreatest(InsertDistinct(front, n), last)
  }

  function AppendGreatest(s: seq<int>, last: int): (r: seq<int>)
    requires Increasing(s) && forall x :: x in s ==> x < last
    ensures Increasing(r) && r == s + [last]
    ensures forall x :: x in r <==> x in s || x == last
  {
    assert forall i :: 0 <= i < |s| ==> s[i] in s;
    s + [last]
  }

  function SortDistinct(s: seq<int>): (r: seq<int>)
    ensures Increasing(r) && forall x :: x in r <==> x in s
  {
    if s == [] then []
    else
      assert s == s[..|s| - 1] + [s[|s| - 1]];
      InsertDistinct(SortDistinct(s[..|s| - 1]), s[|s| - 1])
  }

  lemma {:induction false} IncreasingStays(s: seq<int>)
    requires Increasing(s)
    ensures SortDistinct(s) == s
  {
    if s != [] {
      IncreasingStays(s[..|s| - 1]);
      assert s == s[..|s| - 1] + [s[|s| - 1]];
    }
  }
}
