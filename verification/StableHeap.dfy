/**
 The binary heap under the bounded sampler: worst score at the root. Pushing and replacing keep
 the order and change the contents by exactly the entry pushed and the root removed.
 */
module StableHeap {
  datatype Entry<T> = Entry(score: int, key: string, value: T)

  function Parent(i: int): int
    requires i > 0
  {
    (i - 1) / 2
  }

  predicate HeapOrdered<T>(h: seq<Entry<T>>) {
    forall i :: 0 < i < |h| ==> h[Parent(i)].score >= h[i].score
  }

  lemma {:induction false} RootIsWorst<T>(h: seq<Entry<T>>, i: nat)
    requires HeapOrdered(h) && i < |h|
    ensures h[0].score >= h[i].score
    decreases i
  {
    if i > 0 {
      RootIsWorst(h, Parent(i));
    }
  }

  function Swap<T>(h: seq<Entry<T>>, i: nat, j: nat): (r: seq<Entry<T>>)
    requires i < |h| && j < |h|
    ensures multiset(r) == multiset(h)
  {
    h[i := h[j]][j := h[i]]
  }

  /** Ordered everywhere except between `i` and its parent. */
  predicate OrderedBut<T>(h: seq<Entry<T>>, i: nat) {
    && (forall j :: 0 < j < |h| && j != i ==> h[Parent(j)].score >= h[j].score)
    && SkipsOver(h, i)
  }

  /** Ordered everywhere except between `i` and its children. */
  predicate OrderedAbove<T>(h: seq<Entry<T>>, i: nat) {
    && (forall j :: 0 < j < |h| && Parent(j) != i ==> h[Parent(j)].score >= h[j].score)
    && SkipsOver(h, i)
  }

  /** The parent of `i` already dominates the children of `i`. */
  predicate SkipsOver<T>(h: seq<Entry<T>>, i: nat) {
    0 < i < |h| ==> forall j :: 0 < j < |h| && Parent(j) == i ==> h[Parent(i)].score >= h[j].score
  }

  method Push<T>(h: seq<Entry<T>>, e: Entry<T>) returns (r: seq<Entry<T>>)
    requires HeapOrdered(h)
    ensures HeapOrdered(r) && |r| == |h| + 1
    ensures multiset(r) == multiset(h) + multiset{e}
  {
    r := h + [e];
    var i := |h|;
    while i > 0 && r[Parent(i)].score < r[i].score
      invariant 0 <= i < |r| == |h| + 1
      invariant OrderedBut(r, i)
      invariant multiset(r) == multiset(h) + multiset{e}
    {
      SiftedUp(r, i);
      r, i := Swap(r, i, Parent(i)), Parent(i);
    }
  }

  lemma SiftedUp<T>(h: seq<Entry<T>>, i: nat)
    requires 0 < i < |h| && OrderedBut(h, i) && h[Parent(i)].score < h[i].score
    ensures OrderedBut(Swap(h, i, Parent(i)), Parent(i))
  {
    var p := Parent(i);
    var r := Swap(h, i, p);
    forall j | 0 < j < |r| && j != p
      ensures r[Parent(j)].score >= r[j].score
    {
      if j != i && Parent(j) != i {
        assert h[Parent(j)].score >= h[j].score;
      }
    }
  }

  predicate WorstChild<T>(h: seq<Entry<T>>, i: nat, c: nat) {
    && 0 < c < |h| && i < c && Parent(c) == i
    && forall j :: 0 < j < |h| && Parent(j) == i ==> h[c].score >= h[j].score
  }

  method PickWorstChild<T>(h: seq<Entry<T>>, i: nat) returns (c: nat)
    requires 2 * i + 1 < |h|
    ensures WorstChild(h, i, c)
  {
    c := 2 * i + 1;
    if c + 1 < |h| && h[c + 1].score > h[c].score {
      c := c + 1;
    }
    forall j | 0 < j < |h| && Parent(j) == i ensures h[c].score >= h[j].score {
      assert j == 2 * i + 1 || j == 2 * i + 2;
    }
  }

  lemma NewRoot<T>(h: seq<Entry<T>>, e: Entry<T>)
    requires HeapOrdered(h) && |h| > 0
    ensures OrderedAbove(h[0 := e], 0)
    ensures multiset(h[0 := e]) == multiset(h) - multiset{h[0]} + multiset{e}
  {
  }

  lemma NoChild<T>(h: seq<Entry<T>>, i: nat)
    requires OrderedAbove(h, i) && 2 * i + 1 >= |h|
    ensures HeapOrdered(h)
  {
    forall j | 0 < j < |h| ensures h[Parent(j)].score >= h[j].score {
      assert Parent(j) != i;
    }
  }

  /** Replace the root by `e` and let it sink below every worse child. */
  method Replace<T>(h: seq<Entry<T>>, e: Entry<T>) returns (r: seq<Entry<T>>)
    requires HeapOrdered(h) && |h| > 0
    ensures HeapOrdered(r) && |r| == |h|
    ensures multiset(r) == multiset(h) - multiset{h[0]} + multiset{e}
  {
    NewRoot(h, e);
    r := h[0 := e];
    var i := 0;
    while 2 * i + 1 < |r|
      invariant 0 <= i < |r| == |h|
      invariant OrderedAbove(r, i)
      invariant multiset(r) == multiset(h) - multiset{h[0]} + multiset{e}
      decreases |r| - i
    {
      var c := PickWorstChild(r, i);
      if r[i].score >= r[c].score {
        SettledAt(r, i, c);
        return;
      }
      SiftedDown(r, i, c);
      r, i := Swap(r, c, i), c;
    }
    NoChild(r, i);
  }

  lemma SettledAt<T>(h: seq<Entry<T>>, i: nat, c: nat)
    requires OrderedAbove(h, i) && WorstChild(h, i, c) && h[i].score >= h[c].score
    ensures HeapOrdered(h)
  {
  }

  lemma SiftedDown<T>(h: seq<Entry<T>>, i: nat, c: nat)
    requires OrderedAbove(h, i) && WorstChild(h, i, c) && h[i].score < h[c].score
    ensures OrderedAbove(Swap(h, c, i), c)
  {
    var r := Swap(h, c, i);
    forall j | 0 < j < |r| && Parent(j) != c
      ensures r[Parent(j)].score >= r[j].score
    {
      if j == i {
        assert h[Parent(i)].score >= h[c].score;
      }
    }
    forall j | 0 < j < |r| && Parent(j) == c
      ensures r[Parent(c)].score >= r[j].score
    {
      assert h[Parent(j)].score >= h[j].score;
    }
  }
}
