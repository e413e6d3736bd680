/** Sizes of finite sets. */
module SetSizes {
  /** A subset is no larger, and of the same size only if it is the whole set. */
  lemma SubsetSize<T>(a: set<T>, b: set<T>)
    requires a <= b
    ensures |a| <= |b|
    ensures |a| == |b| ==> a == b
  {
    assert b == a + (b - a);
  }

  lemma DifferenceSize<T>(a: set<T>, b: set<T>)
    ensures |a - b| == |a| - |a * b|
  {
    assert a == (a - b) + (a * b);
  }

  lemma UnionSize<T>(a: set<T>, b: set<T>, around: set<T>)
    requires b <= around && a !! around
    ensures |a + b| == |a| + |b|
  {
  }
}
