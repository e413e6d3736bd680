/** The two small computations under the benchmark: candidate counts to try, and percentiles. */
module PolicyStatistics {
  import opened Wrappers
  import opened Sorting
  import opened PolicyGates

  // ---------------------------------------------------------------------------
  // Candidate counts
  // ---------------------------------------------------------------------------

  const RATIO_ANCHORS: seq<real> := [0.01, 0.05, 0.10, 0.25]

  function AnchorCount(corpus: Users, ratio: real): int {
    Max(1, Min(corpus, Ceil(corpus as real * ratio)))
  }

  function GridCount(corpus: Users, minimum: nat, safety: real, expected: real): int {
    Min(corpus, Max(minimum, Ceil(safety * expected)))
  }

  ghost predicate FromAnchors(corpus: Users, n: nat, x: int)
    requires n <= |RATIO_ANCHORS|
  {
    exists i :: 0 <= i < n && x == AnchorCount(corpus, RATIO_ANCHORS[i])
  }

  /** `x` comes from one of the first `m` minima, or the next one with one of the first `f` factors. */
  ghost predicate FromGrid(corpus: Users, expected: real, m: nat, f: nat, x: int)
    requires m <= |MINIMUM_GRID| && f <= |SAFETY_GRID|
    requires f > 0 ==> m < |MINIMUM_GRID|
  {
    || (exists i, j :: 0 <= i < m && 0 <= j < |SAFETY_GRID|
                       && x == GridCount(corpus, MINIMUM_GRID[i], SAFETY_GRID[j], expected))
    || exists j :: 0 <= j < f && x == GridCount(corpus, MINIMUM_GRID[m], SAFETY_GRID[j], expected)
  }

  /** `enumerate_unique_candidate_counts`: each count once, in order. */
  method EnumerateUniqueCandidateCounts(corpus: Users, expected: real) returns (counts: seq<int>)
    ensures Increasing(counts)
    ensures forall x :: x in counts <==>
              || FromAnchors(corpus, |RATIO_ANCHORS|, x)
              || FromGrid(corpus, expected, |MINIMUM_GRID|, 0, x)
  {
    var values: seq<int> := [];
    for i := 0 to |RATIO_ANCHORS|
      invariant forall x :: x in values <==> FromAnchors(corpus, i, x)
    {
      values := values + [AnchorCount(corpus, RATIO_ANCHORS[i])];
    }
    for m := 0 to |MINIMUM_GRID|
      invariant forall x :: x in values <==>
                  FromAnchors(corpus, |RATIO_ANCHORS|, x) || FromGrid(corpus, expected, m, 0, x)
    {
      for f := 0 to |SAFETY_GRID|
        invariant forall x :: x in values <==>
                    FromAnchors(corpus, |RATIO_ANCHORS|, x) || FromGrid(corpus, expected, m, f, x)
      {
        values := values + [GridCount(corpus, MINIMUM_GRID[m], SAFETY_GRID[f], expected)];
      }
    }
    counts := SortDistinct(values);
  }

  /**
   Whatever count a policy from the grids proposes, for whatever corpus and expectation, is among
   the counts enumerated, so the benchmark covers every candidate policy.
   */
  lemma EveryProposalIsEnumerated(corpus: Users, expected: real, i: nat, j: nat, fraction: real)
    requires i < |MINIMUM_GRID| && j < |SAFETY_GRID|
    requires ProposedK(KPolicy(MINIMUM_GRID[i], SAFETY_GRID[j], fraction), corpus, expected).Some?
    ensures FromGrid(corpus, expected, |MINIMUM_GRID|, 0,
                     ProposedK(KPolicy(MINIMUM_GRID[i], SAFETY_GRID[j], fraction), corpus, expected).value)
  {
    var k := ProposedK(KPolicy(MINIMUM_GRID[i], SAFETY_GRID[j], fraction), corpus, expected).value;
    assert k == GridCount(corpus, MINIMUM_GRID[i], SAFETY_GRID[j], expected);
  }

  /** The counts of the anchors: the least that are the given shares of the corpus, and at least one. */
  lemma AnchorsAreShares(corpus: Users, x: int)
    ensures FromAnchors(corpus, |RATIO_ANCHORS|, x)
       <==> || LeastShare(corpus, 0.01, x) || LeastShare(corpus, 0.05, x)
            || LeastShare(corpus, 0.10, x) || LeastShare(corpus, 0.25, x)
  {
    ShareIsLeast(corpus, 0.01, x);
    ShareIsLeast(corpus, 0.05, x);
    ShareIsLeast(corpus, 0.10, x);
    ShareIsLeast(corpus, 0.25, x);
    FromEach(corpus, x);
  }

  lemma FromEach(corpus: Users, x: int)
    ensures FromAnchors(corpus, |RATIO_ANCHORS|, x)
       <==> || x == AnchorCount(corpus, 0.01) || x == AnchorCount(corpus, 0.05)
            || x == AnchorCount(corpus, 0.10) || x == AnchorCount(corpus, 0.25)
  {
    var anchors := RATIO_ANCHORS;
    assert anchors[0] == 0.01 && anchors[1] == 0.05 && anchors[2] == 0.10 && anchors[3] == 0.25;
  }

  predicate LeastShare(corpus: Users, share: real, x: int) {
    && x >= 1 && x as real >= corpus as real * share
    && (x == 1 || (x - 1) as real < corpus as real * share)
  }

  lemma ShareIsLeast(corpus: Users, share: real, x: int)
    requires 0.0 <= share <= 1.0
    ensures x == AnchorCount(corpus, share) <==> LeastShare(corpus, share, x)
  {
    Scaled(corpus as real, share, 1.0);
    CeilOf(corpus as real * share);
  }

  lemma CeilOf(r: real)
    ensures Ceil(r) as real >= r && (Ceil(r) - 1) as real < r
  {
  }

  /** Every count enumerated lies within the corpus. */
  lemma CountsLieInCorpus(corpus: Users, expected: real, x: int)
    requires (FromAnchors(corpus, |RATIO_ANCHORS|, x) || FromGrid(corpus, expected, |MINIMUM_GRID|, 0, x))
    ensures 1 <= x <= corpus
  {
  }

  // ---------------------------------------------------------------------------
  // Percentiles
  // ---------------------------------------------------------------------------

  predicate AtMost(a: real, b: real) {
    a <= b
  }

  /** The value at a real-valued position of an ordered list, interpolated between its neighbours. */
  function ValueAt(ordered: seq<real>, position: real): real
    requires 0.0 <= position <= (|ordered| - 1) as real
  {
    var lower, upper := position.Floor, Ceil(position);
    if lower == upper then ordered[lower]
    else Between(ordered[lower], ordered[upper], position - lower as real)
  }

  function Between(low: real, high: real, fraction: real): real {
    low + (high - low) * fraction
  }

  function Position(n: nat, quantile: real): real {
    (n - 1) as real * quantile
  }

  lemma PositionInRange(n: nat, p: real, q: real)
    requires n > 0 && 0.0 <= p <= q <= 1.0
    ensures 0.0 <= Position(n, p) <= Position(n, q) <= (n - 1) as real
  {
    var scale := (n - 1) as real;
    Scaled(scale, 0.0, p);
    Scaled(scale, p, q);
    Scaled(scale, q, 1.0);
  }

  lemma Scaled(scale: real, x: real, y: real)
    requires scale >= 0.0 && x <= y
    ensures scale * x <= scale * y
  {
    assert scale * y - scale * x == scale * (y - x);
  }

  function Ordered(values: seq<real>): (r: seq<real>)
    ensures SortedBy(r, AtMost) && multiset(r) == multiset(values) && |r| == |values|
  {
    SameElements(Sort(values, AtMost), values, 0.0);
    Sort(values, AtMost)
  }

  function PercentileOf(values: seq<real>, quantile: real): real
    requires values != [] && 0.0 <= quantile <= 1.0
  {
    PositionInRange(|values|, quantile, quantile);
    ValueAt(Ordered(values), Position(|values|, quantile))
  }

  /** `percentile`; it raises on an empty list or a quantile outside [0, 1]. */
  method Percentile(values: seq<real>, quantile: real) returns (r: Option<real>)
    ensures r.None? <==> values == [] || !(0.0 <= quantile <= 1.0)
    ensures r.Some? ==> r.value == PercentileOf(values, quantile)
  {
    if values == [] || !(0.0 <= quantile <= 1.0) {
      return None;
    }
    var ordered := Ordered(values);
    PositionInRange(|ordered|, quantile, quantile);
    if |ordered| == 1 {
      OnlyPosition(quantile);
      return Some(ordered[0]);
    }
    var value := Interpolate(ordered, Position(|ordered|, quantile));
    r := Some(value);
  }

  /** The last lines of `percentile`. */
  method Interpolate(ordered: seq<real>, position: real) returns (value: real)
    requires 0.0 <= position <= (|ordered| - 1) as real
    ensures value == ValueAt(ordered, position)
  {
    var lower, upper := position.Floor, Ceil(position);
    if lower == upper {
      return ordered[lower];
    }
    var fraction := position - lower as real;
    value := Between(ordered[lower], ordered[upper], fraction);
  }

  lemma OnlyPosition(quantile: real)
    ensures Position(1, quantile) == 0.0
  {
  }

  lemma Interpolated(low: real, high: real, fraction: real)
    requires low <= high && 0.0 <= fraction <= 1.0
    ensures low <= Between(low, high, fraction) <= high
  {
    Scaled(high - low, 0.0, fraction);
    Scaled(high - low, fraction, 1.0);
    assert (high - low) * 1.0 == high - low;
  }

  /** An interpolated value lies between its two neighbours. */
  lemma BetweenNeighbours(ordered: seq<real>, position: real)
    requires SortedBy(ordered, AtMost) && 0.0 <= position <= (|ordered| - 1) as real
    ensures ordered[position.Floor] <= ValueAt(ordered, position) <= ordered[Ceil(position)]
  {
    var lower, upper := position.Floor, Ceil(position);
    if lower != upper {
      assert AtMost(ordered[lower], ordered[upper]);
      Interpolated(ordered[lower], ordered[upper], position - lower as real);
    }
  }

  /** A higher position never has a lower value. */
  lemma ValueIsMonotone(ordered: seq<real>, p: real, q: real)
    requires SortedBy(ordered, AtMost) && 0.0 <= p <= q <= (|ordered| - 1) as real
    ensures ValueAt(ordered, p) <= ValueAt(ordered, q)
  {
    BetweenNeighbours(ordered, p);
    BetweenNeighbours(ordered, q);
    if Ceil(p) < q.Floor {
      assert AtMost(ordered[Ceil(p)], ordered[q.Floor]);
    } else if p.Floor == q.Floor && p.Floor as real != p {
      SameCell(ordered, p, q, p.Floor);
    }
  }

  lemma SameCell(ordered: seq<real>, p: real, q: real, lower: nat)
    requires SortedBy(ordered, AtMost) && lower as real < p <= q < (lower + 1) as real && lower + 1 < |ordered|
    requires p.Floor == lower && q.Floor == lower && Ceil(p) == lower + 1 && Ceil(q) == lower + 1
    requires 0.0 <= p && q <= (|ordered| - 1) as real
    ensures ValueAt(ordered, p) <= ValueAt(ordered, q)
  {
    assert AtMost(ordered[lower], ordered[lower + 1]);
    BetweenIsMonotone(ordered[lower], ordered[lower + 1], p - lower as real, q - lower as real);
  }

  lemma BetweenIsMonotone(low: real, high: real, f: real, g: real)
    requires low <= high && f <= g
    ensures Between(low, high, f) <= Between(low, high, g)
  {
    Scaled(high - low, f, g);
  }

  /** A percentile grows with the quantile. */
  lemma PercentileIsMonotone(values: seq<real>, p: real, q: real)
    requires values != [] && 0.0 <= p <= q <= 1.0
    ensures PercentileOf(values, p) <= PercentileOf(values, q)
  {
    PositionInRange(|values|, p, q);
    ValueIsMonotone(Ordered(values), Position(|values|, p), Position(|values|, q));
  }

  /** And it ignores the order of the values. */
  lemma PercentileIgnoresOrder(values: seq<real>, other: seq<real>, q: real)
    requires values != [] && other != [] && multiset(values) == multiset(other) && 0.0 <= q <= 1.0
    ensures PercentileOf(values, q) == PercentileOf(other, q)
  {
    SameElements(values, other, 0.0);
    OrderedOnce(Ordered(values), Ordered(other));
  }

  /** It lies between two of the values, and the extreme quantiles are the extreme values. */
  lemma PercentileLiesWithin(values: seq<real>, q: real) returns (low: real, high: real)
    requires values != [] && 0.0 <= q <= 1.0
    ensures low in values && high in values && low <= PercentileOf(values, q) <= high
    ensures q == 0.0 ==> forall x :: x in values ==> PercentileOf(values, q) <= x
    ensures q == 1.0 ==> forall x :: x in values ==> x <= PercentileOf(values, q)
  {
    var ordered := Ordered(values);
    PositionInRange(|values|, q, q);
    BetweenNeighbours(ordered, Position(|values|, q));
    low, high := Neighbours(values, ordered, Position(|values|, q));
    ExtremePositions(|values|, q);
    WithinOrdered(values, ordered);
  }

  lemma Neighbours(values: seq<real>, ordered: seq<real>, position: real) returns (low: real, high: real)
    requires multiset(ordered) == multiset(values) && 0.0 <= position <= (|ordered| - 1) as real
    ensures low in values && high in values
    ensures low == ordered[position.Floor] && high == ordered[Ceil(position)]
  {
    low, high := ordered[position.Floor], ordered[Ceil(position)];
    SameElements(ordered, values, low);
    SameElements(ordered, values, high);
  }

  lemma ExtremePositions(n: nat, q: real)
    requires n > 0
    ensures q == 0.0 ==> Position(n, q) == 0.0
    ensures q == 1.0 ==> Position(n, q) == (n - 1) as real
  {
  }

  lemma WithinOrdered(values: seq<real>, ordered: seq<real>)
    requires SortedBy(ordered, AtMost) && multiset(ordered) == multiset(values) && |ordered| > 0
    ensures forall x :: x in values ==> ordered[0] <= x <= ordered[|ordered| - 1]
  {
    forall x | x in values ensures ordered[0] <= x <= ordered[|ordered| - 1] {
      SameElements(ordered, values, x);
      WithinEnds(ordered, x);
    }
  }

  lemma WithinEnds(s: seq<real>, x: real)
    requires SortedBy(s, AtMost) && x in s
    ensures s[0] <= x <= s[|s| - 1]
  {
    var i :| 0 <= i < |s| && s[i] == x;
    assert i > 0 ==> AtMost(s[0], s[i]);
    assert i < |s| - 1 ==> AtMost(s[i], s[|s| - 1]);
  }

  /** The values from `start` up in steps of `step`. */
  ghost predicate EvenlySpaced(values: seq<real>, start: real, step: real) {
    step >= 0.0 && forall i :: 0 <= i < |values| ==> values[i] == start + i as real * step
  }

  lemma EvenlySpacedSorted(values: seq<real>, start: real, step: real)
    requires EvenlySpaced(values, start, step)
    ensures SortedBy(values, AtMost)
  {
    forall i, j | 0 <= i < j < |values|
      ensures AtMost(values[i], values[j])
    {
      Scaled(step, i as real, j as real);
    }
  }

  lemma EvenValueAt(values: seq<real>, start: real, step: real, position: real)
    requires EvenlySpaced(values, start, step) && 0.0 <= position <= (|values| - 1) as real
    ensures ValueAt(values, position) == start + position * step
  {
    var lower, upper := position.Floor, Ceil(position);
    if lower != upper {
      assert upper == lower + 1;
      EvenBetween(start, step, lower as real, position - lower as real);
    }
  }

  lemma EvenBetween(start: real, step: real, lower: real, fraction: real)
    ensures Between(start + lower * step, start + (lower + 1.0) * step, fraction)
         == start + (lower + fraction) * step
  {
    assert (start + (lower + 1.0) * step) - (start + lower * step) == step;
  }

  lemma EvenPercentile(values: seq<real>, even: seq<real>, start: real, step: real, q: real,
                       position: real)
    requires values != [] && Ordered(values) == even && EvenlySpaced(even, start, step)
    requires 0.0 <= q <= 1.0 && position == Position(|values|, q)
    ensures PercentileOf(values, q) == start + position * step
  {
    PositionInRange(|values|, q, q);
    EvenValueAt(even, start, step, position);
  }

  /** On evenly spaced values, in any order, the percentile is linear in the quantile. */
  lemma PercentileIsLinear(values: seq<real>, even: seq<real>, start: real, step: real, q: real,
                           position: real)
    requires values != [] && multiset(values) == multiset(even) && EvenlySpaced(even, start, step)
    requires 0.0 <= q <= 1.0 && position == (|values| - 1) as real * q
    ensures PercentileOf(values, q) == start + position * step
  {
    EvenIsOrdered(values, even, start, step);
    EvenPercentile(values, even, start, step, q, position);
  }

  lemma EvenIsOrdered(values: seq<real>, even: seq<real>, start: real, step: real)
    requires multiset(values) == multiset(even) && EvenlySpaced(even, start, step)
    ensures Ordered(values) == even
  {
    EvenlySpacedSorted(even, start, step);
    OrderedOnce(Ordered(values), even);
  }

  /** Two ordered lists with the same elements are the same list. */
  lemma {:induction false} OrderedOnce(a: seq<real>, b: seq<real>)
    requires SortedBy(a, AtMost) && SortedBy(b, AtMost) && multiset(a) == multiset(b)
    ensures a == b
  {
    SameElements(a, b, 0.0);
    if a != [] {
      var x := a[|a| - 1];
      SameLast(a, b);
      WithoutLast(a, a[..|a| - 1], x);
      WithoutLast(b, b[..|b| - 1], x);
      OrderedOnce(a[..|a| - 1], b[..|b| - 1]);
    }
  }

  lemma SameLast(a: seq<real>, b: seq<real>)
    requires SortedBy(a, AtMost) && SortedBy(b, AtMost) && multiset(a) == multiset(b)
    requires |a| == |b| > 0
    ensures a[|a| - 1] == b[|b| - 1]
  {
    var x, y := a[|a| - 1], b[|b| - 1];
    SameElements(a, b, x);
    SameElements(a, b, y);
    WithinEnds(a, y);
    WithinEnds(b, x);
  }

  lemma WithoutLast(s: seq<real>, front: seq<real>, x: real)
    requires |s| > 0 && front == s[..|s| - 1] && x == s[|s| - 1]
    ensures s == front + [x] && multiset(front) == multiset(s) - multiset{x}
  {
    assert s == front + [x];
  }
}
