/**
 The Wilson lower bound over the reals and the least retrieval rank that meets a recall gate.
 With a = z*z/n the bound for the proportion p is (p + a/2 - m)/(1 + a), where m is the
 non-negative root of m*m = a*p*(1-p) + a*a/4.
 */
module RecallGate {
  import opened Wrappers
  import opened Sorting

  /** `margin` is z times the square root that the source takes. */
  predicate IsMargin(p: real, a: real, margin: real) {
    margin >= 0.0 && margin * margin == a * p * (1.0 - p) + a * a / 4.0
  }

  /** `wilson_lower_bound`, from its proportion, its a and its margin. */
  function WilsonLower(p: real, a: real, margin: real): real
    requires a >= 0.0
  {
    var raw := (p + a / 2.0 - margin) / (1.0 + a);
    if raw > 0.0 then raw else 0.0
  }

  lemma NonNegativeProduct(x: real, y: real)
    requires x >= 0.0 && y >= 0.0
    ensures x * y >= 0.0
  {
  }

  lemma PositiveProduct(x: real, y: real)
    requires x > 0.0 && y > 0.0
    ensures x * y > 0.0
  {
  }

  lemma SquareOrder(x: real, y: real)
    requires y >= 0.0 && x * x <= y * y
    ensures x <= y
  {
    if x > y {
      SquareGrows(x, y);
    }
  }

  lemma SquareGrows(x: real, y: real)
    requires x > y >= 0.0
    ensures x * x > y * y
  {
    PositiveProduct(x - y, x + y);
    assert (x - y) * (x + y) == x * x - y * y;
  }

  /** The margin covers the distance of the proportion from one half. */
  lemma MarginCoversHalf(p: real, a: real, margin: real)
    requires 0.0 <= p <= 1.0 && a >= 0.0 && IsMargin(p, a, margin)
    ensures a * (0.5 - p) <= margin
  {
    var gap := a * (0.5 - p);
    var spread := p * (1.0 - p);
    NonNegativeProduct(p, 1.0 - p);
    NonNegativeProduct(a, spread);
    NonNegativeProduct(a, a * spread);
    assert a * p * (1.0 - p) == a * spread;
    assert gap * gap == a * a / 4.0 - a * (a * spread);
    SquareOrder(gap, margin);
  }

  /** And it never exceeds the centre, so the clamp at zero is only a guard against rounding. */
  lemma MarginBelowCentre(p: real, a: real, margin: real)
    requires 0.0 <= p <= 1.0 && a >= 0.0 && IsMargin(p, a, margin)
    ensures margin <= p + a / 2.0
  {
    var centre := p + a / 2.0;
    assert centre * centre - margin * margin == p * p * (1.0 + a) by {
      assert centre * centre == p * p + p * a + a * a / 4.0;
      assert a * p * (1.0 - p) == a * p - a * (p * p);
    }
    assert p * p * (1.0 + a) >= 0.0 by {
      NonNegativeProduct(p, p);
      NonNegativeProduct(p * p, 1.0 + a);
    }
    SquareOrder(margin, centre);
  }

  lemma QuotientOrder(x: real, y: real, d: real)
    requires d > 0.0 && x <= y
    ensures x / d <= y / d
  {
    assert y / d - x / d == (y - x) / d;
  }

  /** The bound lies between zero and the proportion. */
  lemma WilsonBetweenZeroAndProportion(p: real, a: real, margin: real)
    requires 0.0 <= p <= 1.0 && a >= 0.0 && IsMargin(p, a, margin)
    ensures 0.0 <= WilsonLower(p, a, margin) <= p
    ensures WilsonLower(p, a, margin) == (p + a / 2.0 - margin) / (1.0 + a)
  {
    MarginCoversHalf(p, a, margin);
    MarginBelowCentre(p, a, margin);
    assert p + a / 2.0 - margin <= p * (1.0 + a) by {
      assert p * (1.0 + a) == p + p * a;
      assert a * (0.5 - p) == a / 2.0 - a * p;
    }
    QuotientOrder(p + a / 2.0 - margin, p * (1.0 + a), 1.0 + a);
    assert p * (1.0 + a) / (1.0 + a) == p;
  }

  /** More successes out of the same trials never lower the bound. */
  lemma WilsonIsMonotone(p: real, q: real, a: real, m: real, n: real)
    requires 0.0 <= p <= q <= 1.0 && a >= 0.0
    requires IsMargin(p, a, m) && IsMargin(q, a, n)
    ensures WilsonLower(p, a, m) <= WilsonLower(q, a, n)
  {
    MarginCoversHalf(p, a, m);
    MarginCoversHalf(q, a, n);
    MarginGrowsSlowly(p, q, a, m, n);
    QuotientOrder(p + a / 2.0 - m, q + a / 2.0 - n, 1.0 + a);
  }

  lemma MarginGrowsSlowly(p: real, q: real, a: real, m: real, n: real)
    requires 0.0 <= p <= q <= 1.0 && a >= 0.0
    requires IsMargin(p, a, m) && IsMargin(q, a, n)
    requires a * (0.5 - p) <= m && a * (0.5 - q) <= n
    ensures n - m <= q - p
  {
    var slope := a * (1.0 - p - q);
    assert slope <= m + n;
    SquaresDiffer(p, q, a, m, n);
    if n - m > q - p {
      ProductsOrder(n - m, q - p, n + m, slope);
    }
  }

  lemma ProductsOrder(x: real, y: real, u: real, v: real)
    requires x > y >= 0.0 && u >= v && u > 0.0
    ensures x * u > y * v
  {
    PositiveProduct(x - y, u);
    NonNegativeProduct(y, u - v);
    assert (x - y) * u == x * u - y * u;
    assert y * (u - v) == y * u - y * v;
  }

  lemma SquaresDiffer(p: real, q: real, a: real, m: real, n: real)
    requires IsMargin(p, a, m) && IsMargin(q, a, n)
    ensures (n - m) * (n + m) == (q - p) * (a * (1.0 - p - q))
  {
    assert (n - m) * (n + m) == n * n - m * m;
    assert a * q * (1.0 - q) == a * (q - q * q) && a * p * (1.0 - p) == a * (p - p * p);
    assert (q - p) * (1.0 - p - q) == (q - q * q) - (p - p * p);
    assert a * ((q - q * q) - (p - p * p)) == a * (q - q * q) - a * (p - p * p);
    assert (q - p) * (a * (1.0 - p - q)) == a * ((q - p) * (1.0 - p - q));
  }

  // ---------------------------------------------------------------------------
  // The least rank that meets the gate
  // ---------------------------------------------------------------------------

  /** One margin per number of successes out of `trials`. */
  ghost predicate MarginsFor(margins: seq<real>, trials: nat, zSquared: real) {
    && trials > 0 && zSquared >= 0.0
    && |margins| == trials + 1
    && forall k :: 0 <= k <= trials ==> IsMargin(Recall(k, trials), zSquared / trials as real, margins[k])
  }

  function Recall(count: nat, trials: nat): real
    requires trials > 0
  {
    count as real / trials as real
  }

  predicate GatePasses(count: nat, trials: nat, zSquared: real, margins: seq<real>, target: real)
    requires trials > 0 && zSquared >= 0.0 && count < |margins|
  {
    && Recall(count, trials) >= target
    && WilsonLower(Recall(count, trials), zSquared / trials as real, margins[count]) >= target
  }

  /** How many exact members the first `k` retrieved candidates contain. */
  function Retrieved(ranks: seq<nat>, k: nat): (count: nat)
    ensures count <= |ranks|
  {
    if ranks == [] then 0
    else
      var last := |ranks| - 1;
      Retrieved(ranks[..last], k) + (if ranks[last] <= k then 1 else 0)
  }

  predicate NoLater(a: nat, b: nat) {
    a <= b
  }

  lemma {:induction false} RetrievedOfBoth(a: seq<nat>, b: seq<nat>, k: nat)
    ensures Retrieved(a + b, k) == Retrieved(a, k) + Retrieved(b, k)
  {
    if b == [] {
      assert a + b == a;
    } else {
      RetrievedOfBoth(a, b[..|b| - 1], k);
      assert (a + b)[..|a + b| - 1] == a + b[..|b| - 1];
    }
  }

  /** Counting does not depend on the order of the ranks. */
  lemma {:induction false} RetrievedInAnyOrder(a: seq<nat>, b: seq<nat>, k: nat)
    requires multiset(a) == multiset(b)
    ensures Retrieved(a, k) == Retrieved(b, k)
  {
    SameElements(a, b, 0);
    if a != [] {
      var front, last := a[..|a| - 1], a[|a| - 1];
      SameElements(a, b, last);
      var j :| 0 <= j < |b| && b[j] == last;
      var before, after := b[..j], b[j + 1..];
      assert a == front + [last];
      assert b == before + ([last] + after);
      assert multiset(a) == multiset(front) + multiset{last};
      assert multiset(b) == multiset(before + after) + multiset{last};
      assert multiset(front) == multiset(a) - multiset{last};
      RetrievedInAnyOrder(front, before + after, k);
      RetrievedOfBoth(before, [last] + after, k);
      RetrievedOfBoth([last], after, k);
      RetrievedOfBoth(before, after, k);
      assert [last][..0] == [];
    }
  }

  lemma {:induction false} RetrievedBounded(ranks: seq<nat>, k: nat)
    ensures Retrieved(ranks, k) <= |ranks|
    ensures SortedBy(ranks, NoLater) ==> forall i :: 0 <= i < |ranks| ==> (i < Retrieved(ranks, k) <==> ranks[i] <= k)
  {
    if ranks != [] {
      var front := ranks[..|ranks| - 1];
      RetrievedBounded(front, k);
      assert SortedBy(ranks, NoLater) ==> SortedBy(front, NoLater);
      assert forall i :: 0 <= i < |front| ==> front[i] == ranks[i];
      if SortedBy(ranks, NoLater) && ranks[|ranks| - 1] <= k {
        AllRetrieved(front, k);
      }
    }
  }

  lemma {:induction false} AllRetrieved(ranks: seq<nat>, k: nat)
    ensures (forall i :: 0 <= i < |ranks| ==> ranks[i] <= k) ==> Retrieved(ranks, k) == |ranks|
  {
    if ranks != [] {
      AllRetrieved(ranks[..|ranks| - 1], k);
    }
  }

  lemma RecallOrder(j: nat, k: nat, trials: nat)
    requires trials > 0 && j <= k <= trials
    ensures 0.0 <= Recall(j, trials) <= Recall(k, trials) <= 1.0
  {
    QuotientOrder(0.0, j as real, trials as real);
    QuotientOrder(j as real, k as real, trials as real);
    QuotientOrder(k as real, trials as real, trials as real);
  }

  /** The bound is nondecreasing in the number of successes out of fixed trials. */
  lemma BoundIsMonotone(j: nat, k: nat, trials: nat, zSquared: real, margins: seq<real>)
    requires MarginsFor(margins, trials, zSquared) && j <= k <= trials
    ensures zSquared / trials as real >= 0.0
    ensures (WilsonLower(Recall(j, trials), zSquared / trials as real, margins[j])
             <= WilsonLower(Recall(k, trials), zSquared / trials as real, margins[k]))
  {
    RecallOrder(j, k, trials);
    QuotientOrder(0.0, zSquared, trials as real);
    WilsonIsMonotone(Recall(j, trials), Recall(k, trials), zSquared / trials as real, margins[j],
                     margins[k]);
  }

  lemma GateIsMonotone(j: nat, k: nat, trials: nat, zSquared: real, margins: seq<real>, target: real)
    requires MarginsFor(margins, trials, zSquared) && j <= k <= trials
    requires GatePasses(j, trials, zSquared, margins, target)
    ensures GatePasses(k, trials, zSquared, margins, target)
  {
    RecallOrder(j, k, trials);
    BoundIsMonotone(j, k, trials, zSquared, margins);
  }

  /** The exact members among the first `k` retrieved candidates, by position. */
  function Within(members: seq<nat>, k: nat): set<nat> {
    set i: nat | i < |members| && members[i] <= k
  }

  lemma {:induction false} RetrievedCounts(members: seq<nat>, k: nat)
    ensures Retrieved(members, k) == |Within(members, k)| <= |members|
  {
    if members == [] {
      assert Within(members, k) == {};
    } else {
      var last := |members| - 1;
      RetrievedCounts(members[..last], k);
      assert Within(members, k)
          == Within(members[..last], k) + (if members[last] <= k then {last} else {});
    }
  }

  /** `c` of `n` members are the target's share. */
  predicate ShareMet(c: real, n: real, target: real) {
    c >= target * n
  }

  /** And so is the Wilson bound, here without its clamp and multiplied by `n`. */
  predicate BoundMet(c: real, n: real, zSquared: real, margin: real, target: real) {
    c + zSquared / 2.0 - margin * n >= target * (n + zSquared)
  }

  /** The first `k` retrieved candidates hold some exact members, and their number meets both. */
  ghost predicate Meets(members: seq<nat>, k: nat, zSquared: real, margins: seq<real>, target: real)
    requires members != [] && |members| < |margins|
  {
    var c, n := |Within(members, k)|, |members| as real;
    && 0 < c <= |members|
    && ShareMet(c as real, n, target)
    && BoundMet(c as real, n, zSquared, margins[c], target)
  }

  lemma QuotientAtLeast(x: real, d: real, y: real)
    requires d > 0.0
    ensures x / d >= y <==> x >= y * d
  {
    var q := x / d;
    assert x == q * d;
    if q >= y {
      NonNegativeProduct(q - y, d);
    } else {
      PositiveProduct(y - q, d);
    }
  }

  /** The bound without its clamp and its quotient. */
  lemma BoundAtLeast(p: real, a: real, margin: real, target: real)
    requires 0.0 <= p <= 1.0 && a >= 0.0 && IsMargin(p, a, margin)
    ensures WilsonLower(p, a, margin) >= target <==> p + a / 2.0 - margin >= target * (1.0 + a)
  {
    WilsonBetweenZeroAndProportion(p, a, margin);
    QuotientAtLeast(p + a / 2.0 - margin, 1.0 + a, target);
  }

  lemma TimesTrials(p: real, a: real, margin: real, target: real, c: real, n: real, z: real)
    requires n > 0.0 && p * n == c && a * n == z
    ensures p + a / 2.0 - margin >= target * (1.0 + a)
       <==> c + z / 2.0 - margin * n >= target * (n + z)
    ensures p >= target <==> c >= target * n
  {
    var gap := p + a / 2.0 - margin - target * (1.0 + a);
    assert gap * n == c + z / 2.0 - margin * n - target * (n + z) by {
      assert (target * (1.0 + a)) * n == target * (n + a * n);
      assert (p + a / 2.0 - margin) * n == p * n + a * n / 2.0 - margin * n;
    }
    SignKept(gap, n);
    SignKept(p - target, n);
  }

  lemma SignKept(x: real, n: real)
    requires n > 0.0
    ensures x >= 0.0 <==> x * n >= 0.0
  {
    if x >= 0.0 {
      NonNegativeProduct(x, n);
    } else {
      PositiveProduct(-x, n);
    }
  }

  /** The proportion, the a and the margin at `c` successes, as the gate reads them. */
  lemma GateReads(c: nat, n: nat, zSquared: real, margins: seq<real>, target: real)
    returns (p: real, a: real)
    requires MarginsFor(margins, n, zSquared) && c <= n
    ensures 0.0 <= p <= 1.0 && a >= 0.0 && IsMargin(p, a, margins[c])
    ensures p * n as real == c as real && a * n as real == zSquared
    ensures GatePasses(c, n, zSquared, margins, target)
       <==> p >= target && WilsonLower(p, a, margins[c]) >= target
  {
    p, a := Recall(c, n), zSquared / n as real;
    RecallOrder(c, n, n);
    QuotientOrder(0.0, zSquared, n as real);
    Multiplied(c as real, n as real);
    Multiplied(zSquared, n as real);
  }

  /** The gate at `c` successes, multiplied by the trials; its first test follows from its second. */
  lemma GateAtCount(c: nat, n: nat, zSquared: real, margins: seq<real>, target: real)
    requires MarginsFor(margins, n, zSquared) && c <= n
    ensures GatePasses(c, n, zSquared, margins, target)
       <==> BoundMet(c as real, n as real, zSquared, margins[c], target)
    ensures BoundMet(c as real, n as real, zSquared, margins[c], target) ==>
              ShareMet(c as real, n as real, target)
  {
    var p, a := GateReads(c, n, zSquared, margins, target);
    NumbersOfGate(p, a, margins[c], target, c as real, n as real, zSquared);
  }

  lemma Multiplied(x: real, n: real)
    requires n > 0.0
    ensures x / n * n == x
  {
  }

  lemma NumbersOfGate(p: real, a: real, margin: real, target: real, c: real, n: real, z: real)
    requires 0.0 <= p <= 1.0 && a >= 0.0 && IsMargin(p, a, margin)
    requires n > 0.0 && p * n == c && a * n == z
    ensures p >= target && WilsonLower(p, a, margin) >= target <==> BoundMet(c, n, z, margin, target)
    ensures BoundMet(c, n, z, margin, target) ==> ShareMet(c, n, target)
  {
    BoundAtLeast(p, a, margin, target);
    WilsonBetweenZeroAndProportion(p, a, margin);
    TimesTrials(p, a, margin, target, c, n, z);
  }

  lemma GateMeansMeets(members: seq<nat>, k: nat, zSquared: real, margins: seq<real>, target: real)
    requires members != [] && MarginsFor(margins, |members|, zSquared)
    ensures var c := Retrieved(members, k);
            c > 0 && GatePasses(c, |members|, zSquared, margins, target)
            <==> Meets(members, k, zSquared, margins, target)
  {
    RetrievedCounts(members, k);
    GateAtCount(Retrieved(members, k), |members|, zSquared, margins, target);
  }

  /**
   `_minimum_rank_for_recall_gate`: the returned rank is an exact threshold on how many candidates
   to retrieve, and None means that no number suffices.
   */
  method MinimumRankForRecallGate(members: seq<nat>, zSquared: real, margins: seq<real>,
                                  target: real) returns (r: Option<nat>)
    requires members != [] ==> MarginsFor(margins, |members|, zSquared)
    ensures members == [] ==> r.None?
    ensures members != [] ==> forall k: nat ::
              r.Some? && k >= r.value <==> Meets(members, k, zSquared, margins, target)
  {
    if members == [] {
      return None;
    }
    var ranks: seq<nat> := Sort(members, NoLater);
    SameElements(ranks, members, 0);
    var trials := |ranks|;
    for i := 0 to trials
      invariant forall c :: 1 <= c <= i ==> !GatePasses(c, trials, zSquared, margins, target)
    {
      if GatePasses(i + 1, trials, zSquared, margins, target) {
        forall k: nat
          ensures k >= ranks[i] <==> Meets(members, k, zSquared, margins, target)
        {
          Threshold(members, ranks, i, k, zSquared, margins, target);
        }
        return Some(ranks[i]);
      }
    }
    forall k: nat
      ensures !Meets(members, k, zSquared, margins, target)
    {
      GateMeansMeets(members, k, zSquared, margins, target);
    }
    r := None;
  }

  lemma Threshold(members: seq<nat>, ranks: seq<nat>, i: nat, k: nat, zSquared: real,
                  margins: seq<real>, target: real)
    requires SortedBy(ranks, NoLater) && multiset(ranks) == multiset(members)
    requires i < |ranks| == |members| && MarginsFor(margins, |ranks|, zSquared)
    requires GatePasses(i + 1, |ranks|, zSquared, margins, target)
    requires forall c :: 1 <= c <= i ==> !GatePasses(c, |ranks|, zSquared, margins, target)
    ensures k >= ranks[i] <==> Meets(members, k, zSquared, margins, target)
  {
    GateMeansMeets(members, k, zSquared, margins, target);
    RetrievedBounded(ranks, k);
    RetrievedInAnyOrder(members, ranks, k);
    if k >= ranks[i] {
      GateIsMonotone(i + 1, Retrieved(members, k), |ranks|, zSquared, margins, target);
    }
  }

  /** The bound decides: for a positive target the two other tests never turn anything away. */
  lemma BoundAloneDecides(members: seq<nat>, k: nat, zSquared: real, margins: seq<real>,
                          target: real)
    requires members != [] && MarginsFor(margins, |members|, zSquared) && target > 0.0
    ensures |Within(members, k)| <= |members|
    ensures var c, n := |Within(members, k)|, |members| as real;
            Meets(members, k, zSquared, margins, target)
            <==> BoundMet(c as real, n, zSquared, margins[c], target)
  {
    RetrievedCounts(members, k);
    var c, n := |Within(members, k)|, |members|;
    GateAtCount(c, n, zSquared, margins, target);
    if c == 0 && GatePasses(c, n, zSquared, margins, target) {
      PositiveProduct(target, n as real);
    }
  }

  // ---------------------------------------------------------------------------
  // The bound as a score test
  // ---------------------------------------------------------------------------

  /** By how much the squared deviation from `q` exceeds the variance that `q` allows. */
  function Excess(p: real, a: real, q: real): real {
    (p - q) * (p - q) - a * q * (1.0 - q)
  }

  lemma FactorsFromEnds(d: real, centre: real, margin: real, low: real, high: real, q: real, e: real)
    requires d > 0.0 && low * d == centre - margin && high * d == centre + margin
    requires (q * d - centre) * (q * d - centre) - margin * margin == d * e
    ensures e == d * ((q - low) * (q - high))
  {
    var x, y := q * d - centre + margin, q * d - centre - margin;
    assert (q - low) * d == x && (q - high) * d == y;
    assert x * y == d * e;
    assert x * y == d * (d * ((q - low) * (q - high))) by {
      Regroup(q - low, q - high, d);
    }
    SameFactor(d, e, d * ((q - low) * (q - high)));
  }

  lemma Regroup(x: real, y: real, d: real)
    ensures (x * d) * (y * d) == d * (d * (x * y))
  {
  }

  lemma SameFactor(d: real, x: real, y: real)
    requires d > 0.0 && d * x == d * y
    ensures x == y
  {
    if x < y {
      PositiveProduct(d, y - x);
    } else if y < x {
      PositiveProduct(d, x - y);
    }
  }

  lemma ExcessScaled(p: real, a: real, margin: real, q: real, d: real, centre: real)
    requires a >= 0.0 && IsMargin(p, a, margin) && d == 1.0 + a && centre == p + a / 2.0
    ensures (q * d - centre) * (q * d - centre) - margin * margin == d * Excess(p, a, q)
  {
    var t := q * d;
    assert Excess(p, a, q) == d * (q * q) - 2.0 * centre * q + p * p by {
      assert a * q * (1.0 - q) == a * q - a * (q * q);
      assert (p - q) * (p - q) == p * p - 2.0 * p * q + q * q;
      assert d * (q * q) == q * q + a * (q * q);
    }
    assert t * t == d * (d * (q * q));
    assert centre * centre - margin * margin == p * p * d by {
      assert centre * centre == p * p + p * a + a * a / 4.0;
      assert a * p * (1.0 - p) == a * p - a * (p * p);
    }
    assert d * (2.0 * centre * q) == 2.0 * centre * t;
    assert d * (p * p) == p * p * d;
  }

  /**
   The Wilson bound is the least proportion that the score test does not reject: a proportion up to
   the observed one reaches the bound exactly when its squared deviation is within its variance.
   */
  lemma BoundIsScoreTest(p: real, a: real, margin: real, q: real)
    requires 0.0 <= q <= p <= 1.0 && a >= 0.0 && IsMargin(p, a, margin)
    ensures q >= WilsonLower(p, a, margin) <==> Excess(p, a, q) <= 0.0
  {
    var low, high, d, centre := Ends(p, a, margin);
    ExcessScaled(p, a, margin, q, d, centre);
    ScoreAtEnds(d, centre, margin, low, high, q, Excess(p, a, q));
  }

  lemma ScoreAtEnds(d: real, centre: real, margin: real, low: real, high: real, q: real, e: real)
    requires d > 0.0 && q <= high && low <= high
    requires low * d == centre - margin && high * d == centre + margin
    requires (q * d - centre) * (q * d - centre) - margin * margin == d * e
    ensures q >= low <==> e <= 0.0
  {
    FactorsFromEnds(d, centre, margin, low, high, q, e);
    SignBetween(d, low, high, q);
  }

  /** The two ends of the interval, of which the bound is the lower. */
  lemma Ends(p: real, a: real, margin: real)
    returns (low: real, high: real, d: real, centre: real)
    requires 0.0 <= p <= 1.0 && a >= 0.0 && IsMargin(p, a, margin)
    ensures d == 1.0 + a && centre == p + a / 2.0
    ensures low == WilsonLower(p, a, margin) && low <= p <= high
    ensures low * d == centre - margin && high * d == centre + margin
  {
    WilsonBetweenZeroAndProportion(p, a, margin);
    MarginReachesUp(p, a, margin);
    QuotientAtLeast(p + a / 2.0 + margin, 1.0 + a, p);
    d, centre := 1.0 + a, p + a / 2.0;
    low, high := (centre - margin) / d, (centre + margin) / d;
  }

  /** Below the high end the product is positive exactly below the low end. */
  lemma SignBetween(d: real, low: real, high: real, q: real)
    requires d > 0.0 && q <= high && low <= high
    ensures q >= low <==> d * ((q - low) * (q - high)) <= 0.0
  {
    if q >= low {
      NonNegativeProduct(q - low, high - q);
      NonNegativeProduct(d, (q - low) * (high - q));
      assert (q - low) * (q - high) == -((q - low) * (high - q));
    } else {
      var x, y := low - q, high - q;
      PositiveProduct(x, y);
      PositiveProduct(d, x * y);
      assert (q - low) * (q - high) == x * y;
    }
  }

  /** Seen from the other end: the margin reaches up to the proportion. */
  lemma MarginReachesUp(p: real, a: real, margin: real)
    requires 0.0 <= p <= 1.0 && a >= 0.0 && IsMargin(p, a, margin)
    ensures p * (1.0 + a) <= p + a / 2.0 + margin
  {
    assert IsMargin(1.0 - p, a, margin);
    MarginCoversHalf(1.0 - p, a, margin);
    assert a * (0.5 - (1.0 - p)) == a * p - a / 2.0;
    assert p * (1.0 + a) == p + a * p;
  }
}
