/**
 Consolidation does not ask again what the local search asked of a rule's tail: that it is no longer
 than that of the runtime in place. Exactly when the rules keep that, and where they lose it.
 */
module ConsolidationTail {
  import opened Wrappers
  import opened PolicyGates
  import opened PolicyFacts
  import opened PolicySynthesis
  import opened PolicyTable
  import opened PolicyTiling
  import opened ConsolidationFacts
  import opened CellFacts
  import opened PolicySelection

  /** With the setting the rule's tail is no longer than the runtime's at any of its points. */
  ghost predicate TailKept(env: Env, c: Candidate, hnsw: Hnsw) {
    c.kPolicy.Some? && AllFacts(env, c.kPolicy.value, hnsw, c.points)
  }

  ghost predicate AllTailsKept(env: Env, rules: seq<Candidate>) {
    forall i :: 0 <= i < |rules| && rules[i].plan == AnnFirst ==>
      rules[i].hnsw.Some? && TailKept(env, rules[i], rules[i].hnsw.value)
  }

  /** The setting keeps every approximate rule's tail. */
  ghost predicate KeepsTails(env: Env, rules: seq<Candidate>, hnsw: Hnsw) {
    forall i :: 0 <= i < |rules| && rules[i].plan == AnnFirst ==> TailKept(env, rules[i], hnsw)
  }

  /**
   Rules whose tails the local search accepted keep them through consolidation exactly when nothing is
   consolidated or the setting that is chosen for all of them keeps every tail.
   */
  lemma ConsolidationKeepsTailsIff(env: Env, rules: seq<Candidate>, r: seq<Candidate>)
    requires AllTailsKept(env, rules) && Consolidated(env, rules, r)
    ensures AllTailsKept(env, r)
       <==> || r == rules
            || exists best :: BestSuited(env, rules, best) && KeepsTails(env, rules, best)
  {
    if r != rules {
      var best :| BestSuited(env, rules, best) && GivenSetting(rules, r, best);
      GivenTails(env, rules, r, best);
      forall other | BestSuited(env, rules, other)
        ensures other == best
      {
        BestIsUnique(env, rules, best, other);
      }
    }
  }

  lemma GivenTails(env: Env, rules: seq<Candidate>, r: seq<Candidate>, best: Hnsw)
    requires GivenSetting(rules, r, best)
    ensures AllTailsKept(env, r) <==> KeepsTails(env, rules, best)
  {
    forall i | 0 <= i < |rules| && rules[i].plan == AnnFirst
      ensures r[i].plan == AnnFirst && r[i].hnsw == Some(best)
      ensures TailKept(env, r[i], best) <==> TailKept(env, rules[i], best)
    {
    }
  }

  /** The facts at a point are of one count and of one pair of summaries. */
  lemma FactsOnce(env: Env, policy: KPolicy, hnsw: Hnsw, point: Point, k: nat, ann: Summary,
                  exact: Summary, k': nat, ann': Summary, exact': Summary)
    requires FactsAt(env, policy, hnsw, point, k, ann, exact)
    requires FactsAt(env, policy, hnsw, point, k', ann', exact')
    ensures k == k' && ann == ann' && exact == exact'
  {
    GatesIff(env, policy, hnsw, point, k, ann, exact);
    GatesIff(env, policy, hnsw, point, k', ann', exact');
  }

  lemma RatioAtMost(env: Env, policy: KPolicy, hnsw: Hnsw, point: Point, most: real, ratio: real)
    requires InOrderWithin(env, policy, hnsw, point, most) && RatioIs(env, policy, hnsw, point, ratio)
    ensures ratio <= most
  {
    var k: nat, ann, exact :|
      FactsAt(env, policy, hnsw, point, k, ann, exact) && ann.p95 <= most * exact.p95;
    var k': nat, ann', exact' :|
      FactsAt(env, policy, hnsw, point, k', ann', exact') && ann'.p95 == ratio * exact'.p95;
    FactsOnce(env, policy, hnsw, point, k, ann, exact, k', ann', exact');
    RatiosCompare(ann.p95, exact.p95, ratio, most);
  }

  lemma RatiosCompare(x: Millis, y: Millis, ratio: real, most: real)
    requires x == ratio * y && x <= most * y
    ensures ratio <= most
  {
    RatioTimes(x, y, most);
    RatioTimes(x, y, ratio);
  }

  lemma WorstOnce(env: Env, rules: seq<Candidate>, hnsw: Hnsw, v: real, w: real)
    requires WorstIs(env, rules, hnsw, v) && WorstIs(env, rules, hnsw, w)
    ensures v == w
  {
    WorstAtMost(env, rules, hnsw, v, w);
    WorstAtMost(env, rules, hnsw, w, v);
  }

  lemma WorstAtMost(env: Env, rules: seq<Candidate>, hnsw: Hnsw, v: real, w: real)
    requires WorstIs(env, rules, hnsw, v) && WorstIs(env, rules, hnsw, w)
    ensures v <= w
  {
    var i :| 0 <= i < |rules| && rules[i].plan == AnnFirst && RatioReachedIn(env, rules[i], hnsw, v);
    var c := rules[i];
    var j :| 0 <= j < |c.points| && RatioIs(env, c.kPolicy.value, hnsw, c.points[j], v);
    assert RatiosWithin(env, c, hnsw, w);
    RatioAtMost(env, c.kPolicy.value, hnsw, c.points[j], w, v);
  }

  /** One setting is chosen: two that come first for each other are the same. */
  lemma BestIsUnique(env: Env, rules: seq<Candidate>, a: Hnsw, b: Hnsw)
    requires BestSuited(env, rules, a) && BestSuited(env, rules, b)
    ensures a == b
  {
    var v :| WorstIs(env, rules, a, v) && NoneSuitsSooner(env, rules, v, a);
    var w :| WorstIs(env, rules, b, w) && NoneSuitsSooner(env, rules, w, b);
    var w' :| WorstIs(env, rules, b, w') && NoSooner(w', b, v, a);
    var v' :| WorstIs(env, rules, a, v') && NoSooner(v', a, w, b);
    WorstOnce(env, rules, b, w, w');
    WorstOnce(env, rules, a, v, v');
  }

  // ---------------------------------------------------------------------------
  // Where the rules lose it
  // ---------------------------------------------------------------------------

  const LOW := Band(0.0, 0.05)
  const HIGH := Band(0.05, 1.0000001)
  const ANY := Band(0.0, 1.0000001)
  const CORPUS: Users := 100_000
  const SIZES: seq<Users> := [CORPUS]

  const P1 := Point(1, 0, CORPUS, LOW, ANY)
  const P2 := Point(2, 0, CORPUS, HIGH, ANY)
  const POINTS := [P1, P2]

  const A := Hnsw(40, 0, 20_000)
  const B := Hnsw(80, 0, 20_000)

  const CONFIG := Config(0.95, 1, 0.70, 1.0, 1.25, 0.85, 1.10, 1, 1, false, None, {}, [LOW, HIGH], [ANY])

  function Measured(p95: Millis, p99: Millis): Summary {
    Summary(1000, 0.5, 1, p95, p99, 100, 100, 100, 1.0, 1.0, 0.96, true, false, false, Some(100))
  }

  function Exactly(scenario: nat, plan: SearchPlan): Cell {
    Cell(scenario, CORPUS, 0, plan, None, None)
  }

  function Approximate(scenario: nat, hnsw: Hnsw): Cell {
    Cell(scenario, CORPUS, 0, AnnFirst, Some(5_000), Some(hnsw))
  }

  /** `A` is much the fastest at the first point and has too long a tail at the second. */
  const LOOKUP: map<Cell, Summary> := map[
    Exactly(1, ExactAll) := Measured(100.0, 150.0), Exactly(1, CurrentRuntime) := Measured(100.0, 150.0),
    Exactly(2, ExactAll) := Measured(100.0, 150.0), Exactly(2, CurrentRuntime) := Measured(100.0, 100.0),
    Approximate(1, A) := Measured(30.0, 90.0), Approximate(1, B) := Measured(60.0, 90.0),
    Approximate(2, A) := Measured(40.0, 120.0), Approximate(2, B) := Measured(40.0, 90.0)]

  const ENV := Env(LOOKUP, map[], 0, CONFIG, (a, b) => 0.5)
  const LEAST := KPolicy(5_000, 1.0, 0.05)

  lemma OnlyCount(policy: KPolicy, hnsw: Hnsw, point: Point, k: nat, ann: Summary, exact: Summary)
    requires point in POINTS && FactsAt(ENV, policy, hnsw, point, k, ann, exact)
    ensures hnsw in {A, B} && k == 5_000
    ensures ann == LOOKUP[Approximate(point.scenario, hnsw)] && exact == Measured(100.0, 150.0)
  {
  }

  /** Every policy of the smallest minimum means the same count at these points. */
  predicate Cheap(policy: KPolicy) {
    && policy.minCandidates == 5_000
    && policy.safety in {1.0, 1.25, 1.5, 2.0, 2.5, 3.0}
    && policy.fraction in {0.05, 0.10, 0.15, 0.25}
  }

  lemma CountIsLeast(policy: KPolicy)
    requires Cheap(policy)
    ensures IsCount(5_000, policy, CORPUS, 1000, 0.5) && WithinFraction(5_000, policy, CORPUS)
  {
  }

  lemma FactsHold(policy: KPolicy, hnsw: Hnsw, point: Point)
    requires Cheap(policy) && hnsw in {A, B} && point in POINTS
    ensures FactsAt(ENV, policy, hnsw, point, 5_000, LOOKUP[Approximate(point.scenario, hnsw)],
                    Measured(100.0, 150.0))
  {
    CountIsLeast(policy);
  }

  lemma Tails()
    ensures TailHolds(ENV, P1, LOOKUP[Approximate(1, A)]) && TailHolds(ENV, P1, LOOKUP[Approximate(1, B)])
    ensures !TailHolds(ENV, P2, LOOKUP[Approximate(2, A)])
    ensures TailHolds(ENV, P2, LOOKUP[Approximate(2, B)])
  {
  }

  /** The points of a cell are copies of the one point it has. */
  ghost predicate Only(points: seq<Point>, p: Point) {
    points != [] && forall i :: 0 <= i < |points| ==> points[i] == p
  }

  lemma FactsIff(policy: KPolicy, hnsw: Hnsw, point: Point, points: seq<Point>)
    requires Cheap(policy) && hnsw in {A, B} && point in POINTS && Only(points, point)
    ensures AllFacts(ENV, policy, hnsw, points)
       <==> TailHolds(ENV, point, LOOKUP[Approximate(point.scenario, hnsw)])
  {
    FactsHold(policy, hnsw, point);
    var ann := LOOKUP[Approximate(point.scenario, hnsw)];
    if AllFacts(ENV, policy, hnsw, points) {
      assert PointFacts(ENV, policy, hnsw, points[0]);
      var k: nat, other, exact :|
        FactsAt(ENV, policy, hnsw, point, k, other, exact) && TailHolds(ENV, point, other);
      OnlyCount(policy, hnsw, point, k, other, exact);
    }
  }

  function WorstOf(point: Point, hnsw: Hnsw): real {
    if point == P2 then 0.4 else if hnsw == A then 0.3 else 0.6
  }

  /** The worst ratio at copies of one point is the ratio there. */
  lemma WorstAt(policy: KPolicy, hnsw: Hnsw, point: Point, points: seq<Point>, s: Scores)
    requires point in POINTS && Only(points, point) && Extremes(ENV, policy, hnsw, points, s)
    ensures hnsw in {A, B} && s.worst == WorstOf(point, hnsw)
  {
    var i :| 0 <= i < |points| && RatioReached(ENV, policy, hnsw, points[i], s);
    var k: nat, ann, exact :|
      FactsAt(ENV, policy, hnsw, point, k, ann, exact) && ann.p95 == s.worst * exact.p95;
    OnlyCount(policy, hnsw, point, k, ann, exact);
  }

  lemma Measurements(hnsw: Hnsw)
    ensures (exists cell <- ENV.lookup :: cell.plan == AnnFirst && cell.hnsw == Some(hnsw))
       <==> hnsw in {A, B}
  {
    assert Approximate(1, A) in LOOKUP && Approximate(1, B) in LOOKUP;
  }

  lemma LeastIsGrid(hnsw: Hnsw)
    requires hnsw in {A, B}
    ensures GridChoice(ENV, LEAST, hnsw) && Cheap(LEAST)
  {
    Measurements(hnsw);
  }

  /** A rule's policy is the one that asks for least, wherever that one is in order. */
  lemma AsksLeast(box: Box, points: seq<Point>, point: Point, c: Candidate, hnsw: Hnsw)
    requires FirstChoice(ENV, box, points, Some(c)) && hnsw in {A, B}
    requires point in POINTS && Only(points, point)
    requires TailHolds(ENV, point, LOOKUP[Approximate(point.scenario, hnsw)])
    ensures c.kPolicy == Some(LEAST) && c.hnsw.Some? && c.hnsw.value in {A, B}
    ensures NoneSooner(ENV, points, c, LEAST, hnsw)
  {
    LeastIsGrid(hnsw);
    FactsIff(LEAST, hnsw, point, points);
    assert NoneSooner(ENV, points, c, LEAST, hnsw);
    assert GridChoice(ENV, c.kPolicy.value, c.hnsw.value);
    Measurements(c.hnsw.value);
  }

  lemma OwnWorst(box: Box, points: seq<Point>, point: Point, c: Candidate)
    requires FirstChoice(ENV, box, points, Some(c)) && c.kPolicy == Some(LEAST)
    requires point in POINTS && Only(points, point)
    ensures c.hnsw.Some? && c.worstRatio == WorstOf(point, c.hnsw.value)
  {
    WorstAt(LEAST, c.hnsw.value, point, points, Scores(c.worstRatio, c.recall, c.recallLower));
  }

  lemma FirstRule(box: Box, points: seq<Point>, c: Candidate)
    requires FirstChoice(ENV, box, points, Some(c)) && Only(points, P1)
    ensures c.kPolicy == Some(LEAST) && c.hnsw == Some(A) && c.worstRatio == 0.3
  {
    Tails();
    AsksLeast(box, points, P1, c, A);
    WorstIsLeast(points, c);
    OwnWorst(box, points, P1, c);
  }

  lemma WorstIsLeast(points: seq<Point>, c: Candidate)
    requires c.kPolicy == Some(LEAST) && c.hnsw.Some? && Only(points, P1)
    requires NoneSooner(ENV, points, c, LEAST, A)
    ensures c.worstRatio <= 0.3
  {
    var t :| Extremes(ENV, LEAST, A, points, t) && NoSooner(t.worst, A, c.worstRatio, c.hnsw.value);
    WorstAt(LEAST, A, P1, points, t);
  }

  lemma SecondRule(box: Box, points: seq<Point>, c: Candidate)
    requires FirstChoice(ENV, box, points, Some(c)) && Only(points, P2)
    ensures c.kPolicy == Some(LEAST) && c.hnsw == Some(B) && c.worstRatio == 0.4
  {
    Tails();
    AsksLeast(box, points, P2, c, B);
    OwnWorst(box, points, P2, c);
    FactsIff(LEAST, A, P2, points);
  }

  lemma CellHasRule(hardBand: Band, point: Point, hnsw: Hnsw, d: Decision) returns (points: seq<Point>)
    requires (hardBand == LOW && point == P1) || (hardBand == HIGH && point == P2)
    requires hnsw in {A, B} && TailHolds(ENV, point, LOOKUP[Approximate(point.scenario, hnsw)])
    requires Decides(ENV, POINTS, SIZES, 0, hardBand, ANY, d)
    ensures Only(points, point) && d.Rule?
    ensures FirstChoice(ENV, Reach(SIZES, 0, hardBand, ANY), points, Some(d.candidate))
  {
    assert POINTS[0] == P1 && POINTS[1] == P2;
    assert forall p :: p in POINTS ==> (Observes(p, CORPUS, hardBand, ANY) <==> p == point);
    assert point in POINTS && Observes(point, SIZES[0], hardBand, ANY);
    points :| IsBoundary(POINTS, SIZES, 0, hardBand, ANY, points)
              && ByEvidence(ENV, Reach(SIZES, 0, hardBand, ANY), points, d);
    assert point in points;
    assert forall i :: 0 <= i < |points| ==> points[i] in points;
    LeastIsGrid(hnsw);
    FactsIff(LEAST, hnsw, point, points);
    assert GridChoice(ENV, LEAST, hnsw) && AllFacts(ENV, LEAST, hnsw, points);
  }

  lemma LastBand(env: Env, points: seq<Point>, sizes: seq<Users>, ds: seq<Decided>, front: seq<Band>,
                 band: Band)
    requires sizes != [] && HardDecided(env, points, sizes, ds, 0, front + [band])
    requires |env.config.expectedBands| == 1
    ensures |ds| > 0 && HardDecided(env, points, sizes, ds[..|ds| - 1], 0, front)
    ensures ds[|ds| - 1].size == 0 && ds[|ds| - 1].hardBand == band
    ensures ds[|ds| - 1].expectedBand == env.config.expectedBands[0]
  {
    var bands := front + [band];
    assert bands[..|bands| - 1] == front && bands[|bands| - 1] == band;
    assert ds[|ds| - 1..][0] == ds[|ds| - 1];
  }

  lemma OneSize(env: Env, points: seq<Point>, sizes: seq<Users>, ds: seq<Decided>)
    requires |sizes| == 1 && SizesDecided(env, points, sizes, ds, 1)
    ensures HardDecided(env, points, sizes, ds, 0, env.config.hardBands)
  {
    var m :| 0 <= m <= |ds| && LastSizeAt(env, points, sizes, ds, 1, m);
    assert ds[..m] == [];
    assert ds[m..] == ds;
  }

  lemma NoBands(env: Env, points: seq<Point>, sizes: seq<Users>, ds: seq<Decided>)
    requires sizes != [] && HardDecided(env, points, sizes, ds, 0, [])
    ensures ds == []
  {
  }

  /** One size, two hard bands and one expected band make two cells. */
  lemma TwoDecided(env: Env, points: seq<Point>, sizes: seq<Users>, ds: seq<Decided>, low: Band,
                   high: Band)
    requires sizes != [] && |env.config.expectedBands| == 1
    requires HardDecided(env, points, sizes, ds, 0, ([] + [low]) + [high])
    ensures |ds| == 2 && ds[0].size == 0 && ds[1].size == 0
    ensures ds[0].hardBand == low && ds[1].hardBand == high
    ensures ds[0].expectedBand == env.config.expectedBands[0] == ds[1].expectedBand
  {
    LastBand(env, points, sizes, ds, [] + [low], high);
    var front := ds[..|ds| - 1];
    LastBand(env, points, sizes, front, [], low);
    NoBands(env, points, sizes, front[..|front| - 1]);
  }

  lemma TwoCells(ds: seq<Decided>)
    requires SizesDecided(ENV, POINTS, SIZES, ds, 1)
    ensures |ds| == 2
    ensures Decides(ENV, POINTS, SIZES, 0, LOW, ANY, ds[0].decision)
    ensures Decides(ENV, POINTS, SIZES, 0, HIGH, ANY, ds[1].decision)
  {
    OneSize(ENV, POINTS, SIZES, ds);
    assert [LOW, HIGH] == ([] + [LOW]) + [HIGH];
    TwoDecided(ENV, POINTS, SIZES, ds, LOW, HIGH);
    EachIsDecided(ENV, POINTS, SIZES, ds);
  }

  lemma TwoRules(ds: seq<Decided>) returns (c: Candidate, d: Candidate)
    requires SizesDecided(ENV, POINTS, SIZES, ds, 1)
    ensures RulesIn(ds) == [c, d] && c.plan == AnnFirst && d.plan == AnnFirst
    ensures c.kPolicy == Some(LEAST) && c.hnsw == Some(A) && c.worstRatio == 0.3 && Only(c.points, P1)
    ensures d.kPolicy == Some(LEAST) && d.hnsw == Some(B) && d.worstRatio == 0.4 && Only(d.points, P2)
  {
    TwoCells(ds);
    Tails();
    var first := CellHasRule(LOW, P1, A, ds[0].decision);
    var second := CellHasRule(HIGH, P2, B, ds[1].decision);
    c, d := ds[0].decision.candidate, ds[1].decision.candidate;
    FirstRule(Reach(SIZES, 0, LOW, ANY), first, c);
    SecondRule(Reach(SIZES, 0, HIGH, ANY), second, d);
    RulesOfTwo(ds);
  }

  lemma RulesOfTwo(ds: seq<Decided>)
    requires |ds| == 2 && ds[0].decision.Rule? && ds[1].decision.Rule?
    ensures RulesIn(ds) == [ds[0].decision.candidate, ds[1].decision.candidate]
  {
    var one := ds[..1];
    assert ds[..|ds| - 1] == one && one[..0] == [] && RulesIn([]) == [];
    assert RulesIn(one) == [ds[0].decision.candidate];
  }

  lemma SuitsAt(env: Env, c: Candidate, h: Hnsw, p: Point, most: real)
    requires c.kPolicy.Some? && Only(c.points, p) && most == c.worstRatio * env.config.globalLocalMax
    ensures SuitsRule(env, c, h) <==> InOrderWithin(env, c.kPolicy.value, h, p, most)
  {
    assert c.points[0] == p;
  }

  lemma SuitsBoth(env: Env, c: Candidate, d: Candidate, h: Hnsw)
    requires c.plan == AnnFirst && c.kPolicy.Some? && d.plan == AnnFirst && d.kPolicy.Some?
    ensures Suits(env, [c, d], h)
       <==> && (exists cell <- env.lookup :: cell.plan == AnnFirst && cell.hnsw == Some(h))
            && SuitsRule(env, c, h) && SuitsRule(env, d, h)
  {
    var rules := [c, d];
    assert rules[0] == c && rules[1] == d;
  }

  /** Only `A` stays near both rules' own ratios. */
  lemma SuitsIffA(c: Candidate, d: Candidate, h: Hnsw)
    requires c.plan == AnnFirst && c.kPolicy == Some(LEAST) && c.worstRatio == 0.3 && Only(c.points, P1)
    requires d.plan == AnnFirst && d.kPolicy == Some(LEAST) && d.worstRatio == 0.4 && Only(d.points, P2)
    ensures Suits(ENV, [c, d], h) <==> h == A
  {
    Measurements(h);
    SuitsBoth(ENV, c, d, h);
    if h in {A, B} {
      SuitsAt(ENV, c, h, P1, 0.3 * 1.10);
      SuitsAt(ENV, d, h, P2, 0.4 * 1.10);
      NearIff(P1, h, 0.3);
      NearIff(P2, h, 0.4);
    }
  }

  lemma NearIff(point: Point, h: Hnsw, worst: real)
    requires point in POINTS && h in {A, B}
    ensures InOrderWithin(ENV, LEAST, h, point, worst * 1.10)
       <==> LOOKUP[Approximate(point.scenario, h)].p95 <= worst * 1.10 * 100.0
  {
    LeastIsGrid(h);
    FactsHold(LEAST, h, point);
    if InOrderWithin(ENV, LEAST, h, point, worst * 1.10) {
      var k: nat, ann, exact :|
        FactsAt(ENV, LEAST, h, point, k, ann, exact) && ann.p95 <= worst * 1.10 * exact.p95;
      OnlyCount(LEAST, h, point, k, ann, exact);
    }
  }

  /**
   Whatever synthesis makes of this evidence, both rules are decided with tails no longer than the
   runtime's, and consolidation gives the second one a setting with a longer tail.
   */
  lemma ConsolidationLosesTail(ds: seq<Decided>, r: seq<Candidate>)
    requires SizesDecided(ENV, POINTS, SIZES, ds, |SIZES|) && Consolidated(ENV, RulesIn(ds), r)
    ensures AllTailsKept(ENV, RulesIn(ds)) && !AllTailsKept(ENV, r)
  {
    var c, d := TwoRules(ds);
    LeastIsGrid(A);
    Tails();
    FactsIff(LEAST, A, P1, c.points);
    FactsIff(LEAST, B, P2, d.points);
    FactsIff(LEAST, A, P2, d.points);
    ChosenIsA(c, d, r);
    TwoTails(ENV, c, d);
    LostTail(ENV, r, d, A);
  }

  lemma TwoTails(env: Env, c: Candidate, d: Candidate)
    requires c.hnsw.Some? && TailKept(env, c, c.hnsw.value)
    requires d.hnsw.Some? && TailKept(env, d, d.hnsw.value)
    ensures AllTailsKept(env, [c, d])
  {
  }

  lemma LostTail(env: Env, r: seq<Candidate>, d: Candidate, h: Hnsw)
    requires |r| == 2 && r[1] == d.(hnsw := Some(h)) && d.plan == AnnFirst && !TailKept(env, d, h)
    ensures !AllTailsKept(env, r)
  {
    assert TailKept(env, r[1], h) == TailKept(env, d, h);
  }

  lemma ChosenIsA(c: Candidate, d: Candidate, r: seq<Candidate>)
    requires c.plan == AnnFirst && c.kPolicy == Some(LEAST) && c.worstRatio == 0.3 && Only(c.points, P1)
    requires d.plan == AnnFirst && d.kPolicy == Some(LEAST) && d.worstRatio == 0.4 && Only(d.points, P2)
    requires Consolidated(ENV, [c, d], r)
    ensures |r| == 2 && r[1] == d.(hnsw := Some(A))
  {
    var rules := [c, d];
    forall h ensures Suits(ENV, rules, h) <==> h == A {
      SuitsIffA(c, d, h);
    }
    assert rules[0].plan == AnnFirst && rules[1].plan == AnnFirst;
    assert TwoApproximate(rules);
    assert Suits(ENV, rules, A);
    var best :| BestSuited(ENV, rules, best) && GivenSetting(rules, r, best);
    assert Suits(ENV, rules, best);
  }
}
