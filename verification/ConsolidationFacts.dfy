/**
 What a set of rules rests on and how one index setting is chosen for all of them, in the facts of the
 summaries.
 */
module ConsolidationFacts {
  import opened Wrappers
  import opened PolicyGates
  import opened PolicyFacts
  import opened PolicySynthesis
  import opened PolicyTable

  /** The rule has evidence, and at each of its points everything is in order. */
  ghost predicate RestsOnFacts(env: Env, c: Candidate) {
    && c.kPolicy.Some? && c.hnsw.Some? && c.points != []
    && forall i :: 0 <= i < |c.points| ==>
         InOrder(env, c.kPolicy.value, c.hnsw.value, c.points[i])
  }

  ghost predicate InOrder(env: Env, policy: KPolicy, hnsw: Hnsw, point: Point) {
    exists k: nat, ann, exact :: FactsAt(env, policy, hnsw, point, k, ann, exact)
  }

  ghost predicate AllRestOnFacts(env: Env, rules: seq<Candidate>) {
    forall i :: 0 <= i < |rules| && rules[i].plan == AnnFirst ==> RestsOnFacts(env, rules[i])
  }

  lemma EvidenceIff(env: Env, c: Candidate)
    ensures Evidence(env, c) <==> RestsOnFacts(env, c)
  {
    if c.kPolicy.Some? && c.hnsw.Some? {
      forall i | 0 <= i < |c.points|
        ensures PointK(env, c.kPolicy.value, c.points[i]).Some?
                && PointGates(env, c.kPolicy.value, c.hnsw.value, c.points[i])
                <==> InOrder(env, c.kPolicy.value, c.hnsw.value, c.points[i])
      {
        GatesAtPoint(env, c.kPolicy.value, c.hnsw.value, c.points[i]);
      }
    }
  }

  lemma GatesAtPoint(env: Env, policy: KPolicy, hnsw: Hnsw, point: Point)
    ensures PointK(env, policy, point).Some? && PointGates(env, policy, hnsw, point)
       <==> InOrder(env, policy, hnsw, point)
  {
    forall k: nat, ann, exact
      ensures FactsAt(env, policy, hnsw, point, k, ann, exact)
         <==> && PointK(env, policy, point) == Some(k)
              && PointGates(env, policy, hnsw, point)
              && ann == PointAnn(env, policy, hnsw, point)
              && FastestExact(env, point) == Some(exact)
    {
      GatesIff(env, policy, hnsw, point, k, ann, exact);
    }
    if PointK(env, policy, point).Some? && PointGates(env, policy, hnsw, point) {
      assert FactsAt(env, policy, hnsw, point, PointK(env, policy, point).value,
                     PointAnn(env, policy, hnsw, point), FastestExact(env, point).value);
    }
  }

  lemma AllEvidenceIff(env: Env, candidates: seq<Candidate>)
    ensures AllEvidence(env, candidates) <==> AllRestOnFacts(env, candidates)
  {
    forall i | 0 <= i < |candidates|
      ensures Evidence(env, candidates[i]) <==> RestsOnFacts(env, candidates[i])
    {
      EvidenceIff(env, candidates[i]);
    }
  }

  /** With the setting everything is in order at the point, at a ratio of at most `most`. */
  ghost predicate InOrderWithin(env: Env, policy: KPolicy, hnsw: Hnsw, point: Point, most: real) {
    exists k: nat, ann, exact ::
      FactsAt(env, policy, hnsw, point, k, ann, exact) && ann.p95 <= most * exact.p95
  }

  ghost predicate RatioIs(env: Env, policy: KPolicy, hnsw: Hnsw, point: Point, ratio: real) {
    exists k: nat, ann, exact ::
      FactsAt(env, policy, hnsw, point, k, ann, exact) && ann.p95 == ratio * exact.p95
  }

  lemma RatioInFacts(env: Env, policy: KPolicy, hnsw: Hnsw, point: Point, most: real)
    requires PointK(env, policy, point).Some?
    ensures PointGates(env, policy, hnsw, point) && PointRatio(env, policy, hnsw, point) <= most
       <==> InOrderWithin(env, policy, hnsw, point, most)
    ensures PointGates(env, policy, hnsw, point) && PointRatio(env, policy, hnsw, point) == most
       <==> RatioIs(env, policy, hnsw, point, most)
  {
    forall k: nat, ann, exact
      ensures FactsAt(env, policy, hnsw, point, k, ann, exact)
         <==> && PointK(env, policy, point) == Some(k)
              && PointGates(env, policy, hnsw, point)
              && ann == PointAnn(env, policy, hnsw, point)
              && FastestExact(env, point) == Some(exact)
    {
      GatesIff(env, policy, hnsw, point, k, ann, exact);
    }
    if PointGates(env, policy, hnsw, point) {
      var ann, exact := PointAnn(env, policy, hnsw, point), FastestExact(env, point).value;
      assert FactsAt(env, policy, hnsw, point, PointK(env, policy, point).value, ann, exact);
      RatioTimes(ann.p95, exact.p95, most);
    }
  }

  /** The setting was measured, and suits every approximate rule nearly as well as its own. */
  ghost predicate Suits(env: Env, rules: seq<Candidate>, hnsw: Hnsw) {
    && (exists cell <- env.lookup :: cell.plan == AnnFirst && cell.hnsw == Some(hnsw))
    && forall i :: 0 <= i < |rules| && rules[i].plan == AnnFirst ==>
         rules[i].kPolicy.Some? && SuitsRule(env, rules[i], hnsw)
  }

  ghost predicate SuitsRule(env: Env, c: Candidate, hnsw: Hnsw)
    requires c.kPolicy.Some?
  {
    forall j :: 0 <= j < |c.points| ==>
      InOrderWithin(env, c.kPolicy.value, hnsw, c.points[j],
                    c.worstRatio * env.config.globalLocalMax)
  }

  /** `worst` is the largest ratio at any point of any approximate rule. */
  ghost predicate WorstIs(env: Env, rules: seq<Candidate>, hnsw: Hnsw, worst: real) {
    && (forall i :: 0 <= i < |rules| && rules[i].plan == AnnFirst ==>
          RatiosWithin(env, rules[i], hnsw, worst))
    && (exists i :: 0 <= i < |rules| && rules[i].plan == AnnFirst
                    && RatioReachedIn(env, rules[i], hnsw, worst))
  }

  ghost predicate RatiosWithin(env: Env, c: Candidate, hnsw: Hnsw, worst: real) {
    c.kPolicy.Some? && forall j :: 0 <= j < |c.points| ==>
      InOrderWithin(env, c.kPolicy.value, hnsw, c.points[j], worst)
  }

  ghost predicate RatioReachedIn(env: Env, c: Candidate, hnsw: Hnsw, worst: real) {
    && c.kPolicy.Some?
    && exists j :: 0 <= j < |c.points| && RatioIs(env, c.kPolicy.value, hnsw, c.points[j], worst)
  }

  lemma FitsIff(env: Env, c: Candidate, hnsw: Hnsw)
    requires Evidence(env, c)
    ensures FitsPoints(env, c, hnsw, c.points) <==> SuitsRule(env, c, hnsw)
  {
    var most := c.worstRatio * env.config.globalLocalMax;
    forall j | 0 <= j < |c.points|
      ensures Fits(env, c, hnsw, c.points[j])
         <==> InOrderWithin(env, c.kPolicy.value, hnsw, c.points[j], most)
    {
      RatioInFacts(env, c.kPolicy.value, hnsw, c.points[j], most);
    }
  }

  lemma SuitsIff(env: Env, rules: seq<Candidate>, hnsw: Hnsw)
    requires AllEvidence(env, rules)
    ensures hnsw in Settings(env) && FitsAll(env, AnnsOf(rules), hnsw) <==> Suits(env, rules, hnsw)
  {
    AnnsAreCandidates(rules);
    forall i | 0 <= i < |rules| && rules[i].plan == AnnFirst
      ensures rules[i].kPolicy.Some?
      ensures FitsPoints(env, rules[i], hnsw, rules[i].points) <==> SuitsRule(env, rules[i], hnsw)
    {
      assert Evidence(env, rules[i]);
      FitsIff(env, rules[i], hnsw);
    }
    assert hnsw in Settings(env)
      <==> exists cell <- env.lookup :: cell.plan == AnnFirst && cell.hnsw == Some(hnsw);
    if FitsAll(env, AnnsOf(rules), hnsw) {
      forall i | 0 <= i < |rules| && rules[i].plan == AnnFirst
        ensures FitsPoints(env, rules[i], hnsw, rules[i].points)
      {
        var j := IndexOf(AnnsOf(rules), rules[i]);
      }
    } else {
      var j :| 0 <= j < |AnnsOf(rules)|
               && !FitsPoints(env, AnnsOf(rules)[j], hnsw, AnnsOf(rules)[j].points);
      var i := IndexOf(rules, AnnsOf(rules)[j]);
    }
  }

  lemma IndexOf<T>(xs: seq<T>, x: T) returns (i: nat)
    requires x in xs
    ensures i < |xs| && xs[i] == x
  {
    i :| 0 <= i < |xs| && xs[i] == x;
  }

  lemma {:induction false} WorstOfPoints(env: Env, c: Candidate, hnsw: Hnsw, points: seq<Point>,
                                         start: real)
    requires FitsPoints(env, c, hnsw, points)
    ensures var worst := WorstOverPoints(env, c, hnsw, points, start);
            && start <= worst
            && (forall j :: 0 <= j < |points| ==>
                  PointRatio(env, c.kPolicy.value, hnsw, points[j]) <= worst)
            && (worst == start
                || (exists j :: 0 <= j < |points|
                                && PointRatio(env, c.kPolicy.value, hnsw, points[j]) == worst))
  {
    if points != [] {
      var front := points[..|points| - 1];
      WorstOfPoints(env, c, hnsw, front, start);
      var worst := WorstOverPoints(env, c, hnsw, front, start);
      if j :| 0 <= j < |front| && PointRatio(env, c.kPolicy.value, hnsw, front[j]) == worst {
        assert points[j] == front[j];
      }
      assert forall j :: 0 <= j < |front| ==> points[j] == front[j];
    }
  }

  /** Every ratio of the rule is at most the number. */
  ghost predicate AtMost(env: Env, c: Candidate, hnsw: Hnsw, worst: real)
    requires FitsPoints(env, c, hnsw, c.points)
  {
    forall j :: 0 <= j < |c.points| ==>
      PointRatio(env, c.kPolicy.value, hnsw, c.points[j]) <= worst
  }

  ghost predicate Attains(env: Env, c: Candidate, hnsw: Hnsw, worst: real)
    requires FitsPoints(env, c, hnsw, c.points)
  {
    exists j :: 0 <= j < |c.points| && PointRatio(env, c.kPolicy.value, hnsw, c.points[j]) == worst
  }

  lemma {:induction false} WorstOfAll(env: Env, anns: seq<Candidate>, hnsw: Hnsw)
    requires FitsAll(env, anns, hnsw)
    ensures var worst := WorstOver(env, anns, hnsw);
            && 0.0 <= worst
            && (forall i :: 0 <= i < |anns| ==> AtMost(env, anns[i], hnsw, worst))
            && (worst == 0.0 || exists i :: 0 <= i < |anns| && Attains(env, anns[i], hnsw, worst))
  {
    if anns != [] {
      var front, last := anns[..|anns| - 1], anns[|anns| - 1];
      WorstOfAll(env, front, hnsw);
      var before, worst := WorstOver(env, front, hnsw), WorstOver(env, anns, hnsw);
      assert FitsPoints(env, last, hnsw, last.points);
      WorstOfPoints(env, last, hnsw, last.points, before);
      forall i | 0 <= i < |anns|
        ensures AtMost(env, anns[i], hnsw, worst)
      {
        if i < |front| {
          assert anns[i] == front[i] && AtMost(env, front[i], hnsw, before);
        }
      }
      if worst == before {
        if i :| 0 <= i < |front| && Attains(env, front[i], hnsw, before) {
          assert anns[i] == front[i];
        }
      } else {
        assert Attains(env, anns[|anns| - 1], hnsw, worst);
      }
    }
  }

  lemma RuleRatios(env: Env, c: Candidate, hnsw: Hnsw, worst: real)
    requires Evidence(env, c) && FitsPoints(env, c, hnsw, c.points)
    ensures AtMost(env, c, hnsw, worst) ==> RatiosWithin(env, c, hnsw, worst)
    ensures Attains(env, c, hnsw, worst) ==> RatioReachedIn(env, c, hnsw, worst)
  {
    forall j | 0 <= j < |c.points|
      ensures PointRatio(env, c.kPolicy.value, hnsw, c.points[j]) <= worst
         <==> InOrderWithin(env, c.kPolicy.value, hnsw, c.points[j], worst)
      ensures PointRatio(env, c.kPolicy.value, hnsw, c.points[j]) == worst
         <==> RatioIs(env, c.kPolicy.value, hnsw, c.points[j], worst)
    {
      assert Fits(env, c, hnsw, c.points[j]);
      RatioInFacts(env, c.kPolicy.value, hnsw, c.points[j], worst);
    }
  }

  /** The number by which eligible settings are compared is the worst ratio of any rule. */
  lemma WorstInFacts(env: Env, rules: seq<Candidate>, hnsw: Hnsw)
    requires AllEvidence(env, rules) && AnnsOf(rules) != [] && FitsAll(env, AnnsOf(rules), hnsw)
    ensures WorstIs(env, rules, hnsw, WorstOver(env, AnnsOf(rules), hnsw))
  {
    var anns, worst := AnnsOf(rules), WorstOver(env, AnnsOf(rules), hnsw);
    AnnsAreCandidates(rules);
    WorstOfAll(env, anns, hnsw);
    forall i | 0 <= i < |rules| && rules[i].plan == AnnFirst
      ensures RatiosWithin(env, rules[i], hnsw, worst)
    {
      var j := IndexOf(anns, rules[i]);
      assert Evidence(env, rules[i]) && AtMost(env, anns[j], hnsw, worst);
      RuleRatios(env, rules[i], hnsw, worst);
    }
    var j := WorstAttained(env, anns, hnsw, rules);
    var i := IndexOf(rules, anns[j]);
    assert Evidence(env, rules[i]);
    RuleRatios(env, rules[i], hnsw, worst);
  }

  /** Ratios are positive, so the worst one is not the zero that the loop starts from. */
  lemma WorstAttained(env: Env, anns: seq<Candidate>, hnsw: Hnsw, rules: seq<Candidate>) returns (j: nat)
    requires AllEvidence(env, rules) && anns == AnnsOf(rules) != [] && FitsAll(env, anns, hnsw)
    ensures j < |anns| && Attains(env, anns[j], hnsw, WorstOver(env, anns, hnsw))
  {
    AnnsAreCandidates(rules);
    WorstOfAll(env, anns, hnsw);
    var i := IndexOf(rules, anns[0]);
    assert Evidence(env, rules[i]) && AtMost(env, anns[0], hnsw, WorstOver(env, anns, hnsw));
    RatioPositive(env, anns[0].kPolicy.value, hnsw, anns[0].points[0]);
    j :| 0 <= j < |anns| && Attains(env, anns[j], hnsw, WorstOver(env, anns, hnsw));
  }

  lemma RatioPositive(env: Env, policy: KPolicy, hnsw: Hnsw, point: Point)
    requires PointGates(env, policy, hnsw, point)
    ensures PointRatio(env, policy, hnsw, point) > 0.0
  {
    var ann, exact := PointAnn(env, policy, hnsw, point).p95, FastestExact(env, point).value.p95;
    RatioTimes(ann, exact, 0.0);
  }

  /** Two of the rules are approximate. */
  ghost predicate TwoApproximate(rules: seq<Candidate>) {
    exists i, j :: 0 <= i < j < |rules| && rules[i].plan == AnnFirst && rules[j].plan == AnnFirst
  }

  lemma {:induction false} AnnsCounted(rules: seq<Candidate>)
    ensures |AnnsOf(rules)| >= 1 <==> exists i :: 0 <= i < |rules| && rules[i].plan == AnnFirst
    ensures |AnnsOf(rules)| >= 2 <==> TwoApproximate(rules)
  {
    if rules != [] {
      var front, last := rules[..|rules| - 1], |rules| - 1;
      AnnsCounted(front);
      assert forall i :: 0 <= i < last ==> front[i] == rules[i];
      if |AnnsOf(front)| >= 1 {
        var i :| 0 <= i < |front| && front[i].plan == AnnFirst;
        assert rules[i].plan == AnnFirst && i < last;
      }
      if i, j :| 0 <= i < j < |front| && front[i].plan == AnnFirst && front[j].plan == AnnFirst {
        assert rules[i].plan == AnnFirst && rules[j].plan == AnnFirst;
      }
      if i, j :| 0 <= i < j < |rules| && rules[i].plan == AnnFirst && rules[j].plan == AnnFirst {
        assert front[i].plan == AnnFirst;
        assert j < last ==> front[j].plan == AnnFirst;
      }
    }
  }

  /** Every approximate rule got the setting, and nothing else changed. */
  predicate GivenSetting(rules: seq<Candidate>, r: seq<Candidate>, hnsw: Hnsw) {
    |r| == |rules| && forall i :: 0 <= i < |rules| ==>
      r[i] == if rules[i].plan == AnnFirst then rules[i].(hnsw := Some(hnsw)) else rules[i]
  }

  /** No setting that suits all rules has a smaller worst ratio, or the same and is cheaper. */
  ghost predicate BestSuited(env: Env, rules: seq<Candidate>, best: Hnsw) {
    && Suits(env, rules, best)
    && exists worst :: WorstIs(env, rules, best, worst) && NoneSuitsSooner(env, rules, worst, best)
  }

  ghost predicate NoneSuitsSooner(env: Env, rules: seq<Candidate>, worst: real, best: Hnsw) {
    forall h :: Suits(env, rules, h) ==>
      exists w :: WorstIs(env, rules, h, w) && NoSooner(w, h, worst, best)
  }

  lemma FirstIsBestSuited(env: Env, rules: seq<Candidate>, best: Eligible)
    requires AllEvidence(env, rules) && AnnsOf(rules) != []
    requires IsFirst(Some(best), EligibleOf(env, AnnsOf(rules), Settings(env)))
    ensures BestSuited(env, rules, best.hnsw)
  {
    var eligible := EligibleOf(env, AnnsOf(rules), Settings(env));
    SuitsIff(env, rules, best.hnsw);
    WorstInFacts(env, rules, best.hnsw);
    forall h | Suits(env, rules, h)
      ensures exists w :: WorstIs(env, rules, h, w) && NoSooner(w, h, best.worst, best.hnsw)
    {
      SuitsIff(env, rules, h);
      WorstInFacts(env, rules, h);
      var other := Eligible(WorstOver(env, AnnsOf(rules), h), h);
      assert other in eligible && !Precedes(other, best);
    }
  }

  /** One setting for all approximate rules, or the rules as they were. */
  ghost predicate Consolidated(env: Env, rules: seq<Candidate>, r: seq<Candidate>) {
    if TwoApproximate(rules) && exists h :: Suits(env, rules, h) then
      exists best :: BestSuited(env, rules, best) && GivenSetting(rules, r, best)
    else r == rules
  }

  lemma EligibleIff(env: Env, rules: seq<Candidate>)
    requires AllEvidence(env, rules)
    ensures EligibleOf(env, AnnsOf(rules), Settings(env)) == {} <==> forall h :: !Suits(env, rules, h)
  {
    var eligible := EligibleOf(env, AnnsOf(rules), Settings(env));
    forall h | Suits(env, rules, h)
      ensures eligible != {}
    {
      SuitsIff(env, rules, h);
      assert Eligible(WorstOver(env, AnnsOf(rules), h), h) in eligible;
    }
    if eligible != {} {
      var e :| e in eligible;
      SuitsIff(env, rules, e.hnsw);
    }
  }

  /** Consolidation, in the facts of the summaries. */
  lemma ConsolidatedInFacts(env: Env, rules: seq<Candidate>, r: seq<Candidate>)
    requires AllEvidence(env, rules)
    requires var eligible := EligibleOf(env, AnnsOf(rules), Settings(env));
             if |AnnsOf(rules)| < 2 || eligible == {} then r == rules
             else exists best :: IsFirst(Some(best), eligible) && r == WithHnsw(rules, best.hnsw)
    ensures Consolidated(env, rules, r)
  {
    AnnsCounted(rules);
    EligibleIff(env, rules);
    var eligible := EligibleOf(env, AnnsOf(rules), Settings(env));
    if |AnnsOf(rules)| >= 2 && eligible != {} {
      var best :| IsFirst(Some(best), eligible) && r == WithHnsw(rules, best.hnsw);
      GivenTheFirst(env, rules, r, best);
    }
  }

  lemma GivenTheFirst(env: Env, rules: seq<Candidate>, r: seq<Candidate>, best: Eligible)
    requires AllEvidence(env, rules) && AnnsOf(rules) != [] && TwoApproximate(rules)
    requires IsFirst(Some(best), EligibleOf(env, AnnsOf(rules), Settings(env)))
    requires r == WithHnsw(rules, best.hnsw)
    ensures Consolidated(env, rules, r)
  {
    FirstIsBestSuited(env, rules, best);
    GivesSetting(rules, r, best.hnsw);
    assert Suits(env, rules, best.hnsw);
  }

  lemma GivesSetting(rules: seq<Candidate>, r: seq<Candidate>, hnsw: Hnsw)
    requires r == WithHnsw(rules, hnsw)
    ensures GivenSetting(rules, r, hnsw)
  {
  }
}
