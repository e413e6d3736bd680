/** The rule table: one decision per cell, and one index configuration for every rule. */
module PolicyTable {
  import opened Wrappers
  import opened PolicyGates
  import opened PolicyFacts
  import opened PolicySynthesis

  // ---------------------------------------------------------------------------
  // One global index configuration
  // ---------------------------------------------------------------------------

  function AnnsOf(candidates: seq<Candidate>): seq<Candidate> {
    if candidates == [] then []
    else
      var front, last := candidates[..|candidates| - 1], candidates[|candidates| - 1];
      AnnsOf(front) + (if last.plan == AnnFirst then [last] else [])
  }

  /** The evidence an emitted approximate rule rests on. */
  ghost predicate Evidence(env: Env, c: Candidate) {
    && c.kPolicy.Some? && c.hnsw.Some? && c.points != []
    && forall i :: 0 <= i < |c.points| ==>
         && PointK(env, c.kPolicy.value, c.points[i]).Some?
         && PointGates(env, c.kPolicy.value, c.hnsw.value, c.points[i])
  }

  ghost predicate AllEvidence(env: Env, candidates: seq<Candidate>) {
    forall i :: 0 <= i < |candidates| && candidates[i].plan == AnnFirst ==>
      Evidence(env, candidates[i])
  }

  /** The configuration passes the gates and stays close to the rule's own worst ratio. */
  predicate Fits(env: Env, c: Candidate, hnsw: Hnsw, point: Point)
    requires c.kPolicy.Some?
  {
    && PointGates(env, c.kPolicy.value, hnsw, point)
    && PointRatio(env, c.kPolicy.value, hnsw, point) <= c.worstRatio * env.config.globalLocalMax
  }

  ghost predicate FitsPoints(env: Env, c: Candidate, hnsw: Hnsw, points: seq<Point>) {
    c.kPolicy.Some? && forall i :: 0 <= i < |points| ==> Fits(env, c, hnsw, points[i])
  }

  ghost predicate FitsAll(env: Env, anns: seq<Candidate>, hnsw: Hnsw) {
    forall i :: 0 <= i < |anns| ==> FitsPoints(env, anns[i], hnsw, anns[i].points)
  }

  ghost function WorstOverPoints(env: Env, c: Candidate, hnsw: Hnsw, points: seq<Point>,
                                 start: real): real
    requires FitsPoints(env, c, hnsw, points)
  {
    if points == [] then start
    else
      var front, last := points[..|points| - 1], points[|points| - 1];
      var before, here := WorstOverPoints(env, c, hnsw, front, start),
                          PointRatio(env, c.kPolicy.value, hnsw, last);
      if here > before then here else before
  }

  ghost function WorstOver(env: Env, anns: seq<Candidate>, hnsw: Hnsw): real
    requires FitsAll(env, anns, hnsw)
  {
    if anns == [] then 0.0
    else
      var front, last := anns[..|anns| - 1], anns[|anns| - 1];
      WorstOverPoints(env, last, hnsw, last.points, WorstOver(env, front, hnsw))
  }

  method FitPoints(env: Env, c: Candidate, hnsw: Hnsw, start: real) returns (r: Option<real>)
    requires c.kPolicy.Some?
    ensures r.Some? <==> FitsPoints(env, c, hnsw, c.points)
    ensures r.Some? ==> r.value == WorstOverPoints(env, c, hnsw, c.points, start)
  {
    var worst := start;
    for i := 0 to |c.points|
      invariant FitsPoints(env, c, hnsw, c.points[..i])
      invariant worst == WorstOverPoints(env, c, hnsw, c.points[..i], start)
    {
      if !Fits(env, c, hnsw, c.points[i]) {
        return None;
      }
      assert c.points[..i + 1][..i] == c.points[..i];
      var ratio := PointRatio(env, c.kPolicy.value, hnsw, c.points[i]);
      if ratio > worst {
        worst := ratio;
      }
    }
    assert c.points[..|c.points|] == c.points;
    r := Some(worst);
  }

  method FitEverywhere(env: Env, anns: seq<Candidate>, hnsw: Hnsw) returns (r: Option<real>)
    requires forall i :: 0 <= i < |anns| ==> anns[i].kPolicy.Some?
    ensures r.Some? <==> FitsAll(env, anns, hnsw)
    ensures r.Some? ==> r.value == WorstOver(env, anns, hnsw)
  {
    var worst := 0.0;
    for i := 0 to |anns|
      invariant FitsAll(env, anns[..i], hnsw)
      invariant worst == WorstOver(env, anns[..i], hnsw)
    {
      var fit := FitPoints(env, anns[i], hnsw, worst);
      if fit.None? {
        return None;
      }
      assert anns[..i + 1][..i] == anns[..i];
      worst := fit.value;
    }
    assert anns[..|anns|] == anns;
    r := Some(worst);
  }

  datatype Eligible = Eligible(worst: real, hnsw: Hnsw)

  /** (worst ratio, ef_search, max_scan_tuples, iterative_scan). */
  predicate Precedes(a: Eligible, b: Eligible) {
    if a.worst != b.worst then a.worst < b.worst
    else if a.hnsw.efSearch != b.hnsw.efSearch then a.hnsw.efSearch < b.hnsw.efSearch
    else if a.hnsw.maxTuples != b.hnsw.maxTuples then a.hnsw.maxTuples < b.hnsw.maxTuples
    else a.hnsw.scan < b.hnsw.scan
  }

  ghost function EligibleOf(env: Env, anns: seq<Candidate>, settings: set<Hnsw>): set<Eligible> {
    set h | h in settings && FitsAll(env, anns, h) :: Eligible(WorstOver(env, anns, h), h)
  }

  ghost predicate IsFirst(best: Option<Eligible>, seen: set<Eligible>) {
    && (best.None? <==> seen == {})
    && (best.Some? ==> best.value in seen && forall d <- seen :: !Precedes(d, best.value))
  }

  function WithHnsw(candidates: seq<Candidate>, hnsw: Hnsw): seq<Candidate> {
    seq(|candidates|, i requires 0 <= i < |candidates| =>
      if candidates[i].plan == AnnFirst then candidates[i].(hnsw := Some(hnsw)) else candidates[i])
  }

  /** `_consolidate_global_hnsw`. */
  method ConsolidateGlobalHnsw(env: Env, candidates: seq<Candidate>) returns (r: seq<Candidate>)
    requires AllEvidence(env, candidates)
    ensures var eligible := EligibleOf(env, AnnsOf(candidates), Settings(env));
            if |AnnsOf(candidates)| < 2 || eligible == {} then r == candidates
            else exists best :: IsFirst(Some(best), eligible) && r == WithHnsw(candidates, best.hnsw)
  {
    var anns := AnnsOf(candidates);
    if |anns| < 2 {
      return candidates;
    }
    AnnsHavePolicies(env, candidates);
    var best: Option<Eligible> := None;
    var left := Settings(env);
    ghost var seen: set<Hnsw> := {};
    assert EligibleOf(env, anns, seen) == {};
    while left != {}
      invariant seen + left == Settings(env)
      invariant IsFirst(best, EligibleOf(env, anns, seen))
      decreases left
    {
      var hnsw :| hnsw in left;
      var fit := FitEverywhere(env, anns, hnsw);
      EligibleGrows(env, anns, seen, hnsw);
      if fit.Some? {
        var e := Eligible(fit.value, hnsw);
        FirstGrows(best, EligibleOf(env, anns, seen), e);
        if best.None? || Precedes(e, best.value) {
          best := Some(e);
        }
      }
      seen, left := seen + {hnsw}, left - {hnsw};
    }
    assert seen == Settings(env);
    r := if best.None? then candidates else WithHnsw(candidates, best.value.hnsw);
  }

  lemma EligibleGrows(env: Env, anns: seq<Candidate>, seen: set<Hnsw>, hnsw: Hnsw)
    ensures EligibleOf(env, anns, seen + {hnsw})
         == EligibleOf(env, anns, seen)
            + (if FitsAll(env, anns, hnsw) then {Eligible(WorstOver(env, anns, hnsw), hnsw)} else {})
  {
  }

  lemma FirstGrows(best: Option<Eligible>, seen: set<Eligible>, e: Eligible)
    requires IsFirst(best, seen)
    ensures IsFirst(if best.None? || Precedes(e, best.value) then Some(e) else best, seen + {e})
  {
    assert !Precedes(e, e);
  }

  lemma {:induction false} AnnsAreCandidates(candidates: seq<Candidate>)
    ensures forall c :: c in AnnsOf(candidates) <==> c in candidates && c.plan == AnnFirst
  {
    if candidates != [] {
      var front, last := candidates[..|candidates| - 1], candidates[|candidates| - 1];
      AnnsAreCandidates(front);
      assert candidates == front + [last];
    }
  }

  lemma AnnsHavePolicies(env: Env, candidates: seq<Candidate>)
    requires AllEvidence(env, candidates)
    ensures forall i :: 0 <= i < |AnnsOf(candidates)| ==> AnnsOf(candidates)[i].kPolicy.Some?
  {
    AnnsAreCandidates(candidates);
    forall i | 0 <= i < |AnnsOf(candidates)|
      ensures AnnsOf(candidates)[i].kPolicy.Some?
    {
      assert AnnsOf(candidates)[i] in AnnsOf(candidates);
      var j :| 0 <= j < |candidates| && candidates[j] == AnnsOf(candidates)[i];
      assert Evidence(env, candidates[j]);
    }
  }

  /**
   After consolidation every approximate rule still passes, at each of its evidence points and
   with the K its own policy proposes there, the primary gate and every supporting gate.
   */
  lemma ConsolidationKeepsEvidence(env: Env, candidates: seq<Candidate>, hnsw: Hnsw)
    requires AllEvidence(env, candidates) && FitsAll(env, AnnsOf(candidates), hnsw)
    ensures AllEvidence(env, WithHnsw(candidates, hnsw))
  {
    AnnsAreCandidates(candidates);
    var r := WithHnsw(candidates, hnsw);
    forall i | 0 <= i < |r| && r[i].plan == AnnFirst
      ensures Evidence(env, r[i])
    {
      assert Evidence(env, candidates[i]) && candidates[i] in AnnsOf(candidates);
      var j :| 0 <= j < |AnnsOf(candidates)| && AnnsOf(candidates)[j] == candidates[i];
      assert FitsPoints(env, candidates[i], hnsw, candidates[i].points);
      forall k | 0 <= k < |r[i].points|
        ensures PointGates(env, r[i].kPolicy.value, hnsw, r[i].points[k])
      {
        assert Fits(env, candidates[i], hnsw, candidates[i].points[k]);
      }
    }
  }

  // ---------------------------------------------------------------------------
  // One decision per cell
  // ---------------------------------------------------------------------------

  datatype Decision = Rule(candidate: Candidate) | Fall(fallback: Fallback)

  function Bucket(points: seq<Point>, corpus: Users, hardBand: Band, expectedBand: Band): seq<Point> {
    if points == [] then []
    else
      var front, last := points[..|points| - 1], points[|points| - 1];
      Bucket(front, corpus, hardBand, expectedBand)
      + (if last.corpus == corpus && last.hardBand == hardBand && last.expectedBand == expectedBand
         then [last] else [])
  }

  predicate Covers(points: seq<Point>, required: set<nat>) {
    required <= set p | p in points :: p.candidateType
  }

  predicate FilterPasses(env: Env, point: Point) {
    var exact := Find(env.lookup, ExactCell(env, point, ExactAll));
    var filtered := Find(env.lookup, ExactCell(env, point, FilterFirstExact));
    exact.Some? && filtered.Some? && FilterFirstPasses(env, filtered.value, exact.value)
  }

  lemma SafeEverywhereIff(env: Env, points: seq<Point>)
    ensures forall i :: 0 <= i < |points| ==>
              (FilterPasses(env, points[i]) <==> FilteringIsSafeAt(env, points[i]))
  {
    forall i | 0 <= i < |points|
      ensures FilterPasses(env, points[i]) <==> FilteringIsSafeAt(env, points[i])
    {
      assert FilterPasses(env, points[i]) <==> FilteringIsSafeAt(env, points[i]);
    }
  }

  /** `_exact_plan_for_points`. */
  method ExactPlanForPoints(env: Env, points: seq<Point>) returns (plan: SearchPlan)
    ensures plan == if forall i :: 0 <= i < |points| ==> FilterPasses(env, points[i])
                    then FilterFirstExact else ExactAll
    ensures plan == if forall i :: 0 <= i < |points| ==> FilteringIsSafeAt(env, points[i])
                    then FilterFirstExact else ExactAll
  {
    SafeEverywhereIff(env, points);
    for i := 0 to |points|
      invariant forall j :: 0 <= j < i ==> FilterPasses(env, points[j])
    {
      if !FilterPasses(env, points[i]) {
        return ExactAll;
      }
    }
    plan := FilterFirstExact;
  }

  function CellBox(sizes: seq<Users>, i: nat, hardBand: Band, expectedBand: Band): Box
    requires i < |sizes|
  {
    Box(if i == 0 then sizes[0] else sizes[i - 1] + 1, sizes[i], hardBand, expectedBand)
  }

  function BoundaryPoints(points: seq<Point>, sizes: seq<Users>, i: nat, hardBand: Band,
                          expectedBand: Band): seq<Point>
    requires i < |sizes|
  {
    Bucket(points, sizes[i], hardBand, expectedBand)
    + (if i == 0 then [] else Bucket(points, sizes[i - 1], hardBand, expectedBand))
  }

  function FallFor(box: Box, reason: Reason): Decision {
    Fall(Fallback(box.minUsers, box.maxUsers, box.hardBand, box.expectedBand, reason))
  }

  function FilterRule(box: Box, points: seq<Point>): Decision {
    Rule(Candidate(box.minUsers, box.maxUsers, box.hardBand, box.expectedBand, FilterFirstExact,
                   None, None, points, 0.0, 1.0, 1.0))
  }

  /** What the loop body must have decided for a cell. */
  ghost predicate DecidedWell(env: Env, points: seq<Point>, sizes: seq<Users>, i: nat,
                              hardBand: Band, expectedBand: Band, d: Decision)
    requires i < |sizes|
  {
    var box := CellBox(sizes, i, hardBand, expectedBand);
    var current := Bucket(points, sizes[i], hardBand, expectedBand);
    var required := env.config.requiredTypes;
    if current == [] then d == FallFor(box, Unobserved)
    else if !Covers(current, required) then d == FallFor(box, CoverageMissing)
    else if i > 0 && !Covers(Bucket(points, sizes[i - 1], hardBand, expectedBand), required) then
      d == FallFor(box, BoundaryUnvalidated)
    else
      var boundary := BoundaryPoints(points, sizes, i, hardBand, expectedBand);
      var passing := Passing(env, box, boundary, Choices(env, MINIMUM_GRID));
      if passing != {} then d.Rule? && IsLeast(Some(d.candidate), passing)
      else if forall j :: 0 <= j < |boundary| ==> FilterPasses(env, boundary[j]) then
        d == FilterRule(box, boundary)
      else d == FallFor(box, ExactIsSafest)
  }

  method DecideCell(env: Env, points: seq<Point>, sizes: seq<Users>, i: nat, hardBand: Band,
                    expectedBand: Band) returns (d: Decision)
    requires i < |sizes|
    ensures DecidedWell(env, points, sizes, i, hardBand, expectedBand, d)
  {
    var box := CellBox(sizes, i, hardBand, expectedBand);
    var current := Bucket(points, sizes[i], hardBand, expectedBand);
    if current == [] {
      return FallFor(box, Unobserved);
    }
    if !Covers(current, env.config.requiredTypes) {
      return FallFor(box, CoverageMissing);
    }
    var boundary := current;
    if i > 0 {
      var previous := Bucket(points, sizes[i - 1], hardBand, expectedBand);
      if !Covers(previous, env.config.requiredTypes) {
        return FallFor(box, BoundaryUnvalidated);
      }
      boundary := boundary + previous;
    }
    assert boundary == BoundaryPoints(points, sizes, i, hardBand, expectedBand);
    var best := BestAnnCandidate(env, box, boundary);
    if best.Some? {
      return Rule(best.value);
    }
    var plan := ExactPlanForPoints(env, boundary);
    d := if plan == FilterFirstExact then FilterRule(box, boundary) else FallFor(box, ExactIsSafest);
  }

  function BoxOf(d: Decision): Box {
    match d
    case Rule(c) => Box(c.minUsers, c.maxUsers, c.hardBand, c.expectedBand)
    case Fall(f) => Box(f.minUsers, f.maxUsers, f.hardBand, f.expectedBand)
  }

  /** A decision keeps its cell's box, and an approximate rule has its evidence. */
  lemma DecisionFacts(env: Env, points: seq<Point>, sizes: seq<Users>, i: nat, hardBand: Band,
                      expectedBand: Band, d: Decision)
    requires i < |sizes| && DecidedWell(env, points, sizes, i, hardBand, expectedBand, d)
    ensures BoxOf(d) == CellBox(sizes, i, hardBand, expectedBand)
    ensures d.Rule? && d.candidate.plan == AnnFirst ==> Evidence(env, d.candidate)
    ensures d.Rule? ==> d.candidate.plan == AnnFirst || d.candidate.plan == FilterFirstExact
  {
  }
}
