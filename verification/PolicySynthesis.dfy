/** Builds the rule table cell by cell, then settles on one index configuration for all rules. */
module PolicySynthesis {
  import opened Wrappers
  import opened PolicyGates
  import opened PolicyFacts

  /** One rule candidate: a box of inputs and the plan for it, with its evidence. */
  datatype Candidate = Candidate(minUsers: nat, maxUsers: nat, hardBand: Band, expectedBand: Band,
                                 plan: SearchPlan, kPolicy: Option<KPolicy>, hnsw: Option<Hnsw>,
                                 points: seq<Point>, worstRatio: real, recall: real,
                                 recallLower: real)

  datatype Reason = Unobserved | CoverageMissing | BoundaryUnvalidated | ExactIsSafest

  /** A fallback record: the same kind of box, answered by the exact plan. */
  datatype Fallback = Fallback(minUsers: nat, maxUsers: nat, hardBand: Band, expectedBand: Band,
                               reason: Reason)

  const FRACTION_GRID: seq<real> := [0.05, 0.10, 0.15, 0.25]

  // ---------------------------------------------------------------------------
  // The best approximate candidate of one cell
  // ---------------------------------------------------------------------------

  ghost predicate AllPass(env: Env, policy: KPolicy, hnsw: Hnsw, points: seq<Point>) {
    forall i :: 0 <= i < |points| ==> PointPasses(env, policy, hnsw, points[i])
  }

  ghost predicate AllGates(env: Env, policy: KPolicy, hnsw: Hnsw, points: seq<Point>) {
    forall i :: 0 <= i < |points| ==> PointGates(env, policy, hnsw, points[i])
  }

  datatype Scores = Scores(worst: real, recall: real, lower: real)

  function PointScores(env: Env, policy: KPolicy, hnsw: Hnsw, point: Point): Scores
    requires PointGates(env, policy, hnsw, point)
  {
    var ann := PointAnn(env, policy, hnsw, point);
    Scores(PointRatio(env, policy, hnsw, point), ann.recall, ann.recallLower)
  }

  /** max of the ratios, min of the recalls, min of the lower bounds. */
  function Merge(a: Scores, b: Scores): Scores {
    Scores(if b.worst > a.worst then b.worst else a.worst,
           if b.recall < a.recall then b.recall else a.recall,
           if b.lower < a.lower then b.lower else a.lower)
  }

  ghost function ScoresOf(env: Env, policy: KPolicy, hnsw: Hnsw, points: seq<Point>): Scores
    requires points != [] && AllGates(env, policy, hnsw, points)
  {
    var front, last := points[..|points| - 1], points[|points| - 1];
    var here := PointScores(env, policy, hnsw, last);
    if front == [] then here else Merge(ScoresOf(env, policy, hnsw, front), here)
  }

  /** The scores bound every evidence point, and each is reached at some point. */
  lemma {:induction false} ScoresAreExtremes(env: Env, policy: KPolicy, hnsw: Hnsw,
                                             points: seq<Point>)
    requires points != [] && AllGates(env, policy, hnsw, points)
    ensures var s := ScoresOf(env, policy, hnsw, points);
            && (forall i :: 0 <= i < |points| ==>
                  var here := PointScores(env, policy, hnsw, points[i]);
                  here.worst <= s.worst && s.recall <= here.recall && s.lower <= here.lower)
            && (exists i :: 0 <= i < |points|
                  && PointScores(env, policy, hnsw, points[i]).worst == s.worst)
            && (exists i :: 0 <= i < |points|
                  && PointScores(env, policy, hnsw, points[i]).recall == s.recall)
            && (exists i :: 0 <= i < |points|
                  && PointScores(env, policy, hnsw, points[i]).lower == s.lower)
  {
    var front, last := points[..|points| - 1], points[|points| - 1];
    assert points == front + [last];
    if front != [] {
      ScoresAreExtremes(env, policy, hnsw, front);
      assert forall i :: 0 <= i < |front| ==> points[i] == front[i];
    }
    assert points[|points| - 1] == last;
  }

  // ---------------------------------------------------------------------------
  // The same in the facts of the summaries
  // ---------------------------------------------------------------------------

  /** Everything is in order at the point, the tail of the runtime in place included. */
  ghost predicate PointFacts(env: Env, policy: KPolicy, hnsw: Hnsw, point: Point) {
    exists k: nat, ann, exact ::
      FactsAt(env, policy, hnsw, point, k, ann, exact) && TailHolds(env, point, ann)
  }

  ghost predicate AllFacts(env: Env, policy: KPolicy, hnsw: Hnsw, points: seq<Point>) {
    forall i :: 0 <= i < |points| ==> PointFacts(env, policy, hnsw, points[i])
  }

  lemma AllPassIff(env: Env, policy: KPolicy, hnsw: Hnsw, points: seq<Point>)
    ensures AllPass(env, policy, hnsw, points) <==> AllFacts(env, policy, hnsw, points)
  {
    forall i | 0 <= i < |points|
      ensures PointPasses(env, policy, hnsw, points[i]) <==> PointFacts(env, policy, hnsw, points[i])
    {
      PointPassesIff(env, policy, hnsw, points[i]);
    }
  }

  /** The scores are no better than what was measured at the point. */
  ghost predicate NoBetter(env: Env, policy: KPolicy, hnsw: Hnsw, point: Point, s: Scores) {
    exists k: nat, ann, exact :: FactsAt(env, policy, hnsw, point, k, ann, exact)
      && ann.p95 <= s.worst * exact.p95 && s.recall <= ann.recall && s.lower <= ann.recallLower
  }

  ghost predicate RatioReached(env: Env, policy: KPolicy, hnsw: Hnsw, point: Point, s: Scores) {
    exists k: nat, ann, exact ::
      FactsAt(env, policy, hnsw, point, k, ann, exact) && ann.p95 == s.worst * exact.p95
  }

  ghost predicate RecallReached(env: Env, policy: KPolicy, hnsw: Hnsw, point: Point, s: Scores) {
    exists k: nat, ann, exact ::
      FactsAt(env, policy, hnsw, point, k, ann, exact) && ann.recall == s.recall
  }

  ghost predicate LowerReached(env: Env, policy: KPolicy, hnsw: Hnsw, point: Point, s: Scores) {
    exists k: nat, ann, exact ::
      FactsAt(env, policy, hnsw, point, k, ann, exact) && ann.recallLower == s.lower
  }

  /** The worst ratio, the least recall and the least bound of what was measured at the points. */
  ghost predicate Extremes(env: Env, policy: KPolicy, hnsw: Hnsw, points: seq<Point>, s: Scores) {
    && (forall i :: 0 <= i < |points| ==> NoBetter(env, policy, hnsw, points[i], s))
    && (exists i :: 0 <= i < |points| && RatioReached(env, policy, hnsw, points[i], s))
    && (exists i :: 0 <= i < |points| && RecallReached(env, policy, hnsw, points[i], s))
    && (exists i :: 0 <= i < |points| && LowerReached(env, policy, hnsw, points[i], s))
  }

  lemma RatioTimes(ann: Millis, exact: Millis, worst: real)
    ensures ann / exact <= worst <==> ann <= worst * exact
    ensures ann / exact == worst <==> ann == worst * exact
  {
    var r := ann / exact;
    assert ann == r * exact;
    if r < worst {
      assert (worst - r) * exact > 0.0;
    } else if r > worst {
      assert (r - worst) * exact > 0.0;
    }
  }

  lemma PointInFacts(env: Env, policy: KPolicy, hnsw: Hnsw, point: Point, s: Scores)
    requires PointPasses(env, policy, hnsw, point)
    ensures var here := PointScores(env, policy, hnsw, point);
            && (here.worst <= s.worst && s.recall <= here.recall && s.lower <= here.lower ==>
                  NoBetter(env, policy, hnsw, point, s))
            && (here.worst == s.worst ==> RatioReached(env, policy, hnsw, point, s))
            && (here.recall == s.recall ==> RecallReached(env, policy, hnsw, point, s))
            && (here.lower == s.lower ==> LowerReached(env, policy, hnsw, point, s))
  {
    var k, ann, exact := PointK(env, policy, point).value, PointAnn(env, policy, hnsw, point),
                         FastestExact(env, point).value;
    GatesIff(env, policy, hnsw, point, k, ann, exact);
    RatioTimes(ann.p95, exact.p95, s.worst);
  }

  lemma ScoresInFacts(env: Env, policy: KPolicy, hnsw: Hnsw, points: seq<Point>)
    requires points != [] && AllPass(env, policy, hnsw, points)
    ensures Extremes(env, policy, hnsw, points, ScoresOf(env, policy, hnsw, points))
  {
    var s := ScoresOf(env, policy, hnsw, points);
    ScoresAreExtremes(env, policy, hnsw, points);
    forall i | 0 <= i < |points|
      ensures var here := PointScores(env, policy, hnsw, points[i]);
              && (here.worst <= s.worst && s.recall <= here.recall && s.lower <= here.lower ==>
                    NoBetter(env, policy, hnsw, points[i], s))
              && (here.worst == s.worst ==> RatioReached(env, policy, hnsw, points[i], s))
              && (here.recall == s.recall ==> RecallReached(env, policy, hnsw, points[i], s))
              && (here.lower == s.lower ==> LowerReached(env, policy, hnsw, points[i], s))
    {
      PointInFacts(env, policy, hnsw, points[i], s);
    }
  }

  /** The box of a cell. */
  datatype Box = Box(minUsers: nat, maxUsers: nat, hardBand: Band, expectedBand: Band)

  function CandidateFor(box: Box, policy: KPolicy, hnsw: Hnsw, points: seq<Point>, s: Scores)
    : Candidate
  {
    Candidate(box.minUsers, box.maxUsers, box.hardBand, box.expectedBand, AnnFirst, Some(policy),
              Some(hnsw), points, s.worst, s.recall, s.lower)
  }

  /** `_rule_candidate_sort_key`, lexicographic. */
  predicate KeyLess(a: Candidate, b: Candidate) {
    a.kPolicy.Some? && a.hnsw.Some? && b.kPolicy.Some? && b.hnsw.Some? &&
    var p, q, g, h := a.kPolicy.value, b.kPolicy.value, a.hnsw.value, b.hnsw.value;
    if p.minCandidates != q.minCandidates then p.minCandidates < q.minCandidates
    else if p.safety != q.safety then p.safety < q.safety
    else if p.fraction != q.fraction then p.fraction < q.fraction
    else if a.worstRatio != b.worstRatio then a.worstRatio < b.worstRatio
    else if g.efSearch != h.efSearch then g.efSearch < h.efSearch
    else if g.maxTuples != h.maxTuples then g.maxTuples < h.maxTuples
    else g.scan < h.scan
  }

  lemma KeyLessTransitive(a: Candidate, b: Candidate, c: Candidate)
    requires KeyLess(a, b) && KeyLess(b, c)
    ensures KeyLess(a, c) && !KeyLess(b, a)
  {
  }

  function Settings(env: Env): set<Hnsw> {
    set cell | cell in env.lookup && cell.plan == AnnFirst && cell.hnsw.Some? :: cell.hnsw.value
  }

  type Choice = (KPolicy, Hnsw)

  function FractionChoices(env: Env, m: nat, s: real, fs: seq<real>): set<Choice> {
    set f, h | f in fs && h in Settings(env) :: (KPolicy(m, s, f), h)
  }

  function SafetyChoices(env: Env, m: nat, ss: seq<real>): set<Choice> {
    set s, f, h | s in ss && f in FRACTION_GRID && h in Settings(env) :: (KPolicy(m, s, f), h)
  }

  function Choices(env: Env, ms: seq<nat>): set<Choice> {
    set m, s, f, h | m in ms && s in SAFETY_GRID && f in FRACTION_GRID && h in Settings(env) ::
      (KPolicy(m, s, f), h)
  }

  /** The candidates of the grid choices whose every point passes. */
  ghost function Passing(env: Env, box: Box, points: seq<Point>, choices: set<Choice>)
    : set<Candidate>
  {
    if points == [] then {}
    else
      set choice | choice in choices && AllPass(env, choice.0, choice.1, points) ::
        CandidateFor(box, choice.0, choice.1, points,
                     ScoresOf(env, choice.0, choice.1, points))
  }

  /** Python's `min` by sort key, or None on an empty list. */
  ghost predicate IsLeast(best: Option<Candidate>, seen: set<Candidate>) {
    && (best.None? <==> seen == {})
    && (best.Some? ==> best.value in seen && forall d <- seen :: !KeyLess(d, best.value))
  }

  lemma LeastGrows(best: Option<Candidate>, seen: set<Candidate>, c: Candidate)
    requires IsLeast(best, seen)
    ensures IsLeast(if best.None? || KeyLess(c, best.value) then Some(c) else best, seen + {c})
  {
    if best.Some? && KeyLess(c, best.value) {
      forall d | d in seen
        ensures !KeyLess(d, c)
      {
        if KeyLess(d, c) {
          KeyLessTransitive(d, c, best.value);
        }
      }
    }
    assert !KeyLess(c, c);
  }

  /** Walks the points of one grid choice and stops at the first that fails a gate. */
  method Evaluate(env: Env, policy: KPolicy, hnsw: Hnsw, points: seq<Point>)
    returns (r: Option<Scores>)
    ensures r.Some? <==> points != [] && AllFacts(env, policy, hnsw, points)
    ensures r.Some? ==> Extremes(env, policy, hnsw, points, r.value)
    ensures AllPass(env, policy, hnsw, points) <==> AllFacts(env, policy, hnsw, points)
    ensures r.Some? ==> r.value == ScoresOf(env, policy, hnsw, points)
  {
    AllPassIff(env, policy, hnsw, points);
    r := None;
    for i := 0 to |points|
      invariant AllPass(env, policy, hnsw, points[..i])
      invariant r.Some? <==> i > 0
      invariant i > 0 ==> r.value == ScoresOf(env, policy, hnsw, points[..i])
    {
      if !PointPasses(env, policy, hnsw, points[i]) {
        return None;
      }
      assert points[..i + 1][..i] == points[..i];
      var here := PointScores(env, policy, hnsw, points[i]);
      r := Some(if r.None? then here else Merge(r.value, here));
    }
    assert points[..|points|] == points;
    if points != [] {
      ScoresInFacts(env, policy, hnsw, points);
    }
  }

  /** The grid choices that share one K policy. */
  method AnySetting(settings: set<Hnsw>) returns (hnsw: Hnsw)
    requires settings != {}
    ensures hnsw in settings
  {
    hnsw :| hnsw in settings;
  }

  /** One more choice: it replaces the best so far when it passes and has the smaller key. */
  method BetterOf(env: Env, box: Box, points: seq<Point>, policy: KPolicy, hnsw: Hnsw,
                  ghost done: set<Choice>, sofar: Option<Candidate>)
    returns (best: Option<Candidate>)
    requires IsLeast(sofar, Passing(env, box, points, done))
    ensures IsLeast(best, Passing(env, box, points, done + {(policy, hnsw)}))
  {
    best := sofar;
    var scores := Evaluate(env, policy, hnsw, points);
    PassingGrows(env, box, points, done, policy, hnsw);
    if scores.Some? {
      var c := CandidateFor(box, policy, hnsw, points, scores.value);
      LeastGrows(best, Passing(env, box, points, done), c);
      if best.None? || KeyLess(c, best.value) {
        best := Some(c);
      }
    }
  }

  method BestForPolicy(env: Env, box: Box, points: seq<Point>, policy: KPolicy,
                       ghost done: set<Choice>, sofar: Option<Candidate>)
    returns (best: Option<Candidate>)
    requires IsLeast(sofar, Passing(env, box, points, done))
    ensures IsLeast(best, Passing(env, box, points, done + PolicyChoices(policy, Settings(env))))
  {
    best := sofar;
    var left := Settings(env);
    ghost var seen: set<Hnsw> := {};
    assert done + PolicyChoices(policy, seen) == done;
    while left != {}
      invariant seen + left == Settings(env)
      invariant IsLeast(best, Passing(env, box, points, done + PolicyChoices(policy, seen)))
      decreases left
    {
      var hnsw := AnySetting(left);
      best := BetterOf(env, box, points, policy, hnsw, done + PolicyChoices(policy, seen), best);
      assert done + PolicyChoices(policy, seen + {hnsw})
          == done + PolicyChoices(policy, seen) + {(policy, hnsw)};
      seen, left := seen + {hnsw}, left - {hnsw};
    }
    assert seen == Settings(env);
  }

  function PolicyChoices(policy: KPolicy, settings: set<Hnsw>): set<Choice> {
    set h | h in settings :: (policy, h)
  }

  lemma PassingGrows(env: Env, box: Box, points: seq<Point>, choices: set<Choice>, policy: KPolicy,
                     hnsw: Hnsw)
    ensures Passing(env, box, points, choices + {(policy, hnsw)})
         == Passing(env, box, points, choices)
            + (if points != [] && AllPass(env, policy, hnsw, points) then
                 {CandidateFor(box, policy, hnsw, points, ScoresOf(env, policy, hnsw, points))}
               else {})
  {
  }

  // ---------------------------------------------------------------------------
  // The choice, in the facts of the summaries
  // ---------------------------------------------------------------------------

  /** A policy that the experiment tries, and a setting that was measured. */
  ghost predicate GridChoice(env: Env, p: KPolicy, h: Hnsw) {
    && p.minCandidates in {5_000, 10_000, 20_000, 50_000}
    && p.safety in {1.0, 1.25, 1.5, 2.0, 2.5, 3.0}
    && p.fraction in {0.05, 0.10, 0.15, 0.25}
    && exists cell <- env.lookup :: cell.plan == AnnFirst && cell.hnsw == Some(h)
  }

  lemma GridIff(env: Env, p: KPolicy, h: Hnsw)
    ensures (p, h) in Choices(env, MINIMUM_GRID) <==> GridChoice(env, p, h)
  {
    assert forall m :: m in MINIMUM_GRID <==> m in {5_000, 10_000, 20_000, 50_000};
    assert forall s :: s in SAFETY_GRID <==> s in {1.0, 1.25, 1.5, 2.0, 2.5, 3.0};
    assert forall f :: f in FRACTION_GRID <==> f in {0.05, 0.10, 0.15, 0.25};
    assert h in Settings(env)
      <==> exists cell <- env.lookup :: cell.plan == AnnFirst && cell.hnsw == Some(h);
    assert p == KPolicy(p.minCandidates, p.safety, p.fraction);
  }

  /** Policy `p` asks for no more than `q` in any of the three numbers that comes first. */
  predicate AsksNoMore(p: KPolicy, q: KPolicy) {
    && p.minCandidates <= q.minCandidates
    && (p.minCandidates == q.minCandidates ==> p.safety <= q.safety)
    && (p.minCandidates == q.minCandidates && p.safety == q.safety ==> p.fraction <= q.fraction)
  }

  /** With one policy the smaller worst ratio comes first, then the cheaper setting. */
  predicate NoSooner(worst: real, h: Hnsw, best: real, g: Hnsw) {
    && best <= worst
    && (best == worst ==> g.efSearch <= h.efSearch)
    && (best == worst && g.efSearch == h.efSearch ==> g.maxTuples <= h.maxTuples)
    && (best == worst && g.efSearch == h.efSearch && g.maxTuples == h.maxTuples ==>
          g.scan <= h.scan)
  }

  /** The candidate's own choice is in order at all points, with these scores. */
  ghost predicate Supports(env: Env, box: Box, points: seq<Point>, c: Candidate) {
    && c.plan == AnnFirst && c.points == points != []
    && Box(c.minUsers, c.maxUsers, c.hardBand, c.expectedBand) == box
    && c.kPolicy.Some? && c.hnsw.Some? && GridChoice(env, c.kPolicy.value, c.hnsw.value)
    && AllFacts(env, c.kPolicy.value, c.hnsw.value, points)
    && Extremes(env, c.kPolicy.value, c.hnsw.value, points,
                Scores(c.worstRatio, c.recall, c.recallLower))
  }

  /** A grid choice in order at all points does not come before the candidate's. */
  ghost predicate NoneSooner(env: Env, points: seq<Point>, c: Candidate, q: KPolicy, h: Hnsw)
    requires c.kPolicy.Some? && c.hnsw.Some?
  {
    && AsksNoMore(c.kPolicy.value, q)
    && (c.kPolicy.value == q ==>
          exists t :: Extremes(env, q, h, points, t)
                      && NoSooner(t.worst, h, c.worstRatio, c.hnsw.value))
  }

  /** There is a candidate where some grid choice is in order, and none comes before it. */
  ghost predicate FirstChoice(env: Env, box: Box, points: seq<Point>, best: Option<Candidate>) {
    && (best.None? <==>
          points == [] || forall q, h :: GridChoice(env, q, h) ==> !AllFacts(env, q, h, points))
    && (best.Some? ==>
          && Supports(env, box, points, best.value)
          && forall q, h :: GridChoice(env, q, h) && AllFacts(env, q, h, points) ==>
               NoneSooner(env, points, best.value, q, h))
  }

  lemma ChoiceSupports(env: Env, box: Box, points: seq<Point>, c: Candidate)
    requires c in Passing(env, box, points, Choices(env, MINIMUM_GRID))
    ensures Supports(env, box, points, c)
  {
    var choice :| choice in Choices(env, MINIMUM_GRID) && AllPass(env, choice.0, choice.1, points)
      && c == CandidateFor(box, choice.0, choice.1, points,
                           ScoresOf(env, choice.0, choice.1, points));
    GridIff(env, choice.0, choice.1);
    AllPassIff(env, choice.0, choice.1, points);
    ScoresInFacts(env, choice.0, choice.1, points);
  }

  /** A grid choice in order is among the candidates. */
  lemma ChoicePasses(env: Env, box: Box, points: seq<Point>, q: KPolicy, h: Hnsw)
    requires points != [] && GridChoice(env, q, h) && AllFacts(env, q, h, points)
    ensures AllPass(env, q, h, points)
    ensures CandidateFor(box, q, h, points, ScoresOf(env, q, h, points))
         in Passing(env, box, points, Choices(env, MINIMUM_GRID))
    ensures Extremes(env, q, h, points, ScoresOf(env, q, h, points))
  {
    GridIff(env, q, h);
    AllPassIff(env, q, h, points);
    ScoresInFacts(env, q, h, points);
    var choice := (q, h);
    assert choice in Choices(env, MINIMUM_GRID) && AllPass(env, choice.0, choice.1, points);
  }

  lemma KeyMeansOrder(c: Candidate, d: Candidate, q: KPolicy, h: Hnsw)
    requires c.kPolicy.Some? && c.hnsw.Some? && !KeyLess(d, c)
    requires d.kPolicy == Some(q) && d.hnsw == Some(h)
    ensures AsksNoMore(c.kPolicy.value, q)
    ensures c.kPolicy.value == q ==> NoSooner(d.worstRatio, h, c.worstRatio, c.hnsw.value)
  {
  }

  lemma OthersComeLater(env: Env, box: Box, points: seq<Point>, c: Candidate, q: KPolicy, h: Hnsw)
    requires points != [] && GridChoice(env, q, h) && AllFacts(env, q, h, points)
    requires c.kPolicy.Some? && c.hnsw.Some?
    requires forall d <- Passing(env, box, points, Choices(env, MINIMUM_GRID)) :: !KeyLess(d, c)
    ensures NoneSooner(env, points, c, q, h)
  {
    ChoicePasses(env, box, points, q, h);
    KeyMeansOrder(c, CandidateFor(box, q, h, points, ScoresOf(env, q, h, points)), q, h);
  }

  lemma LeastIsFirst(env: Env, box: Box, points: seq<Point>, best: Option<Candidate>)
    requires IsLeast(best, Passing(env, box, points, Choices(env, MINIMUM_GRID)))
    ensures FirstChoice(env, box, points, best)
  {
    if best.Some? {
      ChoiceSupports(env, box, points, best.value);
    }
    forall q, h | points != [] && GridChoice(env, q, h) && AllFacts(env, q, h, points)
      ensures best.Some?
      ensures NoneSooner(env, points, best.value, q, h)
    {
      ChoicePasses(env, box, points, q, h);
      OthersComeLater(env, box, points, best.value, q, h);
    }
  }

  /** `_best_ann_candidate`: the least passing grid choice by sort key, or none. */
  method BestAnnCandidate(env: Env, box: Box, points: seq<Point>) returns (best: Option<Candidate>)
    ensures FirstChoice(env, box, points, best)
    ensures IsLeast(best, Passing(env, box, points, Choices(env, MINIMUM_GRID)))
  {
    best := None;
    ghost var done: set<Choice> := {};
    assert Passing(env, box, points, done) == {};
    for i := 0 to |MINIMUM_GRID|
      invariant done == Choices(env, MINIMUM_GRID[..i])
      invariant IsLeast(best, Passing(env, box, points, done))
    {
      ghost var d0 := done;
      for j := 0 to |SAFETY_GRID|
        invariant done == d0 + SafetyChoices(env, MINIMUM_GRID[i], SAFETY_GRID[..j])
        invariant IsLeast(best, Passing(env, box, points, done))
      {
        ghost var d1 := done;
        for k := 0 to |FRACTION_GRID|
          invariant done == d1 + FractionChoices(env, MINIMUM_GRID[i], SAFETY_GRID[j],
                                                 FRACTION_GRID[..k])
          invariant IsLeast(best, Passing(env, box, points, done))
        {
          var policy := KPolicy(MINIMUM_GRID[i], SAFETY_GRID[j], FRACTION_GRID[k]);
          best := BestForPolicy(env, box, points, policy, done, best);
          FractionsStep(env, MINIMUM_GRID[i], SAFETY_GRID[j], k);
          done := done + PolicyChoices(policy, Settings(env));
        }
        SafetiesStep(env, MINIMUM_GRID[i], j);
      }
      MinimumsStep(env, i);
    }
    assert MINIMUM_GRID[..|MINIMUM_GRID|] == MINIMUM_GRID;
    LeastIsFirst(env, box, points, best);
  }

  lemma FractionsStep(env: Env, m: nat, s: real, k: nat)
    requires k < |FRACTION_GRID|
    ensures FractionChoices(env, m, s, FRACTION_GRID[..k + 1])
         == FractionChoices(env, m, s, FRACTION_GRID[..k])
            + PolicyChoices(KPolicy(m, s, FRACTION_GRID[k]), Settings(env))
  {
    assert FRACTION_GRID[..k + 1] == FRACTION_GRID[..k] + [FRACTION_GRID[k]];
  }

  lemma SafetiesStep(env: Env, m: nat, j: nat)
    requires j < |SAFETY_GRID|
    ensures SafetyChoices(env, m, SAFETY_GRID[..j + 1])
         == SafetyChoices(env, m, SAFETY_GRID[..j])
            + FractionChoices(env, m, SAFETY_GRID[j], FRACTION_GRID)
    ensures FRACTION_GRID[..|FRACTION_GRID|] == FRACTION_GRID
  {
    assert SAFETY_GRID[..j + 1] == SAFETY_GRID[..j] + [SAFETY_GRID[j]];
  }

  lemma MinimumsStep(env: Env, i: nat)
    requires i < |MINIMUM_GRID|
    ensures Choices(env, MINIMUM_GRID[..i + 1])
         == Choices(env, MINIMUM_GRID[..i]) + SafetyChoices(env, MINIMUM_GRID[i], SAFETY_GRID)
    ensures SAFETY_GRID[..|SAFETY_GRID|] == SAFETY_GRID
  {
    assert MINIMUM_GRID[..i + 1] == MINIMUM_GRID[..i] + [MINIMUM_GRID[i]];
  }
}
