/** What is decided for one cell of the rule table, in the columns of the evidence points. */
module CellFacts {
  import opened Wrappers
  import opened PolicyGates
  import opened PolicyFacts
  import opened PolicySynthesis
  import opened PolicyTable
  import opened ConsolidationFacts

  /** The point is evidence of the corpus size and the two bands. */
  predicate Observes(p: Point, corpus: Users, hardBand: Band, expectedBand: Band) {
    p.corpus == corpus && p.hardBand == hardBand && p.expectedBand == expectedBand
  }

  /** Some point of the cell shows the candidate type. */
  predicate Shown(points: seq<Point>, corpus: Users, hardBand: Band, expectedBand: Band, t: nat) {
    exists p :: p in points && Observes(p, corpus, hardBand, expectedBand) && p.candidateType == t
  }

  lemma {:induction false} BucketHolds(points: seq<Point>, corpus: Users, hardBand: Band,
                                       expectedBand: Band)
    ensures forall p :: p in Bucket(points, corpus, hardBand, expectedBand)
                        <==> p in points && Observes(p, corpus, hardBand, expectedBand)
  {
    if points != [] {
      var front := points[..|points| - 1];
      BucketHolds(front, corpus, hardBand, expectedBand);
      assert points == front + [points[|points| - 1]];
    }
  }

  lemma CoversIff(points: seq<Point>, corpus: Users, hardBand: Band, expectedBand: Band,
                  required: set<nat>)
    ensures Covers(Bucket(points, corpus, hardBand, expectedBand), required)
       <==> forall t <- required :: Shown(points, corpus, hardBand, expectedBand, t)
  {
    BucketHolds(points, corpus, hardBand, expectedBand);
  }

  /** The points of the cell and of the one below it. */
  ghost predicate IsBoundary(points: seq<Point>, sizes: seq<Users>, i: nat, hardBand: Band,
                             expectedBand: Band, boundary: seq<Point>)
    requires i < |sizes|
  {
    forall p :: p in boundary
                <==> && p in points
                     && (Observes(p, sizes[i], hardBand, expectedBand)
                         || (i > 0 && Observes(p, sizes[i - 1], hardBand, expectedBand)))
  }

  /** The cell reaches from above the size before it to its own. */
  function Reach(sizes: seq<Users>, i: nat, hardBand: Band, expectedBand: Band): Box
    requires i < |sizes|
  {
    Box(if i == 0 then sizes[i] else sizes[i - 1] + 1, sizes[i], hardBand, expectedBand)
  }

  /** What becomes of a cell with enough evidence. */
  ghost predicate ByEvidence(env: Env, box: Box, boundary: seq<Point>, d: Decision) {
    if exists q, h :: GridChoice(env, q, h) && AllFacts(env, q, h, boundary) then
      d.Rule? && FirstChoice(env, box, boundary, Some(d.candidate))
    else if forall j :: 0 <= j < |boundary| ==> FilteringIsSafeAt(env, boundary[j]) then
      d == Rule(Candidate(box.minUsers, box.maxUsers, box.hardBand, box.expectedBand,
                          FilterFirstExact, None, None, boundary, 0.0, 1.0, 1.0))
    else
      d == Fall(Fallback(box.minUsers, box.maxUsers, box.hardBand, box.expectedBand, ExactIsSafest))
  }

  /** A cell without points, without every type, or with neither below it, falls back; else see above. */
  ghost predicate Decides(env: Env, points: seq<Point>, sizes: seq<Users>, i: nat, hardBand: Band,
                          expectedBand: Band, d: Decision)
    requires i < |sizes|
  {
    var box, required := Reach(sizes, i, hardBand, expectedBand), env.config.requiredTypes;
    var back := (reason: Reason) =>
      Fall(Fallback(box.minUsers, box.maxUsers, hardBand, expectedBand, reason));
    if forall p :: p in points ==> !Observes(p, sizes[i], hardBand, expectedBand) then
      d == back(Unobserved)
    else if exists t <- required :: !Shown(points, sizes[i], hardBand, expectedBand, t) then
      d == back(CoverageMissing)
    else if i > 0 && exists t <- required :: !Shown(points, sizes[i - 1], hardBand, expectedBand, t)
    then d == back(BoundaryUnvalidated)
    else exists boundary :: IsBoundary(points, sizes, i, hardBand, expectedBand, boundary)
                            && ByEvidence(env, box, boundary, d)
  }

  lemma PassingIff(env: Env, box: Box, boundary: seq<Point>)
    requires boundary != []
    ensures Passing(env, box, boundary, Choices(env, MINIMUM_GRID)) != {}
       <==> exists q, h :: GridChoice(env, q, h) && AllFacts(env, q, h, boundary)
  {
    var passing := Passing(env, box, boundary, Choices(env, MINIMUM_GRID));
    if passing != {} {
      var c :| c in passing;
      ChoiceSupports(env, box, boundary, c);
      assert GridChoice(env, c.kPolicy.value, c.hnsw.value);
    }
    if q, h :| GridChoice(env, q, h) && AllFacts(env, q, h, boundary) {
      ChoicePasses(env, box, boundary, q, h);
    }
  }

  lemma EvidenceDecides(env: Env, box: Box, boundary: seq<Point>, d: Decision)
    requires boundary != []
    requires var passing := Passing(env, box, boundary, Choices(env, MINIMUM_GRID));
             if passing != {} then d.Rule? && IsLeast(Some(d.candidate), passing)
             else if forall j :: 0 <= j < |boundary| ==> FilterPasses(env, boundary[j]) then
               d == FilterRule(box, boundary)
             else d == FallFor(box, ExactIsSafest)
    ensures ByEvidence(env, box, boundary, d)
  {
    PassingIff(env, box, boundary);
    SafeEverywhereIff(env, boundary);
    if Passing(env, box, boundary, Choices(env, MINIMUM_GRID)) != {} {
      LeastIsFirst(env, box, boundary, Some(d.candidate));
    }
  }

  /** The decision of a cell, in the columns of its points. */
  lemma DecidedInFacts(env: Env, points: seq<Point>, sizes: seq<Users>, i: nat, hardBand: Band,
                       expectedBand: Band, d: Decision)
    requires i < |sizes| && DecidedWell(env, points, sizes, i, hardBand, expectedBand, d)
    ensures Decides(env, points, sizes, i, hardBand, expectedBand, d)
  {
    BucketHolds(points, sizes[i], hardBand, expectedBand);
    CoversIff(points, sizes[i], hardBand, expectedBand, env.config.requiredTypes);
    if i > 0 {
      BucketHolds(points, sizes[i - 1], hardBand, expectedBand);
      CoversIff(points, sizes[i - 1], hardBand, expectedBand, env.config.requiredTypes);
    }
    var current := Bucket(points, sizes[i], hardBand, expectedBand);
    if current == [] {
      assert forall p :: p in points ==> !Observes(p, sizes[i], hardBand, expectedBand);
    } else {
      assert current[0] in current;
      var boundary := BoundaryPoints(points, sizes, i, hardBand, expectedBand);
      assert IsBoundary(points, sizes, i, hardBand, expectedBand, boundary);
      if Covers(current, env.config.requiredTypes)
         && (i > 0 ==> Covers(Bucket(points, sizes[i - 1], hardBand, expectedBand),
                              env.config.requiredTypes)) {
        EvidenceDecides(env, Reach(sizes, i, hardBand, expectedBand), boundary, d);
      }
    }
  }
}
