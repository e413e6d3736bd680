/**
 What an approximate plan must show at one evidence point, in the columns of the summaries: which
 candidate count is meant, which exact summary it is measured against, and every number compared.
 */
module PolicyFacts {
  import opened Wrappers
  import opened PolicyGates

  // ---------------------------------------------------------------------------
  // The candidate count
  // ---------------------------------------------------------------------------

  /** The least count that covers the minimum and the expectation, or the whole corpus below it. */
  ghost predicate IsCount(k: nat, policy: KPolicy, corpus: Users, hardMatch: nat, passRate: real) {
    && k <= corpus
    && (k == corpus || Ample(k, policy, hardMatch, passRate))
    && forall j: nat :: j < k ==> !Ample(j, policy, hardMatch, passRate)
  }

  predicate Ample(k: nat, policy: KPolicy, hardMatch: nat, passRate: real) {
    k >= policy.minCandidates && k as real >= policy.safety * (hardMatch as real * passRate)
  }

  predicate WithinFraction(k: nat, policy: KPolicy, corpus: Users) {
    k as real <= policy.fraction * corpus as real
  }

  lemma CeilIsLeast(r: real, j: int)
    ensures j >= Ceil(r) <==> j as real >= r
  {
  }

  /** A count is proposed exactly when it is the one meant and within the fraction of the corpus. */
  lemma ProposedIff(policy: KPolicy, corpus: Users, hardMatch: nat, passRate: real, expected: real,
                    k: nat)
    requires expected == hardMatch as real * passRate
    ensures ProposedK(policy, corpus, expected) == Some(k)
       <==> && IsCount(k, policy, corpus, hardMatch, passRate)
            && WithinFraction(k, policy, corpus)
  {
    var least: nat := Max(policy.minCandidates, Ceil(policy.safety * expected));
    forall j: nat
      ensures Ample(j, policy, hardMatch, passRate) <==> j >= least
    {
      CeilIsLeast(policy.safety * expected, j);
    }
    assert IsCount(k, policy, corpus, hardMatch, passRate) <==> k == Min(corpus, least) by {
      assert Ample(least, policy, hardMatch, passRate);
    }
  }

  // ---------------------------------------------------------------------------
  // The exact baseline
  // ---------------------------------------------------------------------------

  /** Filtering first gave the very same users, and clearly faster. */
  predicate FilteringIsSafe(env: Env, filtered: Summary, exact: Summary) {
    var c := env.config;
    && filtered.runCount >= c.minimumRuns && exact.runCount >= c.minimumRuns
    && filtered.finalCount == exact.finalCount
    && filtered.intersection == exact.positives
    && filtered.precision == 1.0 && filtered.recall == 1.0
    && filtered.p95 <= exact.p95 * c.filterP95Max
    && env.upperBound(filtered, exact) <= c.filterP95Max
    && filtered.p99 <= exact.p99
  }

  /** The baseline is the filtered summary where filtering is safe, and else the exact one. */
  predicate IsBaseline(env: Env, all: Option<Summary>, filtered: Option<Summary>, exact: Summary) {
    && all.Some?
    && exact == if filtered.Some? && FilteringIsSafe(env, filtered.value, all.value)
                then filtered.value else all.value
  }

  /** Both exact plans were measured at the point, and filtering first is safe there. */
  predicate FilteringIsSafeAt(env: Env, point: Point) {
    var exactCell := Cell(point.scenario, point.corpus, env.sample, ExactAll, None, None);
    var filterCell := exactCell.(plan := FilterFirstExact);
    && exactCell in env.lookup && filterCell in env.lookup
    && FilteringIsSafe(env, env.lookup[filterCell], env.lookup[exactCell])
  }

  // ---------------------------------------------------------------------------
  // The numbers compared
  // ---------------------------------------------------------------------------

  /** What every measurement must show. */
  predicate Accurate(c: Config, ann: Summary, exact: Summary, runs: nat) {
    && ann.runCount >= runs && exact.runCount >= runs
    && ann.positives >= c.minimumPositives
    && ann.precision == 1.0 && ann.recall >= c.targetRecall && ann.recallLower >= c.targetRecall
  }

  predicate Faster(env: Env, ann: Summary, exact: Summary) {
    && ann.p95 <= exact.p95 * env.config.annP95Max
    && env.upperBound(ann, exact) <= env.config.annP95Max
  }

  predicate WithinMemory(c: Config, ann: Summary, exact: Summary) {
    && !ann.oom && ann.rss.Some? && exact.rss.Some?
    && ann.rss.value as real <= exact.rss.value as real * c.rssMax
  }

  /** A warm measurement must also show its tail and its query plan. */
  predicate WarmFacts(env: Env, ann: Summary, exact: Summary) {
    && Accurate(env.config, ann, exact, env.config.minimumRuns)
    && Faster(env, ann, exact) && WithinMemory(env.config, ann, exact)
    && ann.p99 <= exact.p99 * env.config.annP99Max
    && ann.indexUsed && !ann.spill
  }

  /** A cold one has its own number of runs; without one it needs as many as a warm one. */
  predicate ColdFacts(env: Env, ann: Summary, exact: Summary) {
    var c := env.config;
    && Accurate(c, ann, exact, if c.minimumColdRuns > 0 then c.minimumColdRuns else c.minimumRuns)
    && Faster(env, ann, exact) && WithinMemory(c, ann, exact)
  }

  function Looked<K, V>(m: map<K, V>, k: K): Option<V> {
    if k in m then Some(m[k]) else None
  }

  /** One supporting measurement and its own baseline, under a cache mode and an exclusion. */
  ghost predicate Supported(env: Env, point: Point, k: nat, hnsw: Hnsw, mode: CacheMode, exclusion: real) {
    var exactCell := Cell(point.scenario, point.corpus, env.sample, ExactAll, None, None);
    var filterCell := exactCell.(plan := FilterFirstExact);
    var annCell := Cell(point.scenario, point.corpus, env.sample, AnnFirst, Some(k), Some(hnsw));
    && SupportCell(annCell, mode, exclusion) in env.support
    && var ann := env.support[SupportCell(annCell, mode, exclusion)];
       exists exact ::
         && IsBaseline(env, Looked(env.support, SupportCell(exactCell, mode, exclusion)),
                       Looked(env.support, SupportCell(filterCell, mode, exclusion)), exact)
         && match mode
            case Warm => WarmFacts(env, ann, exact)
            case DbCold => ColdFacts(env, ann, exact)
  }

  /**
   At one evidence point: `k` is the count of the policy there, `ann` the summary at that count,
   `exact` the baseline, and all that was measured warm, cold and under exclusion is in order.
   */
  ghost predicate FactsAt(env: Env, policy: KPolicy, hnsw: Hnsw, point: Point, k: nat, ann: Summary,
                          exact: Summary)
  {
    var exactCell := Cell(point.scenario, point.corpus, env.sample, ExactAll, None, None);
    var filterCell := exactCell.(plan := FilterFirstExact);
    var annCell := Cell(point.scenario, point.corpus, env.sample, AnnFirst, Some(k), Some(hnsw));
    && exactCell in env.lookup
    && IsCount(k, policy, point.corpus, env.lookup[exactCell].hardMatch,
               env.lookup[exactCell].passRate)
    && WithinFraction(k, policy, point.corpus)
    && annCell in env.lookup && ann == env.lookup[annCell]
    && IsBaseline(env, Looked(env.lookup, exactCell), Looked(env.lookup, filterCell), exact)
    && WarmFacts(env, ann, exact)
    && (env.config.requireCold ==> Supported(env, point, k, hnsw, DbCold, 0.0))
    && (env.config.exclusion.Some? ==>
          Supported(env, point, k, hnsw, Warm, env.config.exclusion.value))
  }

  /** The tail is no longer than that of the runtime in place. */
  predicate TailHolds(env: Env, point: Point, ann: Summary) {
    var cell := Cell(point.scenario, point.corpus, env.sample, CurrentRuntime, None, None);
    cell in env.lookup && ann.p99 <= env.lookup[cell].p99
  }

  // ---------------------------------------------------------------------------
  // The gates ask for exactly these facts
  // ---------------------------------------------------------------------------

  lemma SafeIff(env: Env, filtered: Summary, exact: Summary)
    ensures FilterFirstPasses(env, filtered, exact) <==> FilteringIsSafe(env, filtered, exact)
  {
  }

  lemma BaselineIff(env: Env, all: Option<Summary>, filtered: Option<Summary>, exact: Summary)
    ensures Fastest(env, all, filtered) == Some(exact) <==> IsBaseline(env, all, filtered, exact)
  {
    if all.Some? && filtered.Some? {
      SafeIff(env, filtered.value, all.value);
    }
  }

  lemma WarmIff(env: Env, ann: Summary, exact: Summary)
    ensures AnnPasses(env, ann, exact, true, None, true) <==> WarmFacts(env, ann, exact)
    ensures AnnPasses(env, ann, exact, true, Some(env.config.minimumRuns), true)
       <==> WarmFacts(env, ann, exact)
  {
  }

  lemma ColdIff(env: Env, ann: Summary, exact: Summary)
    ensures AnnPasses(env, ann, exact, false, Some(env.config.minimumColdRuns), false)
       <==> ColdFacts(env, ann, exact)
  {
  }

  lemma SupportedIff(env: Env, point: Point, k: nat, hnsw: Hnsw, mode: CacheMode, exclusion: real)
    ensures SupportModePasses(env, point, Some(k), hnsw, mode, exclusion)
       <==> Supported(env, point, k, hnsw, mode, exclusion)
  {
    var exactCell := Cell(point.scenario, point.corpus, env.sample, ExactAll, None, None);
    var filterCell := exactCell.(plan := FilterFirstExact);
    var annCell := SupportCell(AnnCell(env, point, Some(k), hnsw), mode, exclusion);
    var all := Looked(env.support, SupportCell(exactCell, mode, exclusion));
    var filtered := Looked(env.support, SupportCell(filterCell, mode, exclusion));
    forall exact
      ensures FastestSupporting(env, point, mode, exclusion) == Some(exact)
         <==> IsBaseline(env, all, filtered, exact)
    {
      BaselineIff(env, all, filtered, exact);
    }
    if annCell in env.support {
      forall exact
        ensures AnnPasses(env, env.support[annCell], exact, true, Some(env.config.minimumRuns), true)
           <==> WarmFacts(env, env.support[annCell], exact)
        ensures AnnPasses(env, env.support[annCell], exact, false,
                          Some(env.config.minimumColdRuns), false)
           <==> ColdFacts(env, env.support[annCell], exact)
      {
        WarmIff(env, env.support[annCell], exact);
        ColdIff(env, env.support[annCell], exact);
      }
    }
  }

  lemma SupportingIff(env: Env, point: Point, k: nat, hnsw: Hnsw)
    ensures SupportingPasses(env, point, Some(k), hnsw)
       <==> && (env.config.requireCold ==> Supported(env, point, k, hnsw, DbCold, 0.0))
            && (env.config.exclusion.Some? ==>
                  Supported(env, point, k, hnsw, Warm, env.config.exclusion.value))
  {
    var modes := SupportModes(env.config);
    forall i | 0 <= i < |modes|
      ensures SupportModePasses(env, point, Some(k), hnsw, modes[i].0, modes[i].1)
         <==> Supported(env, point, k, hnsw, modes[i].0, modes[i].1)
    {
      SupportedIff(env, point, k, hnsw, modes[i].0, modes[i].1);
    }
    ModesAre(env.config);
  }

  /** Cold first where it is required, then warm under the exclusion where one is. */
  lemma ModesAre(c: Config)
    ensures var modes := SupportModes(c);
            && (forall i :: 0 <= i < |modes| ==>
                  || (c.requireCold && modes[i] == (DbCold, 0.0))
                  || (c.exclusion.Some? && modes[i] == (Warm, c.exclusion.value)))
            && (c.requireCold ==> |modes| > 0 && modes[0] == (DbCold, 0.0))
            && (c.exclusion.Some? ==>
                  |modes| > 0 && modes[|modes| - 1] == (Warm, c.exclusion.value))
  {
  }

  /** The gates hold at a point where a count is proposed exactly when the facts do. */
  lemma GatesIff(env: Env, policy: KPolicy, hnsw: Hnsw, point: Point, k: nat, ann: Summary,
                 exact: Summary)
    ensures FactsAt(env, policy, hnsw, point, k, ann, exact)
       <==> && PointK(env, policy, point) == Some(k)
            && PointGates(env, policy, hnsw, point)
            && ann == PointAnn(env, policy, hnsw, point)
            && FastestExact(env, point) == Some(exact)
  {
    var exactCell := Cell(point.scenario, point.corpus, env.sample, ExactAll, None, None);
    var filterCell := exactCell.(plan := FilterFirstExact);
    BaselineIff(env, Looked(env.lookup, exactCell), Looked(env.lookup, filterCell), exact);
    assert exactCell == ExactCell(env, point, ExactAll);
    assert filterCell == ExactCell(env, point, FilterFirstExact);
    CountIff(env, policy, point, k);
    WarmIff(env, ann, exact);
    SupportingIff(env, point, k, hnsw);
    assert AnnCell(env, point, Some(k), hnsw)
        == Cell(point.scenario, point.corpus, env.sample, AnnFirst, Some(k), Some(hnsw));
  }

  lemma CountIff(env: Env, policy: KPolicy, point: Point, k: nat)
    ensures var cell := Cell(point.scenario, point.corpus, env.sample, ExactAll, None, None);
            PointK(env, policy, point) == Some(k)
            <==> && cell in env.lookup
                 && IsCount(k, policy, point.corpus, env.lookup[cell].hardMatch,
                            env.lookup[cell].passRate)
                 && WithinFraction(k, policy, point.corpus)
  {
    var cell := Cell(point.scenario, point.corpus, env.sample, ExactAll, None, None);
    assert cell == ExactCell(env, point, ExactAll);
    if cell in env.lookup {
      var s := env.lookup[cell];
      ProposedIff(policy, point.corpus, s.hardMatch, s.passRate, s.ExpectedCount(), k);
    }
  }

  /** The local search accepts a point exactly when the facts hold there, the runtime's tail too. */
  lemma PointPassesIff(env: Env, policy: KPolicy, hnsw: Hnsw, point: Point)
    ensures PointPasses(env, policy, hnsw, point)
       <==> exists k, ann, exact ::
              FactsAt(env, policy, hnsw, point, k, ann, exact) && TailHolds(env, point, ann)
  {
    forall k: nat, ann, exact
      ensures FactsAt(env, policy, hnsw, point, k, ann, exact)
         <==> && PointK(env, policy, point) == Some(k)
              && PointGates(env, policy, hnsw, point)
              && ann == PointAnn(env, policy, hnsw, point)
              && FastestExact(env, point) == Some(exact)
    {
      GatesIff(env, policy, hnsw, point, k, ann, exact);
    }
    if PointPasses(env, policy, hnsw, point) {
      assert FactsAt(env, policy, hnsw, point, PointK(env, policy, point).value,
                     PointAnn(env, policy, hnsw, point), FastestExact(env, point).value);
    }
  }
}
