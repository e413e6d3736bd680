/**
 Benchmark summaries, the candidate count a K policy proposes, and the gates that decide whether
 an approximate plan may replace an exact one. Latencies and ratios are reals; the bootstrap upper
 bound of a latency ratio is a parameter of the environment.
 */
module PolicyGates {
  import opened Wrappers

  datatype SearchPlan = CurrentRuntime | ExactAll | FilterFirstExact | AnnFirst

  /** `scan` is the position of the iterative-scan mode in alphabetical order. */
  datatype Hnsw = Hnsw(efSearch: nat, scan: nat, maxTuples: nat)

  datatype KPolicy = KPolicy(minCandidates: nat, safety: real, fraction: real)
  {
    predicate Valid() {
      minCandidates > 0 && safety > 0.0 && 0.0 < fraction <= 1.0
    }
  }

  /** The minimum counts and safety factors that the experiment tries. */
  const MINIMUM_GRID: seq<nat> := [5_000, 10_000, 20_000, 50_000]
  const SAFETY_GRID: seq<real> := [1.0, 1.25, 1.5, 2.0, 2.5, 3.0]

  /** Inclusive below, exclusive above. */
  datatype Band = Band(lo: real, hi: real)
  {
    predicate Contains(r: real) {
      lo <= r < hi
    }
  }

  type Millis = r: real | r > 0.0 witness 1.0
  type Users = n: nat | n > 0 witness 1

  datatype Summary = Summary(hardMatch: nat, passRate: real, runCount: nat, p95: Millis, p99: Millis,
                             finalCount: nat, positives: nat, intersection: nat, precision: real,
                             recall: real, recallLower: real, indexUsed: bool, spill: bool,
                             oom: bool, rss: Option<nat>)
  {
    function ExpectedCount(): real {
      hardMatch as real * passRate
    }
  }

  datatype Point = Point(scenario: nat, candidateType: nat, corpus: Users, hardBand: Band,
                         expectedBand: Band)

  datatype CacheMode = Warm | DbCold

  datatype Cell = Cell(scenario: nat, corpus: Users, sample: nat, plan: SearchPlan,
                       k: Option<nat>, hnsw: Option<Hnsw>)
  datatype SupportCell = SupportCell(cell: Cell, mode: CacheMode, exclusion: real)

  datatype Config = Config(targetRecall: real, minimumPositives: nat, annP95Max: real,
                           annP99Max: real, rssMax: real, filterP95Max: real, globalLocalMax: real,
                           minimumRuns: nat, minimumColdRuns: nat, requireCold: bool,
                           exclusion: Option<real>, requiredTypes: set<nat>,
                           hardBands: seq<Band>, expectedBands: seq<Band>)

  /** Everything the synthesis reads and does not change. */
  datatype Env = Env(lookup: map<Cell, Summary>, support: map<SupportCell, Summary>, sample: nat,
                     config: Config, upperBound: (Summary, Summary) -> real)

  const TARGET_RECALL := 0.95

  function Ceil(r: real): int {
    -((-r).Floor)
  }

  function Max(a: int, b: int): int {
    if a > b then a else b
  }

  function Min(a: int, b: int): int {
    if a < b then a else b
  }

  /** `KPolicyParameters.proposed_k`. */
  function ProposedK(policy: KPolicy, corpus: Users, expected: real): (k: Option<nat>)
    ensures k.Some? ==> k.value <= corpus
    ensures k.Some? ==> k.value as real <= policy.fraction * corpus as real
    ensures k.Some? ==> k.value == corpus
                        || (k.value >= policy.minCandidates
                            && k.value as real >= policy.safety * expected)
  {
    var count: nat := Min(corpus, Max(policy.minCandidates, Ceil(policy.safety * expected)));
    if count as real > policy.fraction * corpus as real then None else Some(count)
  }

  function RequiredRuns(config: Config, minimum: Option<nat>): nat {
    if minimum.Some? && minimum.value != 0 then minimum.value else config.minimumRuns
  }

  /** `_ann_passes`. */
  predicate AnnPasses(env: Env, ann: Summary, exact: Summary, needPlan: bool,
                      minimum: Option<nat>, needP99: bool)
  {
    var c := env.config;
    && ann.runCount >= RequiredRuns(c, minimum) && exact.runCount >= RequiredRuns(c, minimum)
    && ann.positives >= c.minimumPositives
    && ann.precision == 1.0
    && ann.recall >= c.targetRecall
    && ann.recallLower >= c.targetRecall
    && ann.p95 <= exact.p95 * c.annP95Max
    && env.upperBound(ann, exact) <= c.annP95Max
    && (needP99 ==> ann.p99 <= exact.p99 * c.annP99Max)
    && !ann.oom
    && (needPlan ==> ann.indexUsed && !ann.spill)
    && ann.rss.Some? && exact.rss.Some?
    && ann.rss.value as real <= exact.rss.value as real * c.rssMax
  }

  /** `_filter_first_passes`. */
  predicate FilterFirstPasses(env: Env, filtered: Summary, exact: Summary) {
    var c := env.config;
    && filtered.runCount >= c.minimumRuns && exact.runCount >= c.minimumRuns
    && filtered.finalCount == exact.finalCount
    && filtered.intersection == exact.positives
    && filtered.precision == 1.0 && filtered.recall == 1.0
    && filtered.p95 <= exact.p95 * c.filterP95Max
    && env.upperBound(filtered, exact) <= c.filterP95Max
    && filtered.p99 <= exact.p99
  }

  function ExactCell(env: Env, point: Point, plan: SearchPlan): Cell {
    Cell(point.scenario, point.corpus, env.sample, plan, None, None)
  }

  function AnnCell(env: Env, point: Point, k: Option<nat>, hnsw: Hnsw): Cell {
    Cell(point.scenario, point.corpus, env.sample, AnnFirst, k, Some(hnsw))
  }

  function Find<K, V>(m: map<K, V>, k: K): Option<V> {
    if k in m then Some(m[k]) else None
  }

  /** The exact baseline, or the filtered one when it passes its own gate. */
  function Fastest(env: Env, exact: Option<Summary>, filtered: Option<Summary>): Option<Summary> {
    if exact.None? then None
    else if filtered.Some? && FilterFirstPasses(env, filtered.value, exact.value) then filtered
    else exact
  }

  function FastestExact(env: Env, point: Point): Option<Summary> {
    Fastest(env, Find(env.lookup, ExactCell(env, point, ExactAll)),
            Find(env.lookup, ExactCell(env, point, FilterFirstExact)))
  }

  function FastestSupporting(env: Env, point: Point, mode: CacheMode, exclusion: real)
    : Option<Summary>
  {
    Fastest(env, Find(env.support, SupportCell(ExactCell(env, point, ExactAll), mode, exclusion)),
            Find(env.support,
                 SupportCell(ExactCell(env, point, FilterFirstExact), mode, exclusion)))
  }

  function SupportModes(config: Config): seq<(CacheMode, real)> {
    (if config.requireCold then [(DbCold, 0.0)] else [])
    + (if config.exclusion.Some? then [(Warm, config.exclusion.value)] else [])
  }

  predicate SupportModePasses(env: Env, point: Point, k: Option<nat>, hnsw: Hnsw, mode: CacheMode,
                              exclusion: real)
  {
    var exact := FastestSupporting(env, point, mode, exclusion);
    var ann := Find(env.support, SupportCell(AnnCell(env, point, k, hnsw), mode, exclusion));
    && exact.Some? && ann.Some?
    && AnnPasses(env, ann.value, exact.value, mode != DbCold,
                 Some(if mode == DbCold then env.config.minimumColdRuns
                      else env.config.minimumRuns),
                 mode != DbCold)
  }

  /** `_supporting_ann_passes`. */
  predicate SupportingPasses(env: Env, point: Point, k: Option<nat>, hnsw: Hnsw) {
    forall i :: 0 <= i < |SupportModes(env.config)| ==>
      SupportModePasses(env, point, k, hnsw, SupportModes(env.config)[i].0,
                        SupportModes(env.config)[i].1)
  }

  function PointK(env: Env, policy: KPolicy, point: Point): Option<nat> {
    var cell := ExactCell(env, point, ExactAll);
    if cell in env.lookup then
      ProposedK(policy, point.corpus, env.lookup[cell].ExpectedCount())
    else None
  }

  /** The gates shared by the local search and the consolidation, at one evidence point. */
  predicate PointGates(env: Env, policy: KPolicy, hnsw: Hnsw, point: Point) {
    var exact := FastestExact(env, point);
    var k := PointK(env, policy, point);
    && exact.Some?
    && AnnCell(env, point, k, hnsw) in env.lookup
    && AnnPasses(env, env.lookup[AnnCell(env, point, k, hnsw)], exact.value, true, None, true)
    && SupportingPasses(env, point, k, hnsw)
  }

  /** The local search also requires a proposed K and the current runtime's p99. */
  predicate PointPasses(env: Env, policy: KPolicy, hnsw: Hnsw, point: Point) {
    var current := Find(env.lookup, ExactCell(env, point, CurrentRuntime));
    && PointK(env, policy, point).Some?
    && PointGates(env, policy, hnsw, point)
    && current.Some?
    && env.lookup[AnnCell(env, point, PointK(env, policy, point), hnsw)].p99 <= current.value.p99
  }

  function PointAnn(env: Env, policy: KPolicy, hnsw: Hnsw, point: Point): Summary
    requires PointGates(env, policy, hnsw, point)
  {
    env.lookup[AnnCell(env, point, PointK(env, policy, point), hnsw)]
  }

  function PointRatio(env: Env, policy: KPolicy, hnsw: Hnsw, point: Point): real
    requires PointGates(env, policy, hnsw, point)
  {
    PointAnn(env, policy, hnsw, point).p95 / FastestExact(env, point).value.p95
  }
}
