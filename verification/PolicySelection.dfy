/** The stored policy: its structure check, the runtime lookup, and why the two fit together. */
module PolicySelection {
  import opened Wrappers
  import opened PolicyGates
  import opened PolicySynthesis
  import opened PolicyTable
  import opened PolicyTiling
  import opened ConsolidationFacts
  import opened CellFacts
  import opened RecallSummaries

  datatype AnnSettings = AnnSettings(kPolicy: KPolicy, hnsw: Hnsw, recall: real, recallLower: real)

  /** A rule as stored; `ann` is present for the approximate plan. */
  datatype PolicyRule = PolicyRule(box: Box, plan: SearchPlan, ann: Option<AnnSettings>)

  datatype Policy = Policy(version: nat, vectorVersion: nat, manifest: nat, validatedMax: nat,
                           rules: seq<PolicyRule>)

  const EXPERIMENT_VERSION: nat := 1
  const RATIO_TOP := 1.0000001

  predicate HnswValid(h: Hnsw) {
    h.efSearch > 0 && h.maxTuples > 0 && h.scan < 2
  }

  predicate BandValid(b: Band) {
    0.0 <= b.lo < b.hi <= RATIO_TOP
  }

  predicate RuleValid(rule: PolicyRule, validatedMax: nat) {
    && 1 <= rule.box.minUsers <= rule.box.maxUsers <= validatedMax
    && BandValid(rule.box.hardBand) && BandValid(rule.box.expectedBand)
    && rule.plan != CurrentRuntime
    && (rule.plan == AnnFirst ==>
          && rule.ann.Some?
          && rule.ann.value.kPolicy.Valid() && HnswValid(rule.ann.value.hnsw)
          && TARGET_RECALL <= rule.ann.value.recallLower <= rule.ann.value.recall <= 1.0)
  }

  predicate BandsOverlap(a: Band, b: Band) {
    (if a.lo > b.lo then a.lo else b.lo) < (if a.hi < b.hi then a.hi else b.hi)
  }

  predicate BoxesOverlap(a: Box, b: Box) {
    && Max(a.minUsers, b.minUsers) <= Min(a.maxUsers, b.maxUsers)
    && BandsOverlap(a.hardBand, b.hardBand) && BandsOverlap(a.expectedBand, b.expectedBand)
  }

  predicate RulesApart(rules: seq<PolicyRule>) {
    forall i, j :: 0 <= i < j < |rules| ==> !BoxesOverlap(rules[i].box, rules[j].box)
  }

  predicate StructureValid(policy: Policy) {
    && policy.validatedMax > 0
    && (forall i :: 0 <= i < |policy.rules| ==> RuleValid(policy.rules[i], policy.validatedMax))
    && RulesApart(policy.rules)
  }

  /** `validate_policy_structure`: each rule in turn, then every pair. */
  method ValidatePolicyStructure(policy: Policy) returns (valid: bool)
    ensures valid <==> StructureValid(policy)
  {
    if policy.validatedMax == 0 {
      return false;
    }
    for i := 0 to |policy.rules|
      invariant forall k :: 0 <= k < i ==> RuleValid(policy.rules[k], policy.validatedMax)
    {
      if !RuleValid(policy.rules[i], policy.validatedMax) {
        return false;
      }
    }
    for i := 0 to |policy.rules|
      invariant forall k, j :: 0 <= k < i && k < j < |policy.rules| ==>
                  !BoxesOverlap(policy.rules[k].box, policy.rules[j].box)
    {
      for j := i + 1 to |policy.rules|
        invariant forall k :: i < k < j ==> !BoxesOverlap(policy.rules[i].box, policy.rules[k].box)
      {
        if BoxesOverlap(policy.rules[i].box, policy.rules[j].box) {
          return false;
        }
      }
    }
    valid := true;
  }

  // ---------------------------------------------------------------------------
  // The runtime lookup
  // ---------------------------------------------------------------------------

  datatype Reason =
    | VersionMismatch | VectorMismatch | ManifestMismatch | StructureInvalid | OutsideRange
    | AnnRuleInvalid | FractionExceeded | NoValidatedRule

  datatype PolicyDecision = PolicyDecision(plan: SearchPlan, k: Option<nat>, hnsw: Option<Hnsw>,
                                           ruleIndex: Option<nat>, reason: Option<Reason>)

  function ExactFallback(reason: Reason): PolicyDecision {
    PolicyDecision(ExactAll, None, None, None, Some(reason))
  }

  datatype Inputs = Inputs(corpus: Users, hardMatch: nat, passRate: real, vectorVersion: nat,
                           manifest: nat)
  {
    predicate Valid() {
      hardMatch <= corpus && 0.0 <= passRate <= 1.0
    }

    function ExpectedCount(): real {
      hardMatch as real * passRate
    }

    function Ratios(): Query {
      Query(corpus, hardMatch as real / corpus as real, ExpectedCount() / corpus as real)
    }
  }

  function FirstMatch(rules: seq<PolicyRule>, q: Query, from: nat): (r: Option<nat>)
    requires from <= |rules|
    ensures r.Some? ==> from <= r.value < |rules| && Inside(rules[r.value].box, q)
    ensures r.Some? ==> forall i :: from <= i < r.value ==> !Inside(rules[i].box, q)
    ensures r.None? ==> forall i :: from <= i < |rules| ==> !Inside(rules[i].box, q)
    decreases |rules| - from
  {
    if from == |rules| then None
    else if Inside(rules[from].box, q) then Some(from)
    else FirstMatch(rules, q, from + 1)
  }

  function DecisionOf(rule: PolicyRule, index: nat, inputs: Inputs): PolicyDecision {
    if rule.plan != AnnFirst then PolicyDecision(rule.plan, None, None, Some(index), None)
    else if rule.ann.None? then ExactFallback(AnnRuleInvalid)
    else
      var k := ProposedK(rule.ann.value.kPolicy, inputs.corpus, inputs.ExpectedCount());
      if k.None? then ExactFallback(FractionExceeded)
      else PolicyDecision(AnnFirst, k, Some(rule.ann.value.hnsw), Some(index), None)
  }

  /** `select_policy` on inputs that passed its argument checks. */
  function SelectPolicy(policy: Policy, inputs: Inputs): PolicyDecision
    requires inputs.Valid()
  {
    if policy.version != EXPERIMENT_VERSION then ExactFallback(VersionMismatch)
    else if policy.vectorVersion != inputs.vectorVersion then ExactFallback(VectorMismatch)
    else if policy.manifest != inputs.manifest then ExactFallback(ManifestMismatch)
    else if !StructureValid(policy) then ExactFallback(StructureInvalid)
    else if inputs.corpus > policy.validatedMax then ExactFallback(OutsideRange)
    else
      var found := FirstMatch(policy.rules, inputs.Ratios(), 0);
      if found.None? then ExactFallback(NoValidatedRule)
      else DecisionOf(policy.rules[found.value], found.value, inputs)
  }

  /** In a policy that passes the structure check no input matches two rules. */
  lemma AtMostOneRule(policy: Policy, q: Query, i: nat, j: nat)
    requires StructureValid(policy) && i < |policy.rules| && j < |policy.rules|
    requires Inside(policy.rules[i].box, q) && Inside(policy.rules[j].box, q)
    ensures i == j
  {
    SharedInputOverlaps(policy.rules[i].box, policy.rules[j].box, q);
    SharedInputOverlaps(policy.rules[j].box, policy.rules[i].box, q);
  }

  lemma SharedInputOverlaps(a: Box, b: Box, q: Query)
    requires Inside(a, q) && Inside(b, q)
    ensures BoxesOverlap(a, b)
  {
  }

  /** Reordering the rules of a policy changes nothing but the reported index. */
  lemma SelectionIgnoresRuleOrder(a: Policy, b: Policy, inputs: Inputs)
    requires inputs.Valid() && StructureValid(a) && StructureValid(b)
    requires b == a.(rules := b.rules)
    requires forall rule :: rule in a.rules <==> rule in b.rules
    ensures var d, e := SelectPolicy(a, inputs), SelectPolicy(b, inputs);
            d.(ruleIndex := None) == e.(ruleIndex := None)
  {
    var q := inputs.Ratios();
    var f, g := FirstMatch(a.rules, q, 0), FirstMatch(b.rules, q, 0);
    if f.Some? || g.Some? {
      HitsTransfer(if f.Some? then a.rules else b.rules, if f.Some? then b.rules else a.rules, q);
    }
    if f.Some? {
      assert a.rules[f.value] in b.rules;
      var j :| 0 <= j < |b.rules| && b.rules[j] == a.rules[f.value];
      AtMostOneRule(b, q, j, g.value);
    }
  }

  lemma HitsTransfer(a: seq<PolicyRule>, b: seq<PolicyRule>, q: Query)
    requires forall rule :: rule in a ==> rule in b
    requires exists i :: 0 <= i < |a| && Inside(a[i].box, q)
    ensures exists j :: 0 <= j < |b| && Inside(b[j].box, q)
  {
    var i :| 0 <= i < |a| && Inside(a[i].box, q);
    assert a[i] in b;
  }

  /** An approximate answer always comes from a validated rule, within its corpus fraction. */
  lemma ApproximateAnswersAreBounded(policy: Policy, inputs: Inputs)
    requires inputs.Valid() && SelectPolicy(policy, inputs).plan == AnnFirst
    ensures var d := SelectPolicy(policy, inputs);
            && StructureValid(policy) && inputs.corpus <= policy.validatedMax
            && d.ruleIndex.Some? && d.ruleIndex.value < |policy.rules|
            && var rule := policy.rules[d.ruleIndex.value];
               && rule.plan == AnnFirst && rule.ann.Some? && Inside(rule.box, inputs.Ratios())
               && TARGET_RECALL <= rule.ann.value.recallLower
               && d.k.Some? && 0 < d.k.value
               && d.k.value as real <= rule.ann.value.kPolicy.fraction * inputs.corpus as real
               && d.hnsw == Some(rule.ann.value.hnsw)
  {
  }

  // ---------------------------------------------------------------------------
  // The synthesised policy
  // ---------------------------------------------------------------------------

  /** `_rule_payload`. */
  function RulePayload(c: Candidate): PolicyRule {
    PolicyRule(BoxOf(Rule(c)), c.plan,
               if c.plan == AnnFirst && c.kPolicy.Some? && c.hnsw.Some? then
                 Some(AnnSettings(c.kPolicy.value, c.hnsw.value, c.recall, c.recallLower))
               else None)
  }

  function Payloads(rules: seq<Candidate>): seq<PolicyRule> {
    seq(|rules|, i requires 0 <= i < |rules| => RulePayload(rules[i]))
  }

  /** What a usable configuration and a sound set of summaries look like. */
  ghost predicate ConfigValid(config: Config) {
    && config.targetRecall >= TARGET_RECALL
    && BandsValid(config.hardBands) && BandsValid(config.expectedBands)
  }

  ghost predicate BandsValid(bands: seq<Band>) {
    && (forall i :: 0 <= i < |bands| ==> BandValid(bands[i]))
    && (forall i, j :: 0 <= i < j < |bands| ==> !BandsOverlap(bands[i], bands[j]))
  }

  /** The summaries of approximate cells come from runs, and index settings are checked on load. */
  ghost predicate SummariesComputed(env: Env, zSquared: real) {
    forall cell <- env.lookup :: cell.plan == AnnFirst ==>
      && (exists runs :: Summarises(env.lookup[cell], runs, zSquared))
      && (cell.hnsw.Some? ==> HnswValid(cell.hnsw.value))
  }

  lemma ComputedAreSound(env: Env, zSquared: real)
    requires SummariesComputed(env, zSquared)
    ensures SummariesSound(env)
  {
    forall cell | cell in env.lookup && cell.plan == AnnFirst
      ensures env.lookup[cell].recallLower <= env.lookup[cell].recall <= 1.0
    {
      var runs :| Summarises(env.lookup[cell], runs, zSquared);
      LeastBounds(runs, zSquared);
    }
  }

  ghost predicate SummariesSound(env: Env) {
    forall cell <- env.lookup :: cell.plan == AnnFirst ==>
      && env.lookup[cell].recallLower <= env.lookup[cell].recall <= 1.0
      && (cell.hnsw.Some? ==> HnswValid(cell.hnsw.value))
  }

  /** The synthesis as a whole: decide every cell, then consolidate the approximate rules. */
  method Synthesize(env: Env, points: seq<Point>, sizes: seq<Users>)
    returns (rules: seq<Candidate>, falls: seq<Fallback>, ghost ds: seq<Decided>)
    ensures SizesDecided(env, points, sizes, ds, |sizes|)
    ensures falls == FallsIn(ds)
    ensures rules == RulesIn(ds)
            || exists hnsw :: hnsw in Settings(env) && rules == WithHnsw(RulesIn(ds), hnsw)
    ensures AllEvidence(env, rules)
    ensures Consolidated(env, RulesIn(ds), rules)
    ensures AllRestOnFacts(env, rules)
    ensures EachDecided(env, points, sizes, ds)
  {
    var decided := DecideAll(env, points, sizes);
    ds := decided;
    var candidates := RulesIn(decided);
    falls := FallsIn(decided);
    DecidedHaveEvidence(env, points, sizes, ds);
    EachIsDecided(env, points, sizes, ds);
    rules := ConsolidateGlobalHnsw(env, candidates);
    ConsolidatedInFacts(env, candidates, rules);
    var eligible := EligibleOf(env, AnnsOf(candidates), Settings(env));
    if |AnnsOf(candidates)| >= 2 && eligible != {} {
      var best :| IsFirst(Some(best), eligible) && rules == WithHnsw(candidates, best.hnsw);
      assert best in eligible;
      ConsolidationKeepsEvidence(env, candidates, best.hnsw);
    }
    AllEvidenceIff(env, rules);
  }

  /** Every cell was decided as its points demand. */
  ghost predicate EachDecided(env: Env, points: seq<Point>, sizes: seq<Users>, ds: seq<Decided>) {
    forall a :: 0 <= a < |ds| ==>
      && ds[a].size < |sizes|
      && Decides(env, points, sizes, ds[a].size, ds[a].hardBand, ds[a].expectedBand, ds[a].decision)
  }

  lemma EachIsDecided(env: Env, points: seq<Point>, sizes: seq<Users>, ds: seq<Decided>)
    requires SizesDecided(env, points, sizes, ds, |sizes|)
    ensures EachDecided(env, points, sizes, ds)
  {
    DecidedEach(env, points, sizes, ds, |sizes|);
    forall a | 0 <= a < |ds|
      ensures ds[a].size < |sizes|
      ensures Decides(env, points, sizes, ds[a].size, ds[a].hardBand, ds[a].expectedBand,
                      ds[a].decision)
    {
      assert WellDecidedSomewhere(env, points, sizes, ds[a]);
      DecidedInFacts(env, points, sizes, ds[a].size, ds[a].hardBand, ds[a].expectedBand,
                     ds[a].decision);
    }
  }

  /** Every decision was made well for some size and some pair of configured bands. */
  ghost predicate WellDecidedSomewhere(env: Env, points: seq<Point>, sizes: seq<Users>, d: Decided) {
    && d.size < |sizes|
    && d.hardBand in env.config.hardBands && d.expectedBand in env.config.expectedBands
    && DecidedWell(env, points, sizes, d.size, d.hardBand, d.expectedBand, d.decision)
  }

  lemma {:induction false} HardDecidedEach(env: Env, points: seq<Point>, sizes: seq<Users>,
                                           ds: seq<Decided>, size: nat, hardBands: seq<Band>)
    requires size < |sizes| && HardDecided(env, points, sizes, ds, size, hardBands)
    requires forall b :: b in hardBands ==> b in env.config.hardBands
    ensures forall a :: 0 <= a < |ds| ==>
              ds[a].size == size && WellDecidedSomewhere(env, points, sizes, ds[a])
    ensures forall a :: 0 <= a < |ds| ==> ds[a].hardBand in hardBands
    decreases |hardBands|
  {
    if hardBands != [] {
      var n := |env.config.expectedBands|;
      HardDecidedEach(env, points, sizes, ds[..|ds| - n], size, hardBands[..|hardBands| - 1]);
      var last := ds[|ds| - n..];
      forall a | 0 <= a < |ds|
        ensures ds[a].size == size && WellDecidedSomewhere(env, points, sizes, ds[a])
        ensures ds[a].hardBand in hardBands
      {
        if a < |ds| - n {
          assert ds[a] == ds[..|ds| - n][a];
        } else {
          assert ds[a] == last[a - (|ds| - n)];
          assert hardBands[|hardBands| - 1] in hardBands;
        }
      }
    }
  }

  lemma {:induction false} DecidedEach(env: Env, points: seq<Point>, sizes: seq<Users>,
                                       ds: seq<Decided>, count: nat)
    requires count <= |sizes| && SizesDecided(env, points, sizes, ds, count)
    ensures forall a :: 0 <= a < |ds| ==>
              ds[a].size < count && WellDecidedSomewhere(env, points, sizes, ds[a])
    decreases count
  {
    if count != 0 {
      var m :| 0 <= m <= |ds| && LastSizeAt(env, points, sizes, ds, count, m);
      var front, last := ds[..m], ds[m..];
      DecidedEach(env, points, sizes, front, count - 1);
      HardDecidedEach(env, points, sizes, last, count - 1, env.config.hardBands);
      assert ds == front + last;
      BothDecided(env, points, sizes, front, last, count);
    }
  }

  lemma BothDecided(env: Env, points: seq<Point>, sizes: seq<Users>, front: seq<Decided>,
                    last: seq<Decided>, count: nat)
    requires forall a :: 0 <= a < |front| ==>
               front[a].size < count && WellDecidedSomewhere(env, points, sizes, front[a])
    requires forall a :: 0 <= a < |last| ==>
               last[a].size < count && WellDecidedSomewhere(env, points, sizes, last[a])
    ensures forall a :: 0 <= a < |front + last| ==>
              && (front + last)[a].size < count
              && WellDecidedSomewhere(env, points, sizes, (front + last)[a])
  {
  }

  lemma {:induction false} RulesAreDecided(ds: seq<Decided>, c: Candidate)
    requires c in RulesIn(ds)
    ensures exists a :: 0 <= a < |ds| && ds[a].decision == Rule(c)
  {
    var front, last := ds[..|ds| - 1], ds[|ds| - 1];
    if c in RulesIn(front) {
      RulesAreDecided(front, c);
      var a :| 0 <= a < |front| && front[a].decision == Rule(c);
      assert ds[a].decision == Rule(c);
    } else {
      assert ds[|ds| - 1].decision == Rule(c);
    }
  }

  lemma DecidedHaveEvidence(env: Env, points: seq<Point>, sizes: seq<Users>, ds: seq<Decided>)
    requires SizesDecided(env, points, sizes, ds, |sizes|)
    ensures AllEvidence(env, RulesIn(ds))
  {
    DecidedEach(env, points, sizes, ds, |sizes|);
    var rules := RulesIn(ds);
    forall i | 0 <= i < |rules| && rules[i].plan == AnnFirst
      ensures Evidence(env, rules[i])
    {
      RulesAreDecided(ds, rules[i]);
      var a :| 0 <= a < |ds| && ds[a].decision == Rule(rules[i]);
      DecisionFacts(env, points, sizes, ds[a].size, ds[a].hardBand, ds[a].expectedBand,
                    ds[a].decision);
    }
  }

  // ---------------------------------------------------------------------------
  // The synthesised policy passes its own check
  // ---------------------------------------------------------------------------

  ghost predicate BoxesApart(ds: seq<Decided>) {
    forall a, b :: 0 <= a < b < |ds| ==>
      !BoxesOverlap(BoxOf(ds[a].decision), BoxOf(ds[b].decision))
  }

  lemma FrontBoxBands(env: Env, points: seq<Point>, sizes: seq<Users>, ds: seq<Decided>, size: nat,
                      hardBands: seq<Band>)
    requires size < |sizes| && HardDecided(env, points, sizes, ds, size, hardBands)
    requires forall b :: b in hardBands ==> b in env.config.hardBands
    ensures forall a :: 0 <= a < |ds| ==> BoxOf(ds[a].decision).hardBand in hardBands
  {
    HardDecidedEach(env, points, sizes, ds, size, hardBands);
    forall a | 0 <= a < |ds|
      ensures BoxOf(ds[a].decision).hardBand in hardBands
    {
      DecisionFacts(env, points, sizes, size, ds[a].hardBand, ds[a].expectedBand, ds[a].decision);
    }
  }

  /** One more hard band keeps the boxes apart. */
  lemma LastBandApart(env: Env, points: seq<Point>, sizes: seq<Users>, ds: seq<Decided>, size: nat,
                      front: seq<Decided>, fewer: seq<Band>, band: Band)
    requires size < |sizes| && HardDecided(env, points, sizes, front, size, fewer)
    requires (forall b :: b in fewer ==> b in env.config.hardBands) && BandsValid(fewer + [band])
    requires BandsValid(env.config.expectedBands) && BoxesApart(front) && front <= ds
    requires BandsDecided(env, points, sizes, ds[|front|..], size, band, env.config.expectedBands)
    ensures BoxesApart(ds)
  {
    var last := ds[|front|..];
    FrontBoxBands(env, points, sizes, front, size, fewer);
    BandBoxes(env, points, sizes, last, size, band, env.config.expectedBands);
    FewerBandsApart(fewer + [band], fewer, band);
    ApartFromLast(ds, front, last, band, fewer);
  }

  lemma {:induction false} HardBoxesApart(env: Env, points: seq<Point>, sizes: seq<Users>,
                                          ds: seq<Decided>, size: nat, hardBands: seq<Band>)
    requires size < |sizes| && HardDecided(env, points, sizes, ds, size, hardBands)
    requires forall b :: b in hardBands ==> b in env.config.hardBands
    requires BandsValid(hardBands) && BandsValid(env.config.expectedBands)
    ensures BoxesApart(ds)
    decreases |hardBands|
  {
    if hardBands != [] {
      var n := |env.config.expectedBands|;
      var front, fewer := ds[..|ds| - n], hardBands[..|hardBands| - 1];
      HardBoxesApart(env, points, sizes, front, size, fewer);
      assert hardBands == fewer + [hardBands[|hardBands| - 1]];
      LastBandApart(env, points, sizes, ds, size, front, fewer, hardBands[|hardBands| - 1]);
    }
  }

  lemma FewerBandsApart(bands: seq<Band>, fewer: seq<Band>, last: Band)
    requires bands == fewer + [last] && BandsValid(bands)
    ensures forall b :: b in fewer ==> !BandsOverlap(b, last)
  {
    forall b | b in fewer
      ensures !BandsOverlap(b, last)
    {
      var i :| 0 <= i < |fewer| && fewer[i] == b;
      assert bands[i] == b && bands[|fewer|] == last;
    }
  }

  lemma BandBoxes(env: Env, points: seq<Point>, sizes: seq<Users>, ds: seq<Decided>, size: nat,
                  hardBand: Band, bands: seq<Band>)
    requires size < |sizes| && BandsDecided(env, points, sizes, ds, size, hardBand, bands)
    requires BandsValid(bands)
    ensures forall a :: 0 <= a < |ds| ==> BoxOf(ds[a].decision).hardBand == hardBand
    ensures BoxesApart(ds)
  {
    forall a | 0 <= a < |ds|
      ensures BoxOf(ds[a].decision) == CellBox(sizes, size, hardBand, bands[a])
    {
      DecisionFacts(env, points, sizes, size, hardBand, bands[a], ds[a].decision);
    }
  }

  lemma ApartFromLast(ds: seq<Decided>, front: seq<Decided>, last: seq<Decided>, band: Band,
                      fewer: seq<Band>)
    requires ds == front + last && BoxesApart(front) && BoxesApart(last)
    requires forall a :: 0 <= a < |last| ==> BoxOf(last[a].decision).hardBand == band
    requires forall a :: 0 <= a < |front| ==> BoxOf(front[a].decision).hardBand in fewer
    requires forall b :: b in fewer ==> !BandsOverlap(b, band)
    ensures BoxesApart(ds)
  {
    forall a, b | 0 <= a < b < |ds|
      ensures !BoxesOverlap(BoxOf(ds[a].decision), BoxOf(ds[b].decision))
    {
      if b < |front| {
        assert ds[a] == front[a] && ds[b] == front[b];
      } else if a < |front| {
        assert ds[a] == front[a] && ds[b] == last[b - |front|];
      } else {
        assert ds[a] == last[a - |front|] && ds[b] == last[b - |front|];
      }
    }
  }

  lemma {:induction false} AllBoxesApart(env: Env, points: seq<Point>, sizes: seq<Users>,
                                         ds: seq<Decided>, count: nat)
    requires count <= |sizes| && Ascending(sizes)
    requires SizesDecided(env, points, sizes, ds, count)
    requires BandsValid(env.config.hardBands) && BandsValid(env.config.expectedBands)
    ensures BoxesApart(ds)
    decreases count
  {
    if count != 0 {
      var m :| 0 <= m <= |ds| && LastSizeAt(env, points, sizes, ds, count, m);
      var front, last := ds[..m], ds[m..];
      AllBoxesApart(env, points, sizes, front, count - 1);
      DecidedEach(env, points, sizes, front, count - 1);
      HardBoxesApart(env, points, sizes, last, count - 1, env.config.hardBands);
      HardDecidedEach(env, points, sizes, last, count - 1, env.config.hardBands);
      forall a, b | 0 <= a < b < |ds|
        ensures !BoxesOverlap(BoxOf(ds[a].decision), BoxOf(ds[b].decision))
      {
        if b < m {
          assert ds[a] == front[a] && ds[b] == front[b];
        } else if a < m {
          assert ds[a] == front[a] && ds[b] == last[b - m];
          SizesKeepBoxesApart(env, points, sizes, ds[a], ds[b]);
        } else {
          assert ds[a] == last[a - m] && ds[b] == last[b - m];
        }
      }
    }
  }

  lemma SizesKeepBoxesApart(env: Env, points: seq<Point>, sizes: seq<Users>, d: Decided, e: Decided)
    requires Ascending(sizes) && d.size < e.size
    requires WellDecidedSomewhere(env, points, sizes, d)
    requires WellDecidedSomewhere(env, points, sizes, e)
    ensures !BoxesOverlap(BoxOf(d.decision), BoxOf(e.decision))
  {
    DecisionFacts(env, points, sizes, d.size, d.hardBand, d.expectedBand, d.decision);
    DecisionFacts(env, points, sizes, e.size, e.hardBand, e.expectedBand, e.decision);
    assert d.size == e.size - 1 || sizes[d.size] < sizes[e.size - 1];
  }

  lemma {:induction false} RulesStayApart(ds: seq<Decided>)
    requires BoxesApart(ds)
    ensures forall i, j :: 0 <= i < j < |RulesIn(ds)| ==>
              !BoxesOverlap(BoxOf(Rule(RulesIn(ds)[i])), BoxOf(Rule(RulesIn(ds)[j])))
  {
    if ds != [] {
      var front, last := ds[..|ds| - 1], ds[|ds| - 1];
      RulesStayApart(front);
      forall i | 0 <= i < |RulesIn(front)| && last.decision.Rule?
        ensures !BoxesOverlap(BoxOf(Rule(RulesIn(front)[i])), BoxOf(last.decision))
      {
        RulesAreDecided(front, RulesIn(front)[i]);
        var a :| 0 <= a < |front| && front[a].decision == Rule(RulesIn(front)[i]);
        assert !BoxesOverlap(BoxOf(ds[a].decision), BoxOf(ds[|ds| - 1].decision));
      }
    }
  }

  /** The grid only holds usable K policies. */
  lemma GridPoliciesValid(env: Env, choice: Choice)
    requires choice in Choices(env, MINIMUM_GRID)
    ensures choice.0.Valid() && choice.1 in Settings(env)
  {
  }

  lemma SettingsValid(env: Env, h: Hnsw)
    requires SummariesSound(env) && h in Settings(env)
    ensures HnswValid(h)
  {
    var cell :| cell in env.lookup && cell.plan == AnnFirst && cell.hnsw == Some(h);
  }

  /** The scores of a passing choice meet the configured recall target. */
  lemma ScoresMeetTarget(env: Env, policy: KPolicy, hnsw: Hnsw, points: seq<Point>)
    requires SummariesSound(env) && points != [] && AllPass(env, policy, hnsw, points)
    ensures var s := ScoresOf(env, policy, hnsw, points);
            env.config.targetRecall <= s.lower <= s.recall <= 1.0
  {
    ScoresAreExtremes(env, policy, hnsw, points);
    var s := ScoresOf(env, policy, hnsw, points);
    var i :| 0 <= i < |points| && PointScores(env, policy, hnsw, points[i]).lower == s.lower;
    var j :| 0 <= j < |points| && PointScores(env, policy, hnsw, points[j]).recall == s.recall;
    assert PointGates(env, policy, hnsw, points[i]) && PointGates(env, policy, hnsw, points[j]);
    assert AnnCell(env, points[j], PointK(env, policy, points[j]), hnsw) in env.lookup;
  }

  /** A synthesised rule is valid on its own. */
  lemma DecidedRuleValid(env: Env, points: seq<Point>, sizes: seq<Users>, d: Decided)
    requires Ascending(sizes) && sizes != [] && ConfigValid(env.config) && SummariesSound(env)
    requires WellDecidedSomewhere(env, points, sizes, d) && d.decision.Rule?
    ensures RuleValid(RulePayload(d.decision.candidate), sizes[|sizes| - 1])
    ensures d.decision.candidate.plan == AnnFirst ==>
              d.decision.candidate.kPolicy.Some? && d.decision.candidate.hnsw.Some?
  {
    DecisionFacts(env, points, sizes, d.size, d.hardBand, d.expectedBand, d.decision);
    var c := d.decision.candidate;
    BucketInRange(sizes, d.size);
    if c.plan == AnnFirst {
      var box := CellBox(sizes, d.size, d.hardBand, d.expectedBand);
      var boundary := BoundaryPoints(points, sizes, d.size, d.hardBand, d.expectedBand);
      assert c in Passing(env, box, boundary, Choices(env, MINIMUM_GRID));
      var choice :| choice in Choices(env, MINIMUM_GRID) && AllPass(env, choice.0, choice.1, boundary)
        && c == CandidateFor(box, choice.0, choice.1, boundary,
                             ScoresOf(env, choice.0, choice.1, boundary));
      GridPoliciesValid(env, choice);
      SettingsValid(env, choice.1);
      ScoresMeetTarget(env, choice.0, choice.1, boundary);
    }
  }

  lemma BucketInRange(sizes: seq<Users>, i: nat)
    requires Ascending(sizes) && i < |sizes|
    ensures forall h, e :: var box := CellBox(sizes, i, h, e);
              1 <= box.minUsers <= box.maxUsers <= sizes[|sizes| - 1]
  {
    assert i > 0 ==> sizes[i - 1] < sizes[i];
    assert sizes[i] <= sizes[|sizes| - 1];
  }

  /** The policy made of the synthesised rules, before or after consolidation. */
  ghost predicate Synthesised(env: Env, points: seq<Point>, sizes: seq<Users>, ds: seq<Decided>,
                              rules: seq<Candidate>, policy: Policy)
  {
    && Ascending(sizes) && sizes != []
    && SizesDecided(env, points, sizes, ds, |sizes|)
    && (rules == RulesIn(ds)
        || exists hnsw :: hnsw in Settings(env) && rules == WithHnsw(RulesIn(ds), hnsw))
    && policy.validatedMax == sizes[|sizes| - 1]
    && policy.rules == Payloads(rules)
  }

  lemma ConsolidatedKeepsBoxes(env: Env, points: seq<Point>, sizes: seq<Users>, ds: seq<Decided>,
                               rules: seq<Candidate>, policy: Policy)
    requires Synthesised(env, points, sizes, ds, rules, policy)
    ensures |rules| == |RulesIn(ds)|
    ensures forall i :: 0 <= i < |rules| ==>
              && BoxOf(Rule(rules[i])) == BoxOf(Rule(RulesIn(ds)[i]))
              && policy.rules[i].box == BoxOf(Rule(rules[i]))
  {
  }

  /** Synthesis never emits a policy that its own structure check rejects. */
  lemma SynthesisedPolicyIsValid(env: Env, points: seq<Point>, sizes: seq<Users>, ds: seq<Decided>,
                                 rules: seq<Candidate>, policy: Policy, zSquared: real)
    requires ConfigValid(env.config) && SummariesComputed(env, zSquared)
    requires Synthesised(env, points, sizes, ds, rules, policy)
    ensures StructureValid(policy)
  {
    ComputedAreSound(env, zSquared);
    ConsolidatedKeepsBoxes(env, points, sizes, ds, rules, policy);
    AllBoxesApart(env, points, sizes, ds, |sizes|);
    RulesStayApart(ds);
    DecidedEach(env, points, sizes, ds, |sizes|);
    forall i | 0 <= i < |policy.rules|
      ensures RuleValid(policy.rules[i], policy.validatedMax)
    {
      RulesAreDecided(ds, RulesIn(ds)[i]);
      var a :| 0 <= a < |ds| && ds[a].decision == Rule(RulesIn(ds)[i]);
      DecidedRuleValid(env, points, sizes, ds[a]);
      if rules != RulesIn(ds) {
        var hnsw :| hnsw in Settings(env) && rules == WithHnsw(RulesIn(ds), hnsw);
        SettingsValid(env, hnsw);
      }
    }
  }

  // ---------------------------------------------------------------------------
  // Fallback boxes are answered exactly
  // ---------------------------------------------------------------------------

  lemma {:induction false} NoHitsNoMatch(rules: seq<Candidate>, q: Query)
    ensures RuleHits(rules, q) == 0
       <==> forall i :: 0 <= i < |rules| ==> !Inside(BoxOf(Rule(rules[i])), q)
  {
    if rules != [] {
      NoHitsNoMatch(rules[..|rules| - 1], q);
      assert forall i :: 0 <= i < |rules| - 1 ==> rules[..|rules| - 1][i] == rules[i];
    }
  }

  /**
   Where the bands cover both ratios once, the runtime picks a rule exactly on the inputs that no
   fallback record covers; on every fallback record it answers with the exact plan.
   */
  lemma FallbackBoxesAnswerExactly(env: Env, points: seq<Point>, sizes: seq<Users>,
                                   ds: seq<Decided>, rules: seq<Candidate>, policy: Policy,
                                   inputs: Inputs)
    requires Synthesised(env, points, sizes, ds, rules, policy) && inputs.Valid()
    requires BandHits(env.config.hardBands, inputs.Ratios().hard) == 1
    requires BandHits(env.config.expectedBands, inputs.Ratios().expected) == 1
    ensures var q := inputs.Ratios();
            var fallback := FallHits(FallsIn(ds), q) + ExtraHits(sizes, q.users) > 0;
            && (FirstMatch(policy.rules, q, 0).None? <==> fallback)
            && (fallback ==> SelectPolicy(policy, inputs).plan == ExactAll
                             && SelectPolicy(policy, inputs).ruleIndex.None?)
  {
    var q := inputs.Ratios();
    TableTilesInputs(env, points, sizes, ds, q);
    NoHitsNoMatch(RulesIn(ds), q);
    ConsolidatedKeepsBoxes(env, points, sizes, ds, rules, policy);
  }
}
