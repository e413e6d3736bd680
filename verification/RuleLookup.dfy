/** The structure check and the runtime lookup in the columns of the policy and the inputs. */
module RuleLookup {
  import opened Wrappers
  import opened PolicyGates
  import opened PolicyFacts
  import opened PolicySynthesis
  import opened PolicyTiling
  import opened PolicySelection
  import RecallGate

  // ---------------------------------------------------------------------------
  // The structure check
  // ---------------------------------------------------------------------------

  /** The box lies in the validated range and in the unit square, give or take its upper end. */
  predicate BoxInRange(box: Box, validatedMax: nat) {
    && 1 <= box.minUsers <= box.maxUsers <= validatedMax
    && 0.0 <= box.hardBand.lo < box.hardBand.hi <= 1.0000001
    && 0.0 <= box.expectedBand.lo < box.expectedBand.hi <= 1.0000001
  }

  /** An approximate rule has usable numbers and a recall that reaches 0.95. */
  predicate SettingsInOrder(ann: AnnSettings) {
    && ann.kPolicy.minCandidates > 0 && ann.kPolicy.safety > 0.0
    && 0.0 < ann.kPolicy.fraction <= 1.0
    && ann.hnsw.efSearch > 0 && ann.hnsw.maxTuples > 0 && ann.hnsw.scan in {0, 1}
    && 0.95 <= ann.recallLower <= ann.recall <= 1.0
  }

  predicate WellFormed(rule: PolicyRule, validatedMax: nat) {
    && BoxInRange(rule.box, validatedMax)
    && rule.plan in {ExactAll, FilterFirstExact, AnnFirst}
    && (rule.plan == AnnFirst ==> rule.ann.Some? && SettingsInOrder(rule.ann.value))
  }

  /** The corpus and the two ratios are in the box. */
  predicate Admits(box: Box, users: nat, hard: real, expected: real) {
    && box.minUsers <= users <= box.maxUsers
    && box.hardBand.lo <= hard < box.hardBand.hi
    && box.expectedBand.lo <= expected < box.expectedBand.hi
  }

  /** Some input is in both boxes. */
  ghost predicate ShareInput(a: Box, b: Box) {
    exists users, hard, expected ::
      Admits(a, users, hard, expected) && Admits(b, users, hard, expected)
  }

  lemma OverlapIff(a: Box, b: Box, validatedMax: nat)
    requires BoxInRange(a, validatedMax) && BoxInRange(b, validatedMax)
    ensures BoxesOverlap(a, b) <==> ShareInput(a, b)
  {
    if BoxesOverlap(a, b) {
      var users := Max(a.minUsers, b.minUsers);
      var hard := if a.hardBand.lo > b.hardBand.lo then a.hardBand.lo else b.hardBand.lo;
      var expected := if a.expectedBand.lo > b.expectedBand.lo then a.expectedBand.lo
                      else b.expectedBand.lo;
      assert Admits(a, users, hard, expected) && Admits(b, users, hard, expected);
    }
  }

  /** The check accepts exactly the policies of well-formed rules of which no two share an input. */
  lemma StructureIff(policy: Policy)
    ensures StructureValid(policy)
       <==> && policy.validatedMax > 0
            && (forall i :: 0 <= i < |policy.rules| ==>
                  WellFormed(policy.rules[i], policy.validatedMax))
            && forall i, j :: 0 <= i < j < |policy.rules| ==>
                 !ShareInput(policy.rules[i].box, policy.rules[j].box)
  {
    forall i | 0 <= i < |policy.rules|
      ensures RuleValid(policy.rules[i], policy.validatedMax)
         <==> WellFormed(policy.rules[i], policy.validatedMax)
    {
    }
    if forall i :: 0 <= i < |policy.rules| ==> WellFormed(policy.rules[i], policy.validatedMax) {
      forall i, j | 0 <= i < j < |policy.rules|
        ensures BoxesOverlap(policy.rules[i].box, policy.rules[j].box)
           <==> ShareInput(policy.rules[i].box, policy.rules[j].box)
      {
        OverlapIff(policy.rules[i].box, policy.rules[j].box, policy.validatedMax);
      }
    }
  }

  /** A rule is stored with its box and settings, and with the least recall and bound of its points. */
  lemma StoredScores(env: Env, box: Box, points: seq<Point>, c: Candidate)
    requires Supports(env, box, points, c)
    ensures var rule := RulePayload(c);
            && rule.box == box && rule.plan == AnnFirst && rule.ann.Some?
            && c.kPolicy == Some(rule.ann.value.kPolicy) && c.hnsw == Some(rule.ann.value.hnsw)
            && Extremes(env, rule.ann.value.kPolicy, rule.ann.value.hnsw, points,
                        Scores(c.worstRatio, rule.ann.value.recall, rule.ann.value.recallLower))
  {
  }

  // ---------------------------------------------------------------------------
  // The lookup
  // ---------------------------------------------------------------------------

  /** The inputs that pass the argument checks. */
  predicate Asked(inputs: Inputs) {
    inputs.hardMatch <= inputs.corpus && 0.0 <= inputs.passRate <= 1.0
  }

  /** The policy is of the version, the vectors and the manifest asked for, and covers the corpus. */
  predicate Applies(policy: Policy, inputs: Inputs) {
    && policy.version == EXPERIMENT_VERSION
    && policy.vectorVersion == inputs.vectorVersion && policy.manifest == inputs.manifest
    && StructureValid(policy) && inputs.corpus <= policy.validatedMax
  }

  /** The corpus lies in the rule's range and both counts in its bands, taken as shares of the corpus. */
  predicate Covers(rule: PolicyRule, inputs: Inputs) {
    var n, expected := inputs.corpus as real, inputs.hardMatch as real * inputs.passRate;
    && rule.box.minUsers <= inputs.corpus <= rule.box.maxUsers
    && rule.box.hardBand.lo * n <= inputs.hardMatch as real < rule.box.hardBand.hi * n
    && rule.box.expectedBand.lo * n <= expected < rule.box.expectedBand.hi * n
  }

  lemma ShareInBand(count: real, n: real, band: Band)
    requires n > 0.0
    ensures band.Contains(count / n) <==> band.lo * n <= count < band.hi * n
  {
    RecallGate.QuotientAtLeast(count, n, band.lo);
    RecallGate.QuotientAtLeast(count, n, band.hi);
  }

  lemma InsideIff(rule: PolicyRule, inputs: Inputs)
    ensures Inside(rule.box, inputs.Ratios()) <==> Covers(rule, inputs)
  {
    ShareInBand(inputs.hardMatch as real, inputs.corpus as real, rule.box.hardBand);
    ShareInBand(inputs.hardMatch as real * inputs.passRate, inputs.corpus as real,
                rule.box.expectedBand);
  }

  /** The answer of a rule: its exact plan, or the count it means if that fits its fraction. */
  ghost predicate Answers(rule: PolicyRule, i: nat, inputs: Inputs, d: PolicyDecision) {
    if rule.plan != AnnFirst then d == PolicyDecision(rule.plan, None, None, Some(i), None)
    else
      && rule.ann.Some?
      && exists k: nat ::
           && IsCount(k, rule.ann.value.kPolicy, inputs.corpus, inputs.hardMatch, inputs.passRate)
           && d == if WithinFraction(k, rule.ann.value.kPolicy, inputs.corpus)
                   then PolicyDecision(AnnFirst, Some(k), Some(rule.ann.value.hnsw), Some(i), None)
                   else PolicyDecision(ExactAll, None, None, None, Some(FractionExceeded))
  }

  /** Some count is meant, whether or not it fits. */
  lemma SomeCount(policy: KPolicy, corpus: Users, hardMatch: nat, passRate: real, expected: real)
    returns (k: nat)
    requires expected == hardMatch as real * passRate
    ensures IsCount(k, policy, corpus, hardMatch, passRate)
  {
    var whole := policy.(fraction := 1.0);
    var proposed := ProposedK(whole, corpus, expected);
    assert proposed.Some?;
    k := proposed.value;
    ProposedIff(whole, corpus, hardMatch, passRate, expected, k);
    assert forall j: nat :: Ample(j, whole, hardMatch, passRate) == Ample(j, policy, hardMatch, passRate);
  }

  lemma OneCount(policy: KPolicy, corpus: Users, hardMatch: nat, passRate: real, j: nat, k: nat)
    requires IsCount(j, policy, corpus, hardMatch, passRate)
    requires IsCount(k, policy, corpus, hardMatch, passRate)
    ensures j == k
  {
  }

  lemma CountProposed(policy: KPolicy, corpus: Users, hardMatch: nat, passRate: real, expected: real)
    returns (k: nat)
    requires expected == hardMatch as real * passRate
    ensures IsCount(k, policy, corpus, hardMatch, passRate)
    ensures ProposedK(policy, corpus, expected)
         == if WithinFraction(k, policy, corpus) then Some(k) else None
  {
    k := SomeCount(policy, corpus, hardMatch, passRate, expected);
    ProposedIff(policy, corpus, hardMatch, passRate, expected, k);
    var proposed := ProposedK(policy, corpus, expected);
    if proposed.Some? {
      ProposedIff(policy, corpus, hardMatch, passRate, expected, proposed.value);
      OneCount(policy, corpus, hardMatch, passRate, k, proposed.value);
    }
  }

  lemma RuleAnswers(rule: PolicyRule, i: nat, inputs: Inputs)
    requires rule.plan == AnnFirst ==> rule.ann.Some?
    ensures Answers(rule, i, inputs, DecisionOf(rule, i, inputs))
  {
    if rule.plan == AnnFirst {
      var k := CountProposed(rule.ann.value.kPolicy, inputs.corpus, inputs.hardMatch,
                             inputs.passRate, inputs.ExpectedCount());
    }
  }

  /** Where the policy applies, the rule that covers the inputs answers, and if none does the exact plan. */
  lemma LookupAnswers(policy: Policy, inputs: Inputs)
    requires Asked(inputs) && Applies(policy, inputs)
    ensures forall i :: 0 <= i < |policy.rules| && Covers(policy.rules[i], inputs) ==>
              Answers(policy.rules[i], i, inputs, SelectPolicy(policy, inputs))
    ensures (forall i :: 0 <= i < |policy.rules| ==> !Covers(policy.rules[i], inputs)) ==>
              SelectPolicy(policy, inputs)
              == PolicyDecision(ExactAll, None, None, None, Some(NoValidatedRule))
  {
    var q := inputs.Ratios();
    forall i | 0 <= i < |policy.rules|
      ensures Inside(policy.rules[i].box, q) <==> Covers(policy.rules[i], inputs)
    {
      InsideIff(policy.rules[i], inputs);
    }
    var found := FirstMatch(policy.rules, q, 0);
    forall i | 0 <= i < |policy.rules| && Covers(policy.rules[i], inputs)
      ensures Answers(policy.rules[i], i, inputs, SelectPolicy(policy, inputs))
    {
      AtMostOneRule(policy, q, i, found.value);
      assert RuleValid(policy.rules[i], policy.validatedMax);
      RuleAnswers(policy.rules[i], i, inputs);
    }
  }

  /** The rule fits: it is exact, or its count is within its fraction of the corpus. */
  ghost predicate Fits(rule: PolicyRule, inputs: Inputs) {
    rule.plan == AnnFirst ==>
      && rule.ann.Some?
      && exists k: nat ::
           && IsCount(k, rule.ann.value.kPolicy, inputs.corpus, inputs.hardMatch, inputs.passRate)
           && WithinFraction(k, rule.ann.value.kPolicy, inputs.corpus)
  }

  /** Where the policy applies a rule is reported exactly when it covers the inputs and fits. */
  lemma ReportedIff(policy: Policy, inputs: Inputs, i: nat)
    requires Asked(inputs) && Applies(policy, inputs) && i < |policy.rules|
    ensures SelectPolicy(policy, inputs).ruleIndex == Some(i)
       <==> Covers(policy.rules[i], inputs) && Fits(policy.rules[i], inputs)
  {
    LookupAnswers(policy, inputs);
    var d := SelectPolicy(policy, inputs);
    if j :| 0 <= j < |policy.rules| && Covers(policy.rules[j], inputs) {
      assert Answers(policy.rules[j], j, inputs, d);
      InsideIff(policy.rules[i], inputs);
      InsideIff(policy.rules[j], inputs);
      if Covers(policy.rules[i], inputs) {
        AtMostOneRule(policy, inputs.Ratios(), i, j);
        AnswerReports(policy.rules[i], i, inputs, d);
      }
    }
  }

  lemma AnswerReports(rule: PolicyRule, i: nat, inputs: Inputs, d: PolicyDecision)
    requires Answers(rule, i, inputs, d)
    ensures d.ruleIndex == Some(i) <==> Fits(rule, inputs)
  {
    if rule.plan == AnnFirst {
      var policy := rule.ann.value.kPolicy;
      var k: nat :| && IsCount(k, policy, inputs.corpus, inputs.hardMatch, inputs.passRate)
                    && d == if WithinFraction(k, policy, inputs.corpus)
                            then PolicyDecision(AnnFirst, Some(k), Some(rule.ann.value.hnsw), Some(i), None)
                            else PolicyDecision(ExactAll, None, None, None, Some(FractionExceeded));
      if Fits(rule, inputs) {
        var j: nat :| && IsCount(j, policy, inputs.corpus, inputs.hardMatch, inputs.passRate)
                      && WithinFraction(j, policy, inputs.corpus);
        OneCount(policy, inputs.corpus, inputs.hardMatch, inputs.passRate, j, k);
      }
    }
  }

  /** Where the policy does not apply, the exact plan with the first reason that holds. */
  lemma DoesNotApply(policy: Policy, inputs: Inputs)
    requires Asked(inputs) && !Applies(policy, inputs)
    ensures SelectPolicy(policy, inputs)
         == PolicyDecision(ExactAll, None, None, None,
              Some(if policy.version != EXPERIMENT_VERSION then VersionMismatch
                   else if policy.vectorVersion != inputs.vectorVersion then VectorMismatch
                   else if policy.manifest != inputs.manifest then ManifestMismatch
                   else if StructureValid(policy) then OutsideRange else StructureInvalid))
  {
  }
}
