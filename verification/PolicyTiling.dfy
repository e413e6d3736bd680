/** The whole synthesis, and the proof that its rules and fallbacks tile the inputs exactly once. */
module PolicyTiling {
  import opened Wrappers
  import opened PolicyGates
  import opened PolicySynthesis
  import opened PolicyTable

  /** A cell of the three nested loops and what was decided for it. */
  datatype Decided = Decided(size: nat, hardBand: Band, expectedBand: Band, decision: Decision)

  function RulesIn(ds: seq<Decided>): seq<Candidate> {
    if ds == [] then []
    else
      var front, last := ds[..|ds| - 1], ds[|ds| - 1];
      RulesIn(front) + (if last.decision.Rule? then [last.decision.candidate] else [])
  }

  function FallsIn(ds: seq<Decided>): seq<Fallback> {
    if ds == [] then []
    else
      var front, last := ds[..|ds| - 1], ds[|ds| - 1];
      FallsIn(front) + (if last.decision.Fall? then [last.decision.fallback] else [])
  }

  /** `sorted({...})` of positive sizes. */
  predicate Ascending(sizes: seq<Users>) {
    forall i, j :: 0 <= i < j < |sizes| ==> sizes[i] < sizes[j]
  }

  /** The decisions of the first `k` expected bands of one hard band, and so on outwards. */
  ghost predicate BandsDecided(env: Env, points: seq<Point>, sizes: seq<Users>, ds: seq<Decided>,
                               size: nat, hardBand: Band, bands: seq<Band>)
    requires size < |sizes|
  {
    && |ds| == |bands|
    && forall k :: 0 <= k < |bands| ==>
         && ds[k].size == size && ds[k].hardBand == hardBand && ds[k].expectedBand == bands[k]
         && DecidedWell(env, points, sizes, size, hardBand, bands[k], ds[k].decision)
  }

  ghost predicate HardDecided(env: Env, points: seq<Point>, sizes: seq<Users>, ds: seq<Decided>,
                              size: nat, hardBands: seq<Band>)
    requires size < |sizes|
    decreases |hardBands|
  {
    var n := |env.config.expectedBands|;
    if hardBands == [] then ds == []
    else
      && |ds| >= n
      && HardDecided(env, points, sizes, ds[..|ds| - n], size, hardBands[..|hardBands| - 1])
      && BandsDecided(env, points, sizes, ds[|ds| - n..], size, hardBands[|hardBands| - 1],
                      env.config.expectedBands)
  }

  ghost predicate SizesDecided(env: Env, points: seq<Point>, sizes: seq<Users>, ds: seq<Decided>,
                               count: nat)
    requires count <= |sizes|
    decreases count, 1
  {
    if count == 0 then ds == []
    else exists m :: 0 <= m <= |ds| && LastSizeAt(env, points, sizes, ds, count, m)
  }

  /** The decisions from index `m` on are those of the last size. */
  ghost predicate LastSizeAt(env: Env, points: seq<Point>, sizes: seq<Users>, ds: seq<Decided>,
                             count: nat, m: nat)
    requires 0 < count <= |sizes| && m <= |ds|
    decreases count, 0
  {
    && SizesDecided(env, points, sizes, ds[..m], count - 1)
    && HardDecided(env, points, sizes, ds[m..], count - 1, env.config.hardBands)
  }

  /** The innermost loop. */
  method DecideBands(env: Env, points: seq<Point>, sizes: seq<Users>, size: nat, hardBand: Band)
    returns (ds: seq<Decided>)
    requires size < |sizes|
    ensures BandsDecided(env, points, sizes, ds, size, hardBand, env.config.expectedBands)
  {
    ds := [];
    var bands := env.config.expectedBands;
    for k := 0 to |bands|
      invariant BandsDecided(env, points, sizes, ds, size, hardBand, bands[..k])
    {
      var d := DecideCell(env, points, sizes, size, hardBand, bands[k]);
      ds := ds + [Decided(size, hardBand, bands[k], d)];
    }
    assert bands[..|bands|] == bands;
  }

  method DecideHardBands(env: Env, points: seq<Point>, sizes: seq<Users>, size: nat)
    returns (ds: seq<Decided>)
    requires size < |sizes|
    ensures HardDecided(env, points, sizes, ds, size, env.config.hardBands)
  {
    ds := [];
    var bands := env.config.hardBands;
    for j := 0 to |bands|
      invariant HardDecided(env, points, sizes, ds, size, bands[..j])
    {
      var more := DecideBands(env, points, sizes, size, bands[j]);
      assert bands[..j + 1][..j] == bands[..j];
      assert (ds + more)[..|ds + more| - |more|] == ds && (ds + more)[|ds + more| - |more|..] == more;
      ds := ds + more;
    }
    assert bands[..|bands|] == bands;
  }

  /** Every size, hard band and expected band in turn. */
  method DecideAll(env: Env, points: seq<Point>, sizes: seq<Users>) returns (ds: seq<Decided>)
    ensures SizesDecided(env, points, sizes, ds, |sizes|)
  {
    ds := [];
    for i := 0 to |sizes|
      invariant SizesDecided(env, points, sizes, ds, i)
    {
      var more := DecideHardBands(env, points, sizes, i);
      assert (ds + more)[..|ds|] == ds && (ds + more)[|ds|..] == more;
      assert LastSizeAt(env, points, sizes, ds + more, i + 1, |ds|);
      ds := ds + more;
    }
  }

  // ---------------------------------------------------------------------------
  // Counting boxes
  // ---------------------------------------------------------------------------

  /** The inputs of a lookup: corpus size, hard-match ratio, expected-member ratio. */
  datatype Query = Query(users: nat, hard: real, expected: real)

  predicate Inside(box: Box, q: Query) {
    && box.minUsers <= q.users <= box.maxUsers
    && box.hardBand.Contains(q.hard) && box.expectedBand.Contains(q.expected)
  }

  function One(b: bool): nat {
    if b then 1 else 0
  }

  function RuleHits(rules: seq<Candidate>, q: Query): nat {
    if rules == [] then 0
    else RuleHits(rules[..|rules| - 1], q) + One(Inside(BoxOf(Rule(rules[|rules| - 1])), q))
  }

  function FallHits(falls: seq<Fallback>, q: Query): nat {
    if falls == [] then 0
    else FallHits(falls[..|falls| - 1], q) + One(Inside(BoxOf(Fall(falls[|falls| - 1])), q))
  }

  function DecisionHits(ds: seq<Decided>, q: Query): nat {
    if ds == [] then 0
    else DecisionHits(ds[..|ds| - 1], q) + One(Inside(BoxOf(ds[|ds| - 1].decision), q))
  }

  lemma {:induction false} HitsSplit(ds: seq<Decided>, q: Query)
    ensures RuleHits(RulesIn(ds), q) + FallHits(FallsIn(ds), q) == DecisionHits(ds, q)
  {
    if ds != [] {
      var front, last := ds[..|ds| - 1], ds[|ds| - 1];
      HitsSplit(front, q);
      if last.decision.Rule? {
        assert RulesIn(ds)[..|RulesIn(ds)| - 1] == RulesIn(front);
        assert FallsIn(ds) == FallsIn(front);
      } else {
        assert FallsIn(ds)[..|FallsIn(ds)| - 1] == FallsIn(front);
        assert RulesIn(ds) == RulesIn(front);
      }
    }
  }

  lemma {:induction false} HitsConcat(a: seq<Decided>, b: seq<Decided>, q: Query)
    ensures DecisionHits(a + b, q) == DecisionHits(a, q) + DecisionHits(b, q)
  {
    if b == [] {
      assert a + b == a;
    } else {
      assert (a + b)[..|a + b| - 1] == a + b[..|b| - 1];
      HitsConcat(a, b[..|b| - 1], q);
    }
  }

  function BandHits(bands: seq<Band>, r: real): nat {
    if bands == [] then 0
    else BandHits(bands[..|bands| - 1], r) + One(bands[|bands| - 1].Contains(r))
  }

  predicate InBucket(sizes: seq<Users>, i: nat, users: nat)
    requires i < |sizes|
  {
    (if i == 0 then sizes[0] else sizes[i - 1] + 1) <= users <= sizes[i]
  }

  function SizeHits(sizes: seq<Users>, count: nat, users: nat): nat
    requires count <= |sizes|
  {
    if count == 0 then 0
    else SizeHits(sizes, count - 1, users) + One(InBucket(sizes, count - 1, users))
  }

  lemma {:induction false} BandHitsDecided(env: Env, points: seq<Point>, sizes: seq<Users>,
                                           ds: seq<Decided>, size: nat, hardBand: Band,
                                           bands: seq<Band>, q: Query)
    requires size < |sizes| && BandsDecided(env, points, sizes, ds, size, hardBand, bands)
    ensures DecisionHits(ds, q)
         == if InBucket(sizes, size, q.users) && hardBand.Contains(q.hard)
            then BandHits(bands, q.expected) else 0
  {
    if bands != [] {
      BandHitsDecided(env, points, sizes, ds[..|ds| - 1], size, hardBand, bands[..|bands| - 1], q);
      var k := |bands| - 1;
      DecisionFacts(env, points, sizes, size, hardBand, bands[k], ds[k].decision);
    }
  }

  lemma {:induction false} HardHitsDecided(env: Env, points: seq<Point>, sizes: seq<Users>,
                                           ds: seq<Decided>, size: nat, hardBands: seq<Band>,
                                           q: Query)
    requires size < |sizes| && HardDecided(env, points, sizes, ds, size, hardBands)
    requires BandHits(env.config.expectedBands, q.expected) == 1
    ensures DecisionHits(ds, q)
         == if InBucket(sizes, size, q.users) then BandHits(hardBands, q.hard) else 0
  {
    if hardBands != [] {
      var n := |env.config.expectedBands|;
      var front, more := ds[..|ds| - n], ds[|ds| - n..];
      assert ds == front + more;
      HardHitsDecided(env, points, sizes, front, size, hardBands[..|hardBands| - 1], q);
      BandHitsDecided(env, points, sizes, more, size, hardBands[|hardBands| - 1],
                      env.config.expectedBands, q);
      HitsConcat(front, more, q);
    }
  }

  lemma {:induction false} SizeHitsDecided(env: Env, points: seq<Point>, sizes: seq<Users>,
                                           ds: seq<Decided>, count: nat, q: Query)
    requires count <= |sizes| && SizesDecided(env, points, sizes, ds, count)
    requires BandHits(env.config.hardBands, q.hard) == 1
    requires BandHits(env.config.expectedBands, q.expected) == 1
    ensures DecisionHits(ds, q) == SizeHits(sizes, count, q.users)
  {
    if count != 0 {
      var m :| 0 <= m <= |ds| && LastSizeAt(env, points, sizes, ds, count, m);
      var front, more := ds[..m], ds[m..];
      assert ds == front + more;
      SizeHitsDecided(env, points, sizes, front, count - 1, q);
      HardHitsDecided(env, points, sizes, more, count - 1, env.config.hardBands, q);
      HitsConcat(front, more, q);
    }
  }

  /** The user buckets tile the range from the smallest to the largest size. */
  lemma {:induction false} SizesTile(sizes: seq<Users>, count: nat, users: nat)
    requires Ascending(sizes) && 0 < count <= |sizes|
    ensures SizeHits(sizes, count, users) == One(sizes[0] <= users <= sizes[count - 1])
  {
    if count == 1 {
      assert SizeHits(sizes, 0, users) == 0;
    } else {
      SizesTile(sizes, count - 1, users);
      assert sizes[count - 2] < sizes[count - 1];
      assert sizes[0] <= sizes[count - 2];
    }
  }

  /** The two unbounded fallbacks appended at the end. */
  function ExtraHits(sizes: seq<Users>, users: nat): nat
    requires sizes != []
  {
    One(sizes[0] > 1 && 1 <= users <= sizes[0] - 1) + One(users >= sizes[|sizes| - 1] + 1)
  }

  /**
   Rules and fallbacks together answer every input exactly once, wherever the configured bands
   cover both ratios exactly once.
   */
  lemma TableTilesInputs(env: Env, points: seq<Point>, sizes: seq<Users>, ds: seq<Decided>, q: Query)
    requires Ascending(sizes) && sizes != []
    requires SizesDecided(env, points, sizes, ds, |sizes|)
    requires q.users >= 1
    requires BandHits(env.config.hardBands, q.hard) == 1
    requires BandHits(env.config.expectedBands, q.expected) == 1
    ensures RuleHits(RulesIn(ds), q) + FallHits(FallsIn(ds), q) + ExtraHits(sizes, q.users) == 1
  {
    HitsSplit(ds, q);
    SizeHitsDecided(env, points, sizes, ds, |sizes|, q);
    SizesTile(sizes, |sizes|, q.users);
    assert sizes[0] <= sizes[|sizes| - 1];
  }

  const DEFAULT_HARD_BANDS := [Band(0.0, 0.05), Band(0.05, 0.20), Band(0.20, 1.0000001)]
  const DEFAULT_EXPECTED_BANDS :=
    [Band(0.0, 0.01), Band(0.01, 0.05), Band(0.05, 0.10), Band(0.10, 0.25), Band(0.25, 1.0000001)]

  /** The default bands cover every ratio exactly once. */
  lemma DefaultBandsCoverRatios(r: real)
    requires 0.0 <= r <= 1.0
    ensures BandHits(DEFAULT_HARD_BANDS, r) == 1 && BandHits(DEFAULT_EXPECTED_BANDS, r) == 1
  {
    var h, e := DEFAULT_HARD_BANDS, DEFAULT_EXPECTED_BANDS;
    BandHitsStep(h, 0, r); BandHitsStep(h, 1, r); BandHitsStep(h, 2, r);
    BandHitsStep(e, 0, r); BandHitsStep(e, 1, r); BandHitsStep(e, 2, r);
    BandHitsStep(e, 3, r); BandHitsStep(e, 4, r);
    assert h[..3] == h && e[..5] == e && h[..0] == [] && e[..0] == [];
  }

  lemma BandHitsStep(bands: seq<Band>, k: nat, r: real)
    requires k < |bands|
    ensures BandHits(bands[..k + 1], r) == BandHits(bands[..k], r) + One(bands[k].Contains(r))
  {
    assert bands[..k + 1][..k] == bands[..k];
  }
}
