/**
 The tables of one promotion's audience reservation, as values, and the SQL
 predicates that every reader of the exclusion ledger shares.

 Identifiers are numbers: only their equality and, for segments, their order
 matter. The hashed identifiers (plan id, final snapshot id) are injective in
 what they hash, so they are constructors here.
 */
module AudienceTables {
  import opened Wrappers

  type UserId = nat
  type SegmentId = nat
  type AnalysisId = nat
  type RunId = nat
  type Fit = Option<real>

  /** uuid5 over (source snapshots, segments, exclusion revision). */
  datatype PlanId = PlanId(sources: set<nat>, segments: set<SegmentId>, revision: nat)

  /** A recommendation snapshot, or uuid5 over (plan, segment). */
  datatype SnapshotId = SourceSnapshot(id: nat) | FinalSnapshot(plan: PlanId, segment: SegmentId)

  datatype Reservation = Reserved | Consumed | Released
  datatype PlanStatus = Finalized | Locked | PlanReleased
  datatype RunStatus =
    | Planned | Approved | Running | Evaluating
    | GoalMet | GoalNotMet | PartialGoalMet | InsufficientData | Stopped

  datatype TargetKey = TargetKey(analysis: AnalysisId, segment: SegmentId)

  /** A row of `promotion_target_segments`; the three audience columns are nullable. */
  datatype Target = Target(stopped: bool, snapshot: Option<SnapshotId>, plan: Option<PlanId>,
                           state: Option<Reservation>)
  {
    predicate Unbound() {
      snapshot.None? && plan.None? && state.None?
    }
  }

  /** A row of `promotion_audience_exclusion_members`; the user is the key. */
  datatype LedgerRow = LedgerRow(target: TargetKey, plan: PlanId, snapshot: SnapshotId,
                                 state: Reservation, revision: nat)

  /** A row of `segment_audience_allocation_plans`. */
  datatype Plan = Plan(target: AnalysisId, batch: AnalysisId, segments: set<SegmentId>,
                       revision: nat, status: PlanStatus)

  /** A row of `segment_audience_snapshots` with kind 'final'. */
  datatype FinalRow = FinalRow(segment: SegmentId, source: nat, plan: PlanId, userCount: nat,
                               meetsMinimum: bool, status: AudienceStatus)

  datatype AudienceStatus = NoEligibleAudience | InsufficientSample | Targetable

  /** A row of `promotion_run_target_bindings`; the target is the key. */
  datatype Binding = Binding(run: RunId, plan: PlanId, snapshot: SnapshotId)

  /** The allocation templates, in policy order. */
  datatype Template =
    | CustomStructured | DestinationAffinity | FunnelRecovery | BenefitValueSeeker
    | PromotionResponsive | GeneralExplorer | IntentMatched

  type Margin = m: real | m > 0.0 witness 1.0

  /** A source snapshot that passed `_source_snapshot_from_row`. */
  datatype Source = Source(snapshot: nat, segment: SegmentId, analysis: AnalysisId,
                           template: Template, threshold: real, margin: Margin, minSample: int)

  /** One line of a preview, and one preview per candidate subset. */
  datatype PreviewLine = PreviewLine(segment: SegmentId, userCount: nat, targetable: bool,
                                     meetsMinimum: bool, status: AudienceStatus)
  datatype Preview = Preview(segments: set<SegmentId>, revision: nat, total: nat,
                             lines: seq<PreviewLine>)

  datatype Db = Db(
    ledger: map<UserId, LedgerRow>,
    targets: map<TargetKey, Target>,
    plans: map<PlanId, Plan>,
    finals: map<SnapshotId, FinalRow>,
    members: map<SnapshotId, map<UserId, Fit>>,
    bindings: map<TargetKey, Binding>,
    runs: map<RunId, RunStatus>,
    revision: nat,
    definitions: set<SegmentId>,
    suggestions: map<AnalysisId, seq<Source>>,
    previews: map<AnalysisId, seq<Preview>>)

  const EMPTY_DB := Db(map[], map[], map[], map[], map[], map[], map[], 0, {}, map[], map[])

  predicate Terminal(status: RunStatus) {
    status in {GoalMet, GoalNotMet, PartialGoalMet, InsufficientData, Stopped}
  }

  predicate RunActive(db: Db, run: RunId) {
    run in db.runs && !Terminal(db.runs[run])
  }

  /** The binding row that joins to the target's own plan and snapshot. */
  predicate BindingMatches(db: Db, k: TargetKey)
    requires k in db.targets
  {
    && k in db.bindings
    && db.targets[k].plan == Some(db.bindings[k].plan)
    && db.targets[k].snapshot == Some(db.bindings[k].snapshot)
  }

  /** `promotion_target_is_active_sql`: not stopped, and unbound or bound to a live run. */
  predicate TargetActive(db: Db, k: TargetKey)
    requires k in db.targets
  {
    && !db.targets[k].stopped
    && (BindingMatches(db, k) ==> RunActive(db, db.bindings[k].run))
  }

  /** The four-column join from a ledger row to its target. */
  predicate Joined(db: Db, row: LedgerRow) {
    && row.target in db.targets
    && db.targets[row.target].plan == Some(row.plan)
    && db.targets[row.target].snapshot == Some(row.snapshot)
  }

  /** The `NOT EXISTS` test that keeps a user out of winner selection, negated. */
  predicate Excluded(db: Db, u: UserId) {
    && u in db.ledger
    && db.ledger[u].state != Released
    && Joined(db, db.ledger[u])
    && TargetActive(db, db.ledger[u].target)
  }

  /** The `ON CONFLICT ... DO UPDATE ... WHERE` guard, or no conflicting row at all. */
  predicate Upsertable(db: Db, u: UserId) {
    u in db.ledger ==>
      || db.ledger[u].state == Released
      || (Joined(db, db.ledger[u]) && !TargetActive(db, db.ledger[u].target))
  }

  function ActiveUsers(db: Db): set<UserId> {
    set u | u in db.ledger && Excluded(db, u)
  }

  function MembersOf(db: Db, id: SnapshotId): map<UserId, Fit> {
    if id in db.members then db.members[id] else map[]
  }

  function StatusFor(count: nat, minimum: int): AudienceStatus {
    if count <= 0 then NoEligibleAudience
    else if count < minimum then InsufficientSample
    else Targetable
  }

  /**
   The winner test and the upsert guard are complements for a user exactly when the
   user's ledger row is not a live row that fails to join its target.
   */
  lemma ExclusionComplementsUpsert(db: Db, u: UserId)
    ensures Excluded(db, u) == !Upsertable(db, u)
       <==> !(u in db.ledger && db.ledger[u].state != Released && !Joined(db, db.ledger[u]))
  {
  }
}
