/**
 What each transaction of the reservation protocol does to the tables.

 A transaction either commits its whole new state or raises and leaves the
 tables as they were. All transactions of one promotion are serial.
 */
module AllocationProtocol {
  import opened Wrappers
  import opened AudienceTables
  import opened WinnerSelection

  datatype Error =
    | BindingInvalid | SnapshotBindingRequired | SourceBatchMismatch
    | SourceAlreadyConfirmed | SegmentAlreadyConfirmed | AllocationEmpty
    | ExclusionConflict | DuplicateKey | CandidateLimitExceeded
    | PartialReleaseUnsupported | AllocationLocked | RunBindingRejected | ProjectionNotReady

  // ---------------------------------------------------------------------------
  // Source snapshots
  // ---------------------------------------------------------------------------

  /** A source snapshot row as stored; `template` is None for an unknown candidate type. */
  datatype SourceRow = SourceRow(snapshot: nat, segment: SegmentId, analysis: AnalysisId,
                                 template: Option<Template>, threshold: real, margin: real,
                                 minSample: int, complete: bool, userCount: nat)

  function ParseRow(row: SourceRow): Outcome<Source, Error> {
    if row.template.None? || row.margin <= 0.0 then Raised(BindingInvalid)
    else Done(Source(row.snapshot, row.segment, row.analysis, row.template.value,
                     row.threshold, row.margin, row.minSample))
  }

  function ParseRows(rows: seq<SourceRow>): (r: Outcome<seq<Source>, Error>)
    ensures r.Done? ==> |r.value| == |rows|
    ensures r.Done? ==> forall i :: 0 <= i < |rows| ==> ParseRow(rows[i]) == Done(r.value[i])
  {
    if rows == [] then Done([])
    else
      var front := ParseRows(rows[..|rows| - 1]);
      var last := ParseRow(rows[|rows| - 1]);
      if front.Raised? then front
      else if last.Raised? then Raised(last.error)
      else Done(front.value + [last.value])
  }

  function LoadSources(db: Db, selected: set<SegmentId>, rows: seq<SourceRow>)
    : (r: Outcome<seq<Source>, Error>)
    ensures r.Done? ==> SegmentsOf(r.value) == selected
  {
    if (set row | row in rows :: row.segment) != selected then Raised(SnapshotBindingRequired)
    else
      var parsed := ParseRows(rows);
      if parsed.Raised? then parsed
      else if exists row :: row in rows
                && (!row.complete
                    || |MembersOf(db, SourceSnapshot(row.snapshot))| != row.userCount) then
        Raised(BindingInvalid)
      else
        assert SegmentsOf(parsed.value) == selected by { ParsedSegments(rows, parsed.value); }
        parsed
  }

  lemma ParsedSegments(rows: seq<SourceRow>, sources: seq<Source>)
    requires |sources| == |rows|
    requires forall i :: 0 <= i < |rows| ==> ParseRow(rows[i]) == Done(sources[i])
    ensures SegmentsOf(sources) == set row | row in rows :: row.segment
  {
    forall row | row in rows
      ensures row.segment in SegmentsOf(sources)
    {
      var i :| 0 <= i < |rows| && rows[i] == row;
      assert sources[i] in sources;
    }
    forall s | s in sources
      ensures s.segment in (set row | row in rows :: row.segment)
    {
      var i :| 0 <= i < |sources| && sources[i] == s;
      assert rows[i] in rows;
    }
  }

  function SourceIds(sources: seq<Source>): set<nat> {
    set s | s in sources :: s.snapshot
  }

  function SourceOf(sources: seq<Source>, segment: SegmentId): (s: Source)
    requires segment in SegmentsOf(sources)
    ensures s in sources && s.segment == segment
  {
    if sources[0].segment == segment then sources[0] else SourceOf(sources[1..], segment)
  }

  // ---------------------------------------------------------------------------
  // Confirmation
  // ---------------------------------------------------------------------------

  datatype Allocation = Allocation(source: nat, snapshot: SnapshotId, userCount: nat,
                                   meetsMinimum: bool, status: AudienceStatus)

  datatype Confirmed = Confirmed(batch: AnalysisId, plan: PlanId, revision: nat,
                                 allocations: map<SegmentId, Allocation>)

  datatype Request = Request(analysis: AnalysisId, segments: seq<SegmentId>, minimum: int,
                             rows: seq<SourceRow>)

  predicate Live(plan: Plan) {
    plan.status != PlanReleased
  }

  /**
   The final snapshots that `_find_idempotent_result` selects. A plan stores its segments without
   repetition and the query compares lists, so sources that repeat a segment match no plan.
   */
  predicate RetryRow(db: Db, f: SnapshotId, analysis: AnalysisId, sources: seq<Source>) {
    && f in db.finals
    && db.finals[f].plan in db.plans
    && db.plans[db.finals[f].plan].target == analysis
    && Live(db.plans[db.finals[f].plan])
    && Distinct(sources) && db.plans[db.finals[f].plan].segments == SegmentsOf(sources)
    && db.finals[f].source in SourceIds(sources)
  }

  function RetryRows(db: Db, analysis: AnalysisId, sources: seq<Source>): set<SnapshotId> {
    set f | f in db.finals && RetryRow(db, f, analysis, sources)
  }

  function AllocationFrom(db: Db, f: SnapshotId): Allocation
    requires f in db.finals
  {
    var row := db.finals[f];
    Allocation(row.source, f, row.userCount, row.meetsMinimum, row.status)
  }

  /**
   The order in which the rows come back: by segment, and by the plan's revision where a segment
   occurs twice.
   */
  predicate RowBefore(db: Db, f: SnapshotId, g: SnapshotId)
    requires f in db.finals && db.finals[f].plan in db.plans
    requires g in db.finals && db.finals[g].plan in db.plans
  {
    || db.finals[f].segment < db.finals[g].segment
    || (db.finals[f].segment == db.finals[g].segment
        && db.plans[db.finals[f].plan].revision < db.plans[db.finals[g].plan].revision)
  }

  predicate RowsStored(db: Db, rows: set<SnapshotId>) {
    forall f <- rows :: f in db.finals && db.finals[f].plan in db.plans
  }

  /** `rows[0]`. */
  predicate IsFirstRow(db: Db, rows: set<SnapshotId>, f: SnapshotId)
    requires RowsStored(db, rows)
  {
    f in rows && forall g <- rows :: g == f || RowBefore(db, f, g)
  }

  /** The row that the dictionary keeps for a segment. */
  predicate IsLastRow(db: Db, rows: set<SnapshotId>, segment: SegmentId, f: SnapshotId)
    requires RowsStored(db, rows)
  {
    && f in rows && db.finals[f].segment == segment
    && forall g <- rows :: db.finals[g].segment == segment ==> g == f || RowBefore(db, g, f)
  }

  /** The stored result; `rows[0]` names the plan. */
  ghost function StoredResult(db: Db, rows: set<SnapshotId>): Confirmed
    requires rows != {} && RowsStored(db, rows)
  {
    var first := FirstRow(db, rows);
    var plan := db.finals[first].plan;
    Confirmed(db.plans[plan].batch, plan, db.plans[plan].revision, AllocationsOf(db, rows))
  }

  /** The dictionary over the rows in their order. */
  ghost function AllocationsOf(db: Db, rows: set<SnapshotId>): map<SegmentId, Allocation>
    requires RowsStored(db, rows)
  {
    map s | s in (set f | f in rows :: db.finals[f].segment) ::
      AllocationFrom(db, RowFor(db, rows, s))
  }

  ghost function FirstRow(db: Db, rows: set<SnapshotId>): (f: SnapshotId)
    requires rows != {} && RowsStored(db, rows)
    ensures f in rows
    ensures (exists g :: IsFirstRow(db, rows, g)) ==> IsFirstRow(db, rows, f)
  {
    if g :| IsFirstRow(db, rows, g) then g else var f :| f in rows; f
  }

  ghost function RowFor(db: Db, rows: set<SnapshotId>, segment: SegmentId): (f: SnapshotId)
    requires RowsStored(db, rows) && exists f <- rows :: db.finals[f].segment == segment
    ensures f in rows && db.finals[f].segment == segment
    ensures (exists g :: IsLastRow(db, rows, segment, g)) ==> IsLastRow(db, rows, segment, f)
  {
    if g :| IsLastRow(db, rows, segment, g) then g
    else var f :| f in rows && db.finals[f].segment == segment; f
  }

  predicate ConfirmedElsewhere(db: Db, analysis: AnalysisId, sources: seq<Source>) {
    exists f <- db.finals ::
      && db.finals[f].source in SourceIds(sources)
      && db.finals[f].plan in db.plans
      && Live(db.plans[db.finals[f].plan])
      && db.plans[db.finals[f].plan].target != analysis
  }

  /** A target of the segment is reserved and unbound, or consumed by a live run. */
  predicate SegmentBusy(db: Db, segments: set<SegmentId>) {
    exists k <- db.targets ::
      && k.segment in segments
      && db.targets[k].snapshot.Some?
      && (|| (db.targets[k].state == Some(Reserved) && k !in db.bindings)
          || (db.targets[k].state == Some(Consumed) && k in db.bindings
              && RunActive(db, db.bindings[k].run)))
  }

  function PlanFor(db: Db, sources: seq<Source>): PlanId {
    PlanId(SourceIds(sources), SegmentsOf(sources), db.revision)
  }

  /** `INSERT ... ON CONFLICT DO NOTHING` for every selected segment that has a definition. */
  function EnsuredTargets(targets: map<TargetKey, Target>, definitions: set<SegmentId>,
                          analysis: AnalysisId, segments: set<SegmentId>): map<TargetKey, Target>
  {
    (map s | s in segments && s in definitions ::
       TargetKey(analysis, s) := Target(false, None, None, None))
    + targets
  }

  /** The guarded UPDATE of `_bind_target_audience`: it skips a row that is already bound. */
  function BoundTarget(k: TargetKey, t: Target, analysis: AnalysisId, segments: set<SegmentId>,
                       plan: PlanId): Target
  {
    if k.analysis == analysis && k.segment in segments && t.Unbound() then
      t.(snapshot := Some(FinalSnapshot(plan, k.segment)), plan := Some(plan),
         state := Some(Reserved))
    else t
  }

  function BoundTargets(targets: map<TargetKey, Target>, analysis: AnalysisId,
                        segments: set<SegmentId>, plan: PlanId): map<TargetKey, Target>
  {
    map k | k in targets :: BoundTarget(k, targets[k], analysis, segments, plan)
  }

  function FinalFor(s: Source, plan: PlanId, w: map<UserId, Source>, minimum: int): FinalRow {
    var n := |SegmentUsers(w, s.segment)|;
    FinalRow(s.segment, s.snapshot, plan, n, n >= minimum, StatusFor(n, minimum))
  }

  function NewFinals(sources: seq<Source>, segments: set<SegmentId>, plan: PlanId,
                     w: map<UserId, Source>, minimum: int): map<SnapshotId, FinalRow>
    requires segments <= SegmentsOf(sources)
  {
    map s | s in segments ::
      FinalSnapshot(plan, s) := FinalFor(SourceOf(sources, s), plan, w, minimum)
  }

  function MembersFor(db: Db, segment: SegmentId, w: map<UserId, Source>): map<UserId, Fit>
    requires forall u <- w :: u in SourceMembers(db, w[u])
  {
    map u | u in SegmentUsers(w, segment) :: SourceMembers(db, w[u])[u]
  }

  function NewMembers(db: Db, segments: set<SegmentId>, plan: PlanId, w: map<UserId, Source>)
    : map<SnapshotId, map<UserId, Fit>>
    requires forall u <- w :: u in SourceMembers(db, w[u])
  {
    map s | s in segments :: FinalSnapshot(plan, s) := MembersFor(db, s, w)
  }

  /** Everything a confirmation writes before it reserves the winners. */
  function BeforeReserve(db: Db, analysis: AnalysisId, minimum: int, batch: AnalysisId,
                         sources: seq<Source>): Db
  {
    var w, plan, segments := Winners(db, sources), PlanFor(db, sources), SegmentsOf(sources);
    var ensured := EnsuredTargets(db.targets, db.definitions, analysis, segments);
    db.(revision := db.revision + 1,
        plans := db.plans[plan := Plan(analysis, batch, segments, db.revision + 1, Finalized)],
        targets := BoundTargets(ensured, analysis, segments, plan),
        finals := db.finals + NewFinals(sources, segments, plan, w, minimum),
        members := db.members + NewMembers(db, segments, plan, w))
  }

  function ReservedRow(analysis: AnalysisId, segment: SegmentId, plan: PlanId, revision: nat)
    : LedgerRow
  {
    LedgerRow(TargetKey(analysis, segment), plan, FinalSnapshot(plan, segment), Reserved, revision)
  }

  /** The upsert: it leaves a conflicting row alone when the guard rejects it. */
  function Reserve(db: Db, analysis: AnalysisId, plan: PlanId, w: map<UserId, Source>): Db {
    db.(ledger := db.ledger + map u | u in w && Upsertable(db, u) ::
                    ReservedRow(analysis, w[u].segment, plan, db.revision))
  }

  function Commit(db: Db, analysis: AnalysisId, minimum: int, batch: AnalysisId,
                  sources: seq<Source>): Db
  {
    Reserve(BeforeReserve(db, analysis, minimum, batch, sources), analysis,
            PlanFor(db, sources), Winners(db, sources))
  }

  function CommitResult(db: Db, minimum: int, batch: AnalysisId, sources: seq<Source>): Confirmed {
    var w, plan := Winners(db, sources), PlanFor(db, sources);
    Confirmed(batch, plan, db.revision + 1,
              map s | s in SegmentsOf(sources) ::
                var n := |SegmentUsers(w, s)|;
                Allocation(SourceOf(sources, s).snapshot, FinalSnapshot(plan, s), n, n >= minimum,
                           StatusFor(n, minimum)))
  }

  datatype ConfirmPath =
    | Rejected(error: Error)
    | Retry(answer: Confirmed)
    | Fresh(batch: AnalysisId, sources: seq<Source>)

  function Selected(req: Request): set<SegmentId> {
    set s | s in req.segments
  }

  function Batches(sources: seq<Source>): set<AnalysisId> {
    set s | s in sources :: s.analysis
  }

  /** Every check up to the first write, in the order the code makes them. */
  ghost function Path(db: Db, limit: nat, req: Request): ConfirmPath {
    if Selected(req) == {} || |Selected(req)| > limit then Rejected(BindingInvalid)
    else
      var loaded := LoadSources(db, Selected(req), req.rows);
      if loaded.Raised? then Rejected(loaded.error)
      else LoadedPath(db, req.analysis, Selected(req), loaded.value)
  }

  ghost function LoadedPath(db: Db, analysis: AnalysisId, selected: set<SegmentId>,
                            sources: seq<Source>): ConfirmPath
  {
    if |Batches(sources)| != 1 then Rejected(SourceBatchMismatch)
    else
      var rows := RetryRows(db, analysis, sources);
      if rows != {} then
        if |rows| != |sources| then Rejected(BindingInvalid) else Retry(StoredResult(db, rows))
      else UnansweredPath(db, analysis, selected, sources)
  }

  ghost function UnansweredPath(db: Db, analysis: AnalysisId, selected: set<SegmentId>,
                                sources: seq<Source>): ConfirmPath
    requires Batches(sources) != {}
  {
    if ConfirmedElsewhere(db, analysis, sources) then Rejected(SourceAlreadyConfirmed)
    else if SegmentBusy(db, selected) then Rejected(SegmentAlreadyConfirmed)
    else if !Distinct(sources) then Rejected(DuplicateKey)
    else if SomeEmpty(Winners(db, sources), selected) then Rejected(AllocationEmpty)
    else if PlanFor(db, sources) in db.plans then Rejected(DuplicateKey)
    else
      var batch :| batch in Batches(sources);
      Fresh(batch, sources)
  }

  /** The checks before the exclusion context is loaded are passed. */
  ghost predicate ReachesLoad(db: Db, limit: nat, req: Request) {
    var selected := Selected(req);
    && selected != {} && |selected| <= limit
    && var loaded := LoadSources(db, selected, req.rows);
       && loaded.Done?
       && |Batches(loaded.value)| == 1
       && RetryRows(db, req.analysis, loaded.value) == {}
       && !ConfirmedElsewhere(db, req.analysis, loaded.value)
       && !SegmentBusy(db, selected)
  }

  predicate SomeEmpty(w: map<UserId, Source>, segments: set<SegmentId>) {
    exists s <- segments :: SegmentUsers(w, s) == {}
  }

  ghost function Confirm(db: Db, limit: nat, req: Request): (Db, Outcome<Confirmed, Error>) {
    Act(db, limit, req.analysis, req.minimum, Path(db, limit, req))
  }

  function Act(db: Db, limit: nat, analysis: AnalysisId, minimum: int, path: ConfirmPath)
    : (Db, Outcome<Confirmed, Error>)
  {
    match path
    case Rejected(e) => (db, Raised(e))
    case Retry(answer) => (db, Done(answer))
    case Fresh(batch, sources) => ConfirmFresh(db, limit, analysis, minimum, batch, sources)
  }

  /** The writes; the reservation raises when the upsert returned fewer rows than winners. */
  function ConfirmFresh(db: Db, limit: nat, analysis: AnalysisId, minimum: int, batch: AnalysisId,
                        sources: seq<Source>): (Db, Outcome<Confirmed, Error>)
  {
    if Refused(BeforeReserve(db, analysis, minimum, batch, sources), Winners(db, sources)) then
      (db, Raised(ExclusionConflict))
    else
      Finish(db, Commit(db, analysis, minimum, batch, sources), limit, batch, SegmentsOf(sources),
             CommitResult(db, minimum, batch, sources))
  }

  /** The last write refreshes the remaining previews; its failure rolls everything back. */
  function Finish<R>(before: Db, after: Db, limit: nat, batch: AnalysisId,
                     exclude: set<SegmentId>, result: R): (Db, Outcome<R, Error>)
  {
    var refreshed := Refresh(after, limit, batch, exclude);
    if refreshed.Raised? then (before, Raised(refreshed.error))
    else (refreshed.value, Done(result))
  }

  predicate Refused(ready: Db, w: map<UserId, Source>) {
    exists u <- w :: !Upsertable(ready, u)
  }

  // ---------------------------------------------------------------------------
  // Recommendation previews
  // ---------------------------------------------------------------------------

  /** The suggestion is not excluded and no live target holds a final snapshot of it. */
  predicate Open(db: Db, s: Source, exclude: set<SegmentId>) {
    && s.segment !in exclude
    && !exists k <- db.targets ::
         && k.segment == s.segment
         && db.targets[k].snapshot.Some?
         && db.targets[k].snapshot.value in db.finals
         && db.finals[db.targets[k].snapshot.value].source == s.snapshot
         && (db.targets[k].state == Some(Reserved) || db.targets[k].state == Some(Consumed))
  }

  function OpenSources(db: Db, sources: seq<Source>, exclude: set<SegmentId>): seq<Source> {
    if sources == [] then []
    else
      var front, last := sources[..|sources| - 1], sources[|sources| - 1];
      OpenSources(db, front, exclude) + (if Open(db, last, exclude) then [last] else [])
  }

  function Candidates(db: Db, batch: AnalysisId, exclude: set<SegmentId>): seq<Source> {
    OpenSources(db, if batch in db.suggestions then db.suggestions[batch] else [], exclude)
  }

  /** `itertools.combinations(xs, size)`: the subsequences of that length, in index order. */
  function Combinations<T>(xs: seq<T>, size: nat): seq<seq<T>> {
    if size == 0 then [[]]
    else if xs == [] then []
    else WithHead(xs[0], Combinations(xs[1..], size - 1)) + Combinations(xs[1..], size)
  }

  function WithHead<T>(x: T, tails: seq<seq<T>>): seq<seq<T>> {
    seq(|tails|, i requires 0 <= i < |tails| => [x] + tails[i])
  }

  function CombinationsUpTo<T>(xs: seq<T>, size: nat): seq<seq<T>> {
    if size == 0 then [] else CombinationsUpTo(xs, size - 1) + Combinations(xs, size)
  }

  function LineFor(w: map<UserId, Source>, s: Source): PreviewLine {
    var n := |SegmentUsers(w, s.segment)|;
    PreviewLine(s.segment, n, n > 0, n >= s.minSample, StatusFor(n, s.minSample))
  }

  function PreviewFor(db: Db, combination: seq<Source>): Preview {
    var w := Winners(db, combination);
    Preview(SegmentsOf(combination), db.revision, |w|,
            seq(|combination|, i requires 0 <= i < |combination| => LineFor(w, combination[i])))
  }

  function PreviewsFor(db: Db, combinations: seq<seq<Source>>): seq<Preview> {
    seq(|combinations|, i requires 0 <= i < |combinations| => PreviewFor(db, combinations[i]))
  }

  function Refresh(db: Db, limit: nat, batch: AnalysisId, exclude: set<SegmentId>)
    : Outcome<Db, Error>
  {
    var candidates := Candidates(db, batch, exclude);
    if |candidates| > limit then Raised(CandidateLimitExceeded)
    else if !Distinct(candidates) then Raised(DuplicateKey)
    else
      var combinations := CombinationsUpTo(candidates, |candidates|);
      Done(db.(previews := db.previews[batch := PreviewsFor(db, combinations)]))
  }

  // ---------------------------------------------------------------------------
  // Release
  // ---------------------------------------------------------------------------

  /** The revision and the active user count that a caller carries on. */
  datatype Context = Context(revision: nat, userCount: nat)

  function Reload(db: Db): Context {
    Context(db.revision, |ActiveUsers(db)|)
  }

  /** Ledger rows of the plan, or of one of its segments, in a given state. */
  function PlanRows(db: Db, plan: PlanId, scope: Option<SegmentId>, state: Reservation)
    : set<UserId>
  {
    set u | u in db.ledger && db.ledger[u].plan == plan && db.ledger[u].state == state
            && (scope.None? || db.ledger[u].target.segment == scope.value)
  }

  function ReleaseRejection(db: Db, k: TargetKey, entire: bool): Option<Error> {
    if k !in db.targets || db.targets[k].plan.None? || db.targets[k].plan.value !in db.plans then
      Some(BindingInvalid)
    else
      var plan := db.targets[k].plan.value;
      if |db.plans[plan].segments| > 1 && !entire then Some(PartialReleaseUnsupported)
      else if || (exists b <- db.bindings :: db.bindings[b].plan == plan)
              || PlanRows(db, plan, None, Consumed) != {}
              || db.plans[plan].status == Locked then Some(AllocationLocked)
      else None
  }

  function ReleasedRow(row: LedgerRow, plan: PlanId, scope: Option<SegmentId>, revision: nat)
    : LedgerRow
  {
    if row.plan == plan && row.state == Reserved
       && (scope.None? || row.target.segment == scope.value) then
      row.(state := Released, revision := revision)
    else row
  }

  function ReleasedTarget(key: TargetKey, t: Target, k: TargetKey, plan: PlanId, entire: bool)
    : Target
  {
    if (if entire then t.plan == Some(plan) else key == k) then t.(state := Some(Released)) else t
  }

  function Scope(k: TargetKey, entire: bool): Option<SegmentId> {
    if entire then None else Some(k.segment)
  }

  function AfterRelease(db: Db, k: TargetKey, entire: bool): Db
    requires k in db.targets && db.targets[k].plan.Some? && db.targets[k].plan.value in db.plans
  {
    var plan := db.targets[k].plan.value;
    db.(revision := db.revision + 1,
        ledger := map u | u in db.ledger ::
                    ReleasedRow(db.ledger[u], plan, Scope(k, entire), db.revision + 1),
        targets := map key | key in db.targets ::
                     ReleasedTarget(key, db.targets[key], k, plan, entire),
        plans := if db.plans[plan].status == Finalized then
                   db.plans[plan := db.plans[plan].(status := PlanReleased)]
                 else db.plans)
  }

  /** The context that a release returns: the previous count less the reserved rows it found. */
  function ReleaseContext(db: Db, k: TargetKey, entire: bool): Context
    requires k in db.targets && db.targets[k].plan.Some?
  {
    var gone := |PlanRows(db, db.targets[k].plan.value, Scope(k, entire), Reserved)|;
    var before := |ActiveUsers(db)|;
    Context(db.revision + 1, if before >= gone then before - gone else 0)
  }

  function Release(db: Db, limit: nat, k: TargetKey, entire: bool)
    : (Db, Outcome<Context, Error>)
  {
    var rejection := ReleaseRejection(db, k, entire);
    if rejection.Some? then (db, Raised(rejection.value))
    else
      var batch := db.plans[db.targets[k].plan.value].batch;
      Finish(db, AfterRelease(db, k, entire), limit, batch, {}, ReleaseContext(db, k, entire))
  }

  // ---------------------------------------------------------------------------
  // Binding a run
  // ---------------------------------------------------------------------------

  datatype BindItem = BindItem(target: TargetKey, plan: PlanId, snapshot: SnapshotId)

  predicate Names(row: LedgerRow, item: BindItem) {
    row.target == item.target && row.plan == item.plan && row.snapshot == item.snapshot
  }

  function RowsNaming(db: Db, item: BindItem, state: Reservation): set<UserId> {
    set u | u in db.ledger && Names(db.ledger[u], item) && db.ledger[u].state == state
  }

  /** The final snapshot's members are exactly the ledger rows that name the target. */
  predicate FullyHeld(db: Db, item: BindItem, state: Reservation) {
    && item.plan in db.plans
    && item.snapshot in db.finals
    && db.finals[item.snapshot].plan == item.plan
    && db.finals[item.snapshot].userCount > 0
    && |MembersOf(db, item.snapshot)| == db.finals[item.snapshot].userCount
    && |RowsNaming(db, item, state)| == db.finals[item.snapshot].userCount
    && MembersOf(db, item.snapshot).Keys <= RowsNaming(db, item, state)
  }

  predicate ItemAccepted(db: Db, run: RunId, item: BindItem) {
    && item.target in db.targets
    && db.targets[item.target].snapshot == Some(item.snapshot)
    && db.targets[item.target].plan == Some(item.plan)
    && db.targets[item.target].state.Some?
    && FullyHeld(db, item, db.targets[item.target].state.value)
    && Live(db.plans[item.plan])
    && (if item.target in db.bindings then
          db.bindings[item.target] == Binding(run, item.plan, item.snapshot)
        else
          db.targets[item.target].state == Some(Reserved) && run in db.runs)
  }

  predicate DistinctItems(items: seq<BindItem>) {
    forall i, j :: 0 <= i < j < |items| ==> items[i].target.segment != items[j].target.segment
  }

  function PendingItems(db: Db, items: seq<BindItem>): seq<BindItem> {
    if items == [] then []
    else
      var front, last := items[..|items| - 1], items[|items| - 1];
      PendingItems(db, front) + (if last.target in db.bindings then [] else [last])
  }

  function Bump(db: Db): Db {
    db.(revision := db.revision + 1)
  }

  function ConsumedRow(row: LedgerRow, item: BindItem, revision: nat): LedgerRow {
    if Names(row, item) && row.state == Reserved then
      row.(state := Consumed, revision := revision)
    else row
  }

  function ConsumedTarget(k: TargetKey, t: Target, item: BindItem): Target {
    if k == item.target && t.plan == Some(item.plan) && t.snapshot == Some(item.snapshot)
       && t.state == Some(Reserved) then
      t.(state := Some(Consumed))
    else t
  }

  /** The four writes of `_consume_binding_reservation`, at the revision already advanced. */
  function ConsumeOne(db: Db, run: RunId, item: BindItem): Db {
    db.(ledger := map u | u in db.ledger :: ConsumedRow(db.ledger[u], item, db.revision),
        targets := map k | k in db.targets :: ConsumedTarget(k, db.targets[k], item),
        bindings := db.bindings[item.target := Binding(run, item.plan, item.snapshot)],
        plans := if item.plan in db.plans && db.plans[item.plan].status == Finalized then
                   db.plans[item.plan := db.plans[item.plan].(status := Locked)]
                 else db.plans)
  }

  function ConsumeAll(db: Db, run: RunId, items: seq<BindItem>): Db {
    if items == [] then db
    else ConsumeOne(ConsumeAll(db, run, items[..|items| - 1]), run, items[|items| - 1])
  }

  function BoundTo(db: Db, run: RunId): set<TargetKey> {
    set k | k in db.bindings && db.bindings[k].run == run
  }

  predicate BoundRowValid(db: Db, k: TargetKey)
    requires k in db.bindings
  {
    var b := db.bindings[k];
    && k in db.targets && BindingMatches(db, k)
    && FullyHeld(db, BindItem(k, b.plan, b.snapshot), Consumed)
    && db.plans[b.plan].status == Locked
    && db.targets[k].state == Some(Consumed)
    && db.finals[b.snapshot].status != NoEligibleAudience
  }

  /** `require_run_binding_set`. */
  predicate RunSetValid(db: Db, run: RunId, expected: set<SegmentId>) {
    var keys := BoundTo(db, run);
    && (set k | k in keys :: k.segment) == expected
    && |keys| == |expected|
    && (forall k <- keys :: BoundRowValid(db, k))
    && NoSharedMember(db, keys)
  }

  predicate NoSharedMember(db: Db, keys: set<TargetKey>)
    requires keys <= db.bindings.Keys
  {
    forall a <- keys, b <- keys :: a != b ==>
      MembersOf(db, db.bindings[a].snapshot).Keys !! MembersOf(db, db.bindings[b].snapshot).Keys
  }

  function BindWrites(db: Db, run: RunId, items: seq<BindItem>): Db {
    var pending := PendingItems(db, items);
    if pending == [] then db else ConsumeAll(Bump(db), run, pending)
  }

  function BindRun(db: Db, run: RunId, items: seq<BindItem>): (Db, Outcome<(), Error>) {
    if items == [] || !DistinctItems(items) then (db, Raised(RunBindingRejected))
    else if exists item :: item in items && !ItemAccepted(db, run, item) then
      (db, Raised(RunBindingRejected))
    else
      var after := BindWrites(db, run, items);
      if RunSetValid(after, run, set item | item in items :: item.target.segment) then
        (after, Done(()))
      else (db, Raised(RunBindingRejected))
  }
}
