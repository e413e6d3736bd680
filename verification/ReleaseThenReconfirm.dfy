/**
 Where the reservation guarantee fails: a plan is released and the same selection is confirmed
 again. The confirmation id is a hash of the selection, so it is the id of the first
 confirmation, whose target row still carries the released plan and cannot be bound again.
 */
module ReleaseThenReconfirm {
  import opened Wrappers
  import opened AudienceTables
  import opened WinnerSelection
  import opened AllocationProtocol
  import opened AllocationInvariant
  import opened ConfirmTheorems
  import opened CoherentInvariant
  import opened ReservationRuns
  import opened RetryTheorems
  import opened SoloConfirmations
  import opened ProjectionProtocol
  import opened ExclusionProjection
  import opened StalledProjection
  import opened TargetUpserts

  /** Segment 1 is confirmed for user 5 as analysis 10. */
  const SOLO := Solo(10, 1, 7, 5)
  const AGAIN := SOLO.Request()

  const FIRST := PlanId({7}, {1}, 0)
  const FIRST_SNAPSHOT := FinalSnapshot(FIRST, 1)
  const KEY := TargetKey(10, 1)

  /** Segment 1 is defined and its source snapshot stored; nothing is confirmed yet. */
  const STORED := Db(map[], map[], map[], map[], map[SourceSnapshot(7) := SOLO.Audience()], map[],
                     map[], 0, {1}, map[], map[])

  const RESERVED_ONCE := SOLO.Confirmed(STORED)

  /** The tables after confirming segment 1 for user 5 and releasing the plan. */
  const RELEASED_ONCE := Db(
    map[5 := LedgerRow(KEY, FIRST, FIRST_SNAPSHOT, Released, 2)],
    map[KEY := Target(false, Some(FIRST_SNAPSHOT), Some(FIRST), Some(Released))],
    map[FIRST := Plan(10, 20, {1}, 1, PlanReleased)],
    map[FIRST_SNAPSHOT := FinalRow(1, 7, FIRST, 1, true, Targetable)],
    map[SourceSnapshot(7) := SOLO.Audience(), FIRST_SNAPSHOT := SOLO.Audience()],
    map[], map[], 2, {1}, map[], map[20 := []])

  // ---------------------------------------------------------------------------
  // The released state is reached
  // ---------------------------------------------------------------------------

  lemma StoringIsSurrounding()
    ensures Permitted(EMPTY_DB, 3, SurroundingStep(STORED))
  {
  }

  lemma FirstConfirms()
    ensures Confirm(STORED, 3, AGAIN).0 == RESERVED_ONCE
    ensures Binds(STORED, 3, ConfirmStep(AGAIN))
  {
    SoloConfirms(STORED, SOLO);
  }

  lemma ReservedOnce()
    ensures RESERVED_ONCE
         == Db(map[5 := LedgerRow(KEY, FIRST, FIRST_SNAPSHOT, Reserved, 1)],
               map[KEY := Target(false, Some(FIRST_SNAPSHOT), Some(FIRST), Some(Reserved))],
               map[FIRST := Plan(10, 20, {1}, 1, Finalized)], RELEASED_ONCE.finals,
               RELEASED_ONCE.members, map[], map[], 1, {1}, map[], map[20 := []])
  {
  }

  lemma ThenWrites(db: Db)
    requires db.ledger == map[5 := LedgerRow(KEY, FIRST, FIRST_SNAPSHOT, Reserved, 1)]
    requires db.targets == map[KEY := Target(false, Some(FIRST_SNAPSHOT), Some(FIRST), Some(Reserved))]
    requires db.plans == map[FIRST := Plan(10, 20, {1}, 1, Finalized)]
    requires db.revision == 1
    requires db == RELEASED_ONCE.(ledger := db.ledger, targets := db.targets, plans := db.plans,
                                  revision := db.revision)
    ensures AfterRelease(db, KEY, true) == RELEASED_ONCE
    ensures ReleaseRejection(db, KEY, true) == None
  {
    assert PlanRows(db, FIRST, None, Consumed) == {};
  }

  lemma ThenReleases()
    ensures Release(RESERVED_ONCE, 3, KEY, true).0 == RELEASED_ONCE
  {
    ReservedOnce();
    ThenWrites(RESERVED_ONCE);
    NothingSuggested(RELEASED_ONCE, 3, {});
  }

  /** Three permitted steps lead from empty tables to the released state. */
  lemma ReleasedOnceIsReached() returns (steps: seq<Step>)
    ensures |steps| == 3 && LeadsTo(steps, RELEASED_ONCE)
  {
    StoringIsSurrounding();
    StepLeadsTo([], EMPTY_DB, SurroundingStep(STORED), STORED);
    var stored := [] + [SurroundingStep(STORED)];
    FirstConfirms();
    StepLeadsTo(stored, STORED, ConfirmStep(AGAIN), RESERVED_ONCE);
    var confirmed := stored + [ConfirmStep(AGAIN)];
    ThenReleases();
    StepLeadsTo(confirmed, RESERVED_ONCE, ReleaseStep(KEY, true), RELEASED_ONCE);
    steps := confirmed + [ReleaseStep(KEY, true)];
  }

  lemma ReleasedOnceKeepsInv()
    ensures Inv(RELEASED_ONCE)
  {
    var steps := ReleasedOnceIsReached();
    InitialInv();
    RunKeepsInv(EMPTY_DB, 3, steps);
  }

  // ---------------------------------------------------------------------------
  // The second confirmation
  // ---------------------------------------------------------------------------

  lemma AgainPath()
    ensures Path(RELEASED_ONCE, 3, AGAIN) == Fresh(20, [SOLO.Source()])
    ensures Winners(RELEASED_ONCE, [SOLO.Source()]) == map[5 := SOLO.Source()]
    ensures Selected(AGAIN) == {1}
  {
    SoloLoads(RELEASED_ONCE, SOLO);
    SoloWins(RELEASED_ONCE, SOLO);
    SoloIsFresh(RELEASED_ONCE, SOLO);
  }

  lemma AgainCommits()
    ensures CommitsFresh(RELEASED_ONCE, 3, AGAIN) && !Bindable(RELEASED_ONCE, 10, 1)
  {
    ReleasedOnceKeepsInv();
    AgainPath();
    FreshPathReady(RELEASED_ONCE, 3, AGAIN);
    FreshNeverRefused(RELEASED_ONCE, 3, 10, 1, 20, [SOLO.Source()]);
    assert Candidates(Commit(RELEASED_ONCE, 10, 1, 20, [SOLO.Source()]), 20, {1}) == [];
  }

  /**
   The second confirmation is accepted and reported as committed, yet its user is neither
   excluded from later selections nor free to be reserved by them.
   */
  lemma ReconfirmationIsUnprotected()
    ensures Inv(RELEASED_ONCE) && CommitsFresh(RELEASED_ONCE, 3, AGAIN)
    ensures var next := Confirm(RELEASED_ONCE, 3, AGAIN).0;
            && 5 in next.ledger && next.ledger[5].state == Reserved
            && next.ledger[5].plan in next.plans
            && !Inv(next) && !Excluded(next, 5) && !Upsertable(next, 5)
  {
    ReleasedOnceKeepsInv();
    AgainPath();
    AgainCommits();
    ConfirmKeepsInvIff(RELEASED_ONCE, 3, AGAIN);
    FreshCommitWrites(RELEASED_ONCE, 3, AGAIN);
    UnbindableWinner(RELEASED_ONCE, Commit(RELEASED_ONCE, 10, 1, 20, [SOLO.Source()]),
                     FreshWrite(RELEASED_ONCE, 3, AGAIN), 5);
    ExclusionIgnoresPreviews(Commit(RELEASED_ONCE, 10, 1, 20, [SOLO.Source()]),
                             Confirm(RELEASED_ONCE, 3, AGAIN).0);
  }

  /** A winner of an unbindable target holds a live row that joins no target. */
  lemma UnbindableWinner(db: Db, next: Db, c: Write, u: UserId)
    requires TargetsWellBound(db) && Wrote(db, next, c)
    requires u in c.w && !Bindable(db, c.analysis, c.w[u].segment)
    ensures u in next.ledger && next.ledger[u].state == Reserved && next.ledger[u].plan in next.plans
    ensures !Joined(next, next.ledger[u]) && !Excluded(next, u) && !Upsertable(next, u)
  {
    WinnerJoinsIff(db, next, c, u);
  }

  // ---------------------------------------------------------------------------
  // What follows it
  // ---------------------------------------------------------------------------

  /**
   From then on every confirmation that wins such a user fails and writes nothing: already when it
   loads the context, if the projection has to be synchronised and no ledger row joins its target,
   and otherwise when it reserves its winners.
   */
  lemma UnprotectedUserBlocksConfirmations(db: Db, p: Projection, limit: nat, req: Request,
                                           u: UserId)
    requires Path(db, limit, req).Fresh?
    requires u in Winners(db, Path(db, limit, req).sources)
    requires u in db.ledger && db.ledger[u].plan in db.plans
    requires !Upsertable(db, u) && !Joined(db, db.ledger[u])
    ensures var (next, _, r) := ConfirmLoading(db, p, limit, req);
            && next == db
            && r == Raised(if NeedsSync(db, p) && db.revision > 0 && JoinedUsers(db) == {} then
                             ProjectionNotReady else ExclusionConflict)
  {
    FreshReachesLoad(db, limit, req);
    LoadRaisesIff(db, p);
    UnprotectedUserConflicts(db, limit, req, u);
  }

  lemma UnprotectedUserConflicts(db: Db, limit: nat, req: Request, u: UserId)
    requires Path(db, limit, req).Fresh?
    requires u in Winners(db, Path(db, limit, req).sources)
    requires u in db.ledger && db.ledger[u].plan in db.plans
    requires !Upsertable(db, u) && !Joined(db, db.ledger[u])
    ensures Confirm(db, limit, req) == (db, Raised(ExclusionConflict))
  {
    var path := Path(db, limit, req);
    FreshPathReady(db, limit, req);
    StillUnjoined(db, req.analysis, req.minimum, path.batch, path.sources, u);
  }

  lemma StillUnjoined(db: Db, analysis: AnalysisId, minimum: int, batch: AnalysisId,
                      sources: seq<Source>, u: UserId)
    requires Ready(db, sources)
    requires u in db.ledger && db.ledger[u].plan in db.plans
    requires !Upsertable(db, u) && !Joined(db, db.ledger[u])
    ensures !Upsertable(BeforeReserve(db, analysis, minimum, batch, sources), u)
  {
    BeforeReserveTargets(db, analysis, minimum, batch, sources);
  }

  /**
   With user 5 alone in the ledger the second confirmation leaves no row that joins a target: from
   consistent stores, it is the last transaction of the promotion that ever writes the ledger.
   */
  lemma ReconfirmationStallsPromotion(p: Projection, steps: seq<SystemStep>)
    requires Tracks(RELEASED_ONCE, p)
    requires var (next, q, _) := ConfirmLoading(RELEASED_ONCE, p, 3, AGAIN);
             SystemRun(System(next, q), 3, steps)
    ensures var (next, q, r) := ConfirmLoading(RELEASED_ONCE, p, 3, AGAIN);
            && r.Done? && Stalled(System(next, q))
            && LedgerSame(next, SystemAfter(System(next, q), 3, steps).db)
  {
    var (next, q, r) := ConfirmLoading(RELEASED_ONCE, p, 3, AGAIN);
    ReconfirmationStalls(p);
    StalledForGood(System(next, q), 3, steps, SurroundingStep(next));
  }

  lemma ReconfirmationStalls(p: Projection)
    requires Tracks(RELEASED_ONCE, p)
    ensures var (next, q, r) := ConfirmLoading(RELEASED_ONCE, p, 3, AGAIN);
            r.Done? && Stalled(System(next, q))
  {
    AgainBindsNothing();
    ReleasedOnceMirrored(p);
    LoadAfterConfirmIff(System(RELEASED_ONCE, p), 3, AGAIN);
  }

  lemma AgainBindsNothing()
    ensures !BindsSome(RELEASED_ONCE, AGAIN.analysis, Selected(AGAIN))
    ensures CommitsFresh(RELEASED_ONCE, 3, AGAIN)
    ensures JoinedUsers(RELEASED_ONCE) <= FreshWrite(RELEASED_ONCE, 3, AGAIN).w.Keys
  {
    AgainPath();
    AgainCommits();
  }

  lemma ReleasedOnceMirrored(p: Projection)
    requires Tracks(RELEASED_ONCE, p)
    ensures Mirrored(System(RELEASED_ONCE, p))
    ensures !LoadStops(System(RELEASED_ONCE, p), 3, ConfirmStep(AGAIN))
  {
    ReleasedOnceIsCoherent();
    ReleasedOnceKeepsInv();
    LoadReturns(RELEASED_ONCE, p);
  }

  /** Nor does the save that follows the second confirmation help: the row stays with the first plan. */
  lemma SavingDoesNotRepair(p: Projection, plan: Option<PlanId>)
    requires Tracks(RELEASED_ONCE, p)
    ensures var (next, q, _) := ConfirmLoading(RELEASED_ONCE, p, 3, AGAIN);
            Stalled(System(SaveTarget(next, KEY, plan), q))
  {
    var (next, q, _) := ConfirmLoading(RELEASED_ONCE, p, 3, AGAIN);
    ReconfirmationStalls(p);
    KeyStaysBound(p);
    BoundSaveJoinsSame(next, KEY, plan);
  }

  lemma KeyStaysBound(p: Projection)
    requires Tracks(RELEASED_ONCE, p)
    ensures var next := ConfirmLoading(RELEASED_ONCE, p, 3, AGAIN).0;
            KEY in next.targets && BoundToPlan(next, KEY)
  {
    AgainCommits();
    ReleasedOnceMirrored(p);
    ConfirmLeavesBehind(System(RELEASED_ONCE, p), 3, AGAIN);
    ConfirmStepKeepsCoherent(RELEASED_ONCE, 3, AGAIN);
    ConfirmFreezes(RELEASED_ONCE, 3, AGAIN);
    BoundStaysBound(RELEASED_ONCE, Confirm(RELEASED_ONCE, 3, AGAIN).0, KEY);
  }

  lemma ReleasedOnceIsCoherent()
    ensures Coherent(RELEASED_ONCE)
  {
    var steps := ReleasedOnceIsReached();
    InitiallyCoherent();
    RunKeepsCoherent(EMPTY_DB, 3, steps);
  }

  lemma BoundStaysBound(db: Db, next: Db, k: TargetKey)
    requires k in db.targets && db.targets[k].plan.Some?
    requires TargetsFrozen(db, next) && TargetsWellBound(next)
    ensures k in next.targets && BoundToPlan(next, k)
  {
  }
}
