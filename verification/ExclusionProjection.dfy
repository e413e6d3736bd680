/**
 When the projected exclusions are exact, and the two stores together: ledger transactions that load
 the context on their way, synchronisations that die, and everything around them.
 */
module ExclusionProjection {
  import opened Wrappers
  import opened AudienceTables
  import opened SetSizes
  import opened WinnerSelection
  import opened AllocationProtocol
  import opened AllocationInvariant
  import opened ReleaseInvariant
  import opened BindInvariant
  import opened ConfirmTheorems
  import opened CoherentInvariant
  import opened ReservationRuns
  import opened RetryTheorems
  import opened ProjectionProtocol

  // ---------------------------------------------------------------------------
  // How every transaction moves the ledger
  // ---------------------------------------------------------------------------

  ghost predicate RowsDated(db: Db) {
    forall u <- db.ledger :: 0 < db.ledger[u].revision <= db.revision
  }

  /** No row is ever removed, and one that is written gets the new revision. */
  ghost predicate Rewrites(db: Db, next: Db) {
    && db.revision <= next.revision
    && (forall u <- db.ledger ::
          && u in next.ledger
          && (next.ledger[u] == db.ledger[u]
              || next.ledger[u].revision == next.revision > db.revision))
    && (forall u <- next.ledger ::
          u !in db.ledger ==> next.ledger[u].revision == next.revision > db.revision)
  }

  lemma RewritesKeepDates(db: Db, next: Db)
    requires RowsDated(db) && Rewrites(db, next)
    ensures RowsDated(next)
  {
  }

  lemma CommitRewrites(db: Db, analysis: AnalysisId, minimum: int, batch: AnalysisId,
                       sources: seq<Source>)
    ensures Rewrites(db, Commit(db, analysis, minimum, batch, sources))
  {
    ReserveRewrites(BeforeReserve(db, analysis, minimum, batch, sources), analysis,
                    PlanFor(db, sources), Winners(db, sources));
  }

  lemma ReserveRewrites(ready: Db, analysis: AnalysisId, plan: PlanId, w: map<UserId, Source>)
    ensures var next := Reserve(ready, analysis, plan, w);
            && next.revision == ready.revision
            && (forall u <- ready.ledger ::
                  && u in next.ledger
                  && (next.ledger[u] == ready.ledger[u]
                      || next.ledger[u].revision == ready.revision))
            && (forall u <- next.ledger ::
                  u !in ready.ledger ==> next.ledger[u].revision == ready.revision)
  {
  }

  lemma ReleaseRewrites(db: Db, k: TargetKey, entire: bool)
    requires k in db.targets && db.targets[k].plan.Some? && db.targets[k].plan.value in db.plans
    ensures Rewrites(db, AfterRelease(db, k, entire))
  {
  }

  lemma {:induction false} ConsumeAllRewrites(db: Db, run: RunId, items: seq<BindItem>)
    ensures var next := ConsumeAll(db, run, items);
            && next.revision == db.revision && next.ledger.Keys == db.ledger.Keys
            && forall u <- db.ledger ::
                 next.ledger[u] == db.ledger[u] || next.ledger[u].revision == db.revision
  {
    if items != [] {
      ConsumeAllRewrites(db, run, items[..|items| - 1]);
    }
  }

  lemma BindRewrites(db: Db, run: RunId, items: seq<BindItem>)
    ensures Rewrites(db, BindRun(db, run, items).0)
  {
    BindStepWrites(db, run, items);
    ConsumeAllRewrites(Bump(db), run, PendingItems(db, items));
  }

  lemma PreviewsRewriteNothing(db: Db, mid: Db, next: Db)
    requires Rewrites(db, mid) && SameReservations(mid, next)
    ensures Rewrites(db, next)
  {
  }

  lemma StepRewrites(db: Db, limit: nat, step: Step)
    requires Permitted(db, limit, step)
    ensures Rewrites(db, Next(db, limit, step))
  {
    match step
    case ConfirmStep(req) => ConfirmRewrites(db, limit, req);
    case ReleaseStep(k, entire) =>
      ReleaseStepWrites(db, limit, k, entire);
      if Release(db, limit, k, entire).1.Done? {
        ReleaseRewrites(db, k, entire);
        PreviewsRewriteNothing(db, AfterRelease(db, k, entire), Release(db, limit, k, entire).0);
      }
    case BindStep(run, items) => BindRewrites(db, run, items);
    case SurroundingStep(_) =>
  }

  lemma ConfirmRewrites(db: Db, limit: nat, req: Request)
    ensures Rewrites(db, Confirm(db, limit, req).0)
  {
    if CommitsFresh(db, limit, req) {
      var path := Path(db, limit, req);
      FreshIsActed(db, limit, req);
      FreshRewrites(db, limit, req.analysis, req.minimum, path.batch, path.sources);
    } else {
      UncommittedChangesNothing(db, limit, req);
    }
  }

  lemma FreshRewrites(db: Db, limit: nat, analysis: AnalysisId, minimum: int, batch: AnalysisId,
                      sources: seq<Source>)
    ensures Rewrites(db, ConfirmFresh(db, limit, analysis, minimum, batch, sources).0)
  {
    var mid := Commit(db, analysis, minimum, batch, sources);
    var result := CommitResult(db, minimum, batch, sources);
    CommitRewrites(db, analysis, minimum, batch, sources);
    FinishCommits(db, mid, limit, batch, SegmentsOf(sources), result);
    if Finish(db, mid, limit, batch, SegmentsOf(sources), result).1.Done? {
      PreviewsRewriteNothing(db, mid, Finish(db, mid, limit, batch, SegmentsOf(sources), result).0);
    }
  }

  // ---------------------------------------------------------------------------
  // What the projection always satisfies
  // ---------------------------------------------------------------------------

  /** The row joins its target and the target is active. */
  predicate RowActive(db: Db, row: LedgerRow) {
    Joined(db, row) && TargetActive(db, row.target)
  }

  /** A projected row newer than the ledger row is a release. */
  ghost predicate RowFollows(db: Db, u: UserId, row: ProjectedRow) {
    && u in db.ledger && row.revision <= db.revision
    && (row.revision > db.ledger[u].revision ==> row.state == Released)
  }

  /**
   Beside the ledger row of an active target a projected row never runs ahead, and where the ledger
   row joins no target the user is not projected as active.
   */
  ghost predicate RowTracks(db: Db, u: UserId, row: ProjectedRow) {
    && RowFollows(db, u, row)
    && (RowActive(db, db.ledger[u]) ==>
          && row.revision <= db.ledger[u].revision
          && (row.revision == db.ledger[u].revision ==> row.state == db.ledger[u].state))
    && (!Joined(db, db.ledger[u]) ==> row.state == Released)
  }

  /** At the current revision every active user is projected as active. */
  ghost predicate Tracks(db: Db, p: Projection) {
    && (forall u <- p.rows :: RowTracks(db, u, p.rows[u]))
    && (p.applied.Some? ==> p.applied.value <= db.revision)
    && (p.applied == Some(db.revision) ==>
          forall u <- ActiveUsers(db) :: u in p.rows && p.rows[u].revision == db.ledger[u].revision)
  }

  lemma TracksInitially()
    ensures Tracks(EMPTY_DB, EMPTY_PROJECTION)
  {
  }

  /** At equal revision the projection can only show too many users. */
  lemma CaughtUpIsSuperset(db: Db, p: Projection)
    requires Tracks(db, p) && p.applied == Some(db.revision)
    ensures ActiveUsers(db) <= ProjectedActive(p.rows)
  {
    forall u | u in ActiveUsers(db)
      ensures u in ProjectedActive(p.rows)
    {
      assert RowTracks(db, u, p.rows[u]);
    }
  }

  /** Inserting the rows of any users keeps what the projection tracks. */
  lemma PartialSyncTracks(db: Db, p: Projection, users: set<UserId>)
    requires RowsDated(db) && Tracks(db, p) && users <= JoinedUsers(db)
    ensures Tracks(db, p.(rows := SyncedRows(db, p.rows, users)))
  {
    var rows := SyncedRows(db, p.rows, users);
    forall u | u in rows
      ensures RowTracks(db, u, rows[u])
    {
      if u in p.rows {
        assert RowTracks(db, u, p.rows[u]);
      }
    }
    forall u | u in ActiveUsers(db) && p.applied == Some(db.revision)
      ensures u in rows && rows[u].revision == db.ledger[u].revision
    {
      assert RowTracks(db, u, p.rows[u]);
    }
  }

  /** Inserting every row that joins makes the projected active set exact. */
  lemma FullSyncIsExact(db: Db, p: Projection)
    requires RowsDated(db) && Tracks(db, p)
    ensures var rows := SyncedRows(db, p.rows, JoinedUsers(db));
            && ProjectedActive(rows) == ActiveUsers(db)
            && Tracks(db, Projection(rows, Some(db.revision)))
  {
    var rows := SyncedRows(db, p.rows, JoinedUsers(db));
    PartialSyncTracks(db, p, JoinedUsers(db));
    forall u | u in rows
      ensures rows[u].state != Released <==> Excluded(db, u)
      ensures Excluded(db, u) ==> rows[u].revision == db.ledger[u].revision
    {
      SyncedRowIsExact(db, p, u);
    }
  }

  lemma SyncedRowIsExact(db: Db, p: Projection, u: UserId)
    requires RowsDated(db) && Tracks(db, p) && u in SyncedRows(db, p.rows, JoinedUsers(db))
    ensures var row := SyncedRows(db, p.rows, JoinedUsers(db))[u];
            && (row.state != Released <==> Excluded(db, u))
            && (Excluded(db, u) ==> row.revision == db.ledger[u].revision)
  {
    if u in p.rows {
      assert RowTracks(db, u, p.rows[u]);
    }
  }

  // ---------------------------------------------------------------------------
  // The projection while the ledger moves
  // ---------------------------------------------------------------------------

  /** The user's row is rewritten at the new revision, or it stays and its target gains nothing. */
  ghost predicate RowMoved(db: Db, next: Db, u: UserId)
    requires u in db.ledger && u in next.ledger
  {
    || next.ledger[u].revision == next.revision
    || (&& next.ledger[u] == db.ledger[u]
        && (RowActive(next, next.ledger[u]) ==> RowActive(db, db.ledger[u])))
  }

  ghost predicate StaysJoined(db: Db, next: Db, u: UserId)
    requires u in db.ledger && u in next.ledger
  {
    Joined(db, db.ledger[u]) ==> Joined(next, next.ledger[u])
  }

  /** No row is parted from its target. */
  ghost predicate Advanced(db: Db, next: Db) {
    && db.revision < next.revision
    && forall u <- db.ledger :: u in next.ledger && RowMoved(db, next, u) && StaysJoined(db, next, u)
  }

  lemma AdvanceTracks(db: Db, next: Db, p: Projection)
    requires Tracks(db, p) && db.revision < next.revision
    requires forall u <- db.ledger :: u in next.ledger && RowMoved(db, next, u)
    requires forall u <- p.rows ::
               u in db.ledger && u in next.ledger
               && (StaysJoined(db, next, u) || p.rows[u].state == Released)
    ensures Tracks(next, p)
  {
    forall u | u in p.rows
      ensures RowTracks(next, u, p.rows[u])
    {
      assert RowTracks(db, u, p.rows[u]);
      assert RowMoved(db, next, u);
    }
  }

  lemma JoinedAdvanceTracks(db: Db, next: Db, p: Projection)
    requires Tracks(db, p) && Advanced(db, next)
    ensures Tracks(next, p)
  {
    forall u | u in p.rows
      ensures u in db.ledger && u in next.ledger && StaysJoined(db, next, u)
    {
      assert RowTracks(db, u, p.rows[u]);
    }
    AdvanceTracks(db, next, p);
  }

  lemma ReleaseAdvances(db: Db, next: Db, plan: PlanId)
    requires GaveBack(db, next, plan)
    ensures Advanced(db, next)
  {
    forall u | u in db.ledger
      ensures u in next.ledger && RowMoved(db, next, u) && StaysJoined(db, next, u)
    {
      GaveBackJoins(db, next, plan, u);
    }
  }

  /** One consumed target, at a revision that was advanced before. */
  ghost predicate Shifted(db: Db, next: Db) {
    && next.revision == db.revision
    && forall u <- db.ledger :: u in next.ledger && RowMoved(db, next, u) && StaysJoined(db, next, u)
  }

  lemma TookShifts(db: Db, next: Db, run: RunId, item: BindItem)
    requires Reservable(db, run, item) && Took(db, next, run, item)
    ensures Shifted(db, next)
  {
    forall u | u in db.ledger
      ensures u in next.ledger && RowMoved(db, next, u) && StaysJoined(db, next, u)
    {
      TookMovesRow(db, next, run, item, u);
    }
  }

  lemma TookMovesRow(db: Db, next: Db, run: RunId, item: BindItem, u: UserId)
    requires Reservable(db, run, item) && u in db.ledger
    requires TookTargets(db, next, item) && TookRows(db, next, item) && TookBinding(db, next, run, item)
    ensures u in next.ledger && RowMoved(db, next, u) && StaysJoined(db, next, u)
  {
    if db.ledger[u].target in db.targets {
      TookKeepsActivity(db, next, run, item, db.ledger[u].target);
    }
  }

  lemma ShiftAfterAdvance(a: Db, b: Db, c: Db)
    requires Advanced(a, b) && Shifted(b, c)
    ensures Advanced(a, c)
  {
    forall u | u in a.ledger
      ensures u in c.ledger && RowMoved(a, c, u) && StaysJoined(a, c, u)
    {
      assert RowMoved(a, b, u) && RowMoved(b, c, u);
      assert StaysJoined(a, b, u) && StaysJoined(b, c, u);
    }
  }

  lemma BumpAdvances(db: Db)
    ensures Advanced(db, Bump(db))
  {
    forall u | u in db.ledger
      ensures RowMoved(db, Bump(db), u) && StaysJoined(db, Bump(db), u)
    {
    }
  }

  lemma {:induction false} ConsumeAllAdvances(db: Db, start: Db, run: RunId, items: seq<BindItem>)
    requires Coherent(start) && Consumable(start, run, items) && Advanced(db, start)
    ensures Advanced(db, ConsumeAll(start, run, items))
  {
    if items != [] {
      var front, last := items[..|items| - 1], items[|items| - 1];
      var mid := ConsumeAll(start, run, front);
      LastStaysReservable(start, run, items);
      ConsumeAllAdvances(db, start, run, front);
      ConsumeAllKeepsCoherent(start, run, front);
      ConsumeOneTakes(mid, run, last);
      TookShifts(mid, ConsumeOne(mid, run, last), run, last);
      ShiftAfterAdvance(db, mid, ConsumeOne(mid, run, last));
    }
  }

  lemma SurroundingMovesRow(db: Db, next: Db, u: UserId)
    requires BindingsJoin(db) && Surrounding(db, next) && u in db.ledger
    ensures RowActive(next, db.ledger[u]) ==> RowActive(db, db.ledger[u])
    ensures Joined(next, db.ledger[u]) == Joined(db, db.ledger[u])
  {
    if db.ledger[u].target in db.targets {
      ActivityOnlyLost(db, next, db.ledger[u].target);
    }
  }

  lemma SurroundingTracks(db: Db, next: Db, p: Projection)
    requires BindingsJoin(db) && Surrounding(db, next) && Tracks(db, p)
    ensures Tracks(next, p)
  {
    forall u | u in p.rows
      ensures RowTracks(next, u, p.rows[u])
    {
      assert RowTracks(db, u, p.rows[u]);
      SurroundingMovesRow(db, next, u);
    }
    forall u | u in ActiveUsers(next)
      ensures u in ActiveUsers(db)
    {
      SurroundingMovesRow(db, next, u);
    }
  }

  lemma PreviewsDoNotMove(db: Db, mid: Db, next: Db)
    requires Advanced(db, mid) && SameReservations(mid, next)
    ensures Advanced(db, next)
  {
    forall u | u in db.ledger
      ensures u in next.ledger && RowMoved(db, next, u) && StaysJoined(db, next, u)
    {
      assert RowMoved(db, mid, u) && StaysJoined(db, mid, u);
    }
  }

  lemma TracksIgnorePreviews(a: Db, b: Db, p: Projection)
    requires Tracks(a, p) && SameReservations(a, b)
    ensures Tracks(b, p)
  {
    forall u | u in p.rows
      ensures RowTracks(b, u, p.rows[u])
    {
      assert RowTracks(a, u, p.rows[u]);
    }
    ExclusionIgnoresPreviews(a, b);
  }

  /** Winners are not excluded, so an exact projection does not show them as active. */
  lemma WriteTracks(db: Db, next: Db, c: Write, p: Projection)
    requires RowsNamePlans(db) && Wrote(db, next, c)
    requires Tracks(db, p) && ProjectedActive(p.rows) == ActiveUsers(db)
    ensures Tracks(next, p)
  {
    forall u | u in db.ledger
      ensures u in next.ledger && RowMoved(db, next, u)
      ensures u !in c.w ==> StaysJoined(db, next, u)
    {
      if u !in c.w {
        OldRowJoinsIff(db, next, c, db.ledger[u]);
      }
    }
    forall u | u in p.rows
      ensures u in db.ledger && (u in c.w ==> p.rows[u].state == Released)
    {
      assert RowTracks(db, u, p.rows[u]);
      assert u in c.w ==> u !in ProjectedActive(p.rows);
    }
    AdvanceTracks(db, next, p);
  }

  lemma ConfirmTracks(db: Db, limit: nat, req: Request, p: Projection)
    requires FinalsMatchPlans(db) && RowsNamePlans(db) && Tracks(db, p)
    requires CommitsFresh(db, limit, req) ==> ProjectedActive(p.rows) == ActiveUsers(db)
    ensures Tracks(Confirm(db, limit, req).0, p)
  {
    if CommitsFresh(db, limit, req) {
      var path := Path(db, limit, req);
      var mid := Commit(db, req.analysis, req.minimum, path.batch, path.sources);
      FreshCommitWrites(db, limit, req);
      WriteTracks(db, mid, FreshWrite(db, limit, req), p);
      TracksIgnorePreviews(mid, Confirm(db, limit, req).0, p);
    } else {
      UncommittedChangesNothing(db, limit, req);
    }
  }

  lemma ReleaseTracks(db: Db, limit: nat, k: TargetKey, entire: bool, p: Projection)
    requires Coherent(db) && Tracks(db, p)
    ensures Tracks(Release(db, limit, k, entire).0, p)
  {
    ReleaseStepWrites(db, limit, k, entire);
    if Release(db, limit, k, entire).1.Done? {
      var mid, next := AfterRelease(db, k, entire), Release(db, limit, k, entire).0;
      assert Advanced(db, next) by {
        ReleaseGivesBack(db, k, entire);
        ReleaseAdvances(db, mid, db.targets[k].plan.value);
        PreviewsDoNotMove(db, mid, next);
      }
      JoinedAdvanceTracks(db, next, p);
    }
  }

  lemma BindAdvances(db: Db, run: RunId, items: seq<BindItem>)
    requires Coherent(db) && DistinctItems(items) && PendingItems(db, items) != []
    requires forall item :: item in items ==> ItemAccepted(db, run, item)
    ensures Advanced(db, ConsumeAll(Bump(db), run, PendingItems(db, items)))
  {
    AcceptedIsConsumable(db, run, items);
    BumpAdvances(db);
    BumpKeepsCoherent(db);
    ConsumeAllAdvances(db, Bump(db), run, PendingItems(db, items));
  }

  lemma BindWritesTrack(db: Db, run: RunId, items: seq<BindItem>, p: Projection)
    requires Coherent(db) && Tracks(db, p) && DistinctItems(items)
    requires forall item :: item in items ==> ItemAccepted(db, run, item)
    ensures Tracks(BindWrites(db, run, items), p)
  {
    if PendingItems(db, items) != [] {
      BindAdvances(db, run, items);
      JoinedAdvanceTracks(db, BindWrites(db, run, items), p);
    }
  }

  lemma BindTracks(db: Db, run: RunId, items: seq<BindItem>, p: Projection)
    requires Coherent(db) && Tracks(db, p)
    ensures Tracks(BindRun(db, run, items).0, p)
  {
    BindStepWrites(db, run, items);
    if BindRun(db, run, items).1.Done? {
      BindWritesTrack(db, run, items, p);
    }
  }

  // ---------------------------------------------------------------------------
  // Loading the context
  // ---------------------------------------------------------------------------

  /**
   A load that returns has made the projected active users equal to the ledger's, although it
   compares only a revision and a count, and one that raises has changed nothing.
   */
  lemma LoadIsExact(db: Db, p: Projection)
    requires RowsDated(db) && Tracks(db, p)
    ensures var (q, r) := Load(db, p);
            && Tracks(db, q)
            && (if r == NotReady then q == p
                else r == Loaded(Reload(db)) && ProjectedActive(q.rows) == ActiveUsers(db))
  {
    if NeedsSync(db, p) {
      FullSyncIsExact(db, p);
    } else {
      QuietProjectionIsExact(db, p);
    }
  }

  /** While every ledger row joins its target, a load always returns. */
  lemma LoadReturns(db: Db, p: Projection)
    requires LedgerJoined(db) && RevisionCounts(db)
    ensures Load(db, p).1 == Loaded(Reload(db))
  {
    MembersNeverMismatch(db);
  }

  lemma InvJoinsEverybody(db: Db)
    requires LedgerJoined(db)
    ensures JoinedUsers(db) == db.ledger.Keys
  {
    forall u | u in db.ledger
      ensures Joined(db, db.ledger[u])
    {
      assert RowJoined(db, u, db.ledger[u]);
    }
  }

  /**
   The count check of a synchronisation cannot fail on any tables, and under the invariant neither
   can the check that some member was found.
   */
  lemma MembersNeverMismatch(db: Db)
    requires LedgerJoined(db) && RevisionCounts(db)
    ensures SyncActive(db) == ActiveUsers(db)
    ensures db.revision > 0 ==> JoinedUsers(db) != {}
  {
    SyncActiveIsActive(db);
    InvJoinsEverybody(db);
    assert db.ledger == map[] <==> db.ledger.Keys == {};
  }

  lemma SyncActiveIsActive(db: Db)
    ensures SyncActive(db) == ActiveUsers(db)
  {
  }

  lemma QuietProjectionIsExact(db: Db, p: Projection)
    requires RowsDated(db) && Tracks(db, p) && !NeedsSync(db, p)
    ensures ProjectedActive(p.rows) == ActiveUsers(db)
  {
    if p.applied.Some? {
      CaughtUpIsSuperset(db, p);
      SubsetSize(ActiveUsers(db), ProjectedActive(p.rows));
    } else {
      forall u | u in p.rows
        ensures u in db.ledger
      {
        assert RowTracks(db, u, p.rows[u]);
      }
      assert db.ledger.Keys == {};
    }
  }

  // ---------------------------------------------------------------------------
  // Both stores together
  // ---------------------------------------------------------------------------

  /**
   A transaction with its load, a synchronisation that died after some inserts, or a bare load, as it
   precedes a refresh of previews.
   */
  datatype SystemStep =
    | LedgerStep(step: Step)
    | DyingSync(users: set<UserId>)
    | WholeLoad

  datatype System = System(db: Db, p: Projection)

  const EMPTY_SYSTEM := System(EMPTY_DB, EMPTY_PROJECTION)

  ghost function LoadingNext(s: System, limit: nat, step: Step): System {
    match step
    case ConfirmStep(req) =>
      var (db, p, _) := ConfirmLoading(s.db, s.p, limit, req);
      System(db, p)
    case ReleaseStep(k, entire) =>
      var (db, p, _) := ReleaseLoading(s.db, s.p, limit, k, entire);
      System(db, p)
    case _ => s.(db := Next(s.db, limit, step))
  }

  ghost function SystemNext(s: System, limit: nat, step: SystemStep): System {
    match step
    case LedgerStep(inner) => LoadingNext(s, limit, inner)
    case DyingSync(users) =>
      s.(p := s.p.(rows := SyncedRows(s.db, s.p.rows, users * JoinedUsers(s.db))))
    case WholeLoad => s.(p := Load(s.db, s.p).0)
  }

  ghost predicate SystemPermitted(s: System, limit: nat, step: SystemStep) {
    step.LedgerStep? ==> Permitted(s.db, limit, step.step)
  }

  ghost predicate SystemBinds(s: System, limit: nat, step: SystemStep) {
    step.LedgerStep? ==> Binds(s.db, limit, step.step)
  }

  ghost function SystemAfter(s: System, limit: nat, steps: seq<SystemStep>): System {
    if steps == [] then s
    else SystemNext(SystemAfter(s, limit, steps[..|steps| - 1]), limit, steps[|steps| - 1])
  }

  ghost predicate SystemRun(s: System, limit: nat, steps: seq<SystemStep>) {
    steps == [] || (SystemRun(s, limit, steps[..|steps| - 1])
                    && SystemPermitted(SystemAfter(s, limit, steps[..|steps| - 1]), limit,
                                       steps[|steps| - 1]))
  }

  /** Every confirmation of the run that commits can bind its target rows. */
  ghost predicate SystemBindingRun(s: System, limit: nat, steps: seq<SystemStep>) {
    steps == [] || (SystemBindingRun(s, limit, steps[..|steps| - 1])
                    && SystemBinds(SystemAfter(s, limit, steps[..|steps| - 1]), limit,
                                   steps[|steps| - 1]))
  }

  /** The ledger transactions of a system run that the load did not stop. */
  ghost function Effective(s: System, limit: nat, steps: seq<SystemStep>): seq<Step> {
    if steps == [] then []
    else
      var front, last := steps[..|steps| - 1], steps[|steps| - 1];
      var before := SystemAfter(s, limit, front);
      Effective(s, limit, front)
      + (if last.LedgerStep? && !LoadStops(before, limit, last.step) then [last.step] else [])
  }

  /** The transaction reaches its load and the load raises. */
  ghost predicate LoadStops(s: System, limit: nat, step: Step) {
    && (match step
        case ConfirmStep(req) => ReachesLoad(s.db, limit, req)
        case ReleaseStep(k, entire) => Releasable(s.db, k, entire)
        case _ => false)
    && Load(s.db, s.p).1 == NotReady
  }

  lemma LoadingMovesLedger(s: System, limit: nat, step: Step)
    ensures LoadingNext(s, limit, step).db
         == if LoadStops(s, limit, step) then s.db else Next(s.db, limit, step)
  {
  }

  /** The tables after a system run are those after the transactions that took effect. */
  lemma {:induction false} SystemRunIsARun(s: System, limit: nat, steps: seq<SystemStep>)
    requires SystemRun(s, limit, steps)
    ensures PermittedRun(s.db, limit, Effective(s, limit, steps))
    ensures After(s.db, limit, Effective(s, limit, steps)) == SystemAfter(s, limit, steps).db
  {
    if steps != [] {
      var front, last := steps[..|steps| - 1], steps[|steps| - 1];
      SystemRunIsARun(s, limit, front);
      var before, done := SystemAfter(s, limit, front), Effective(s, limit, front);
      if last.LedgerStep? {
        LoadingMovesLedger(before, limit, last.step);
        assert (done + [last.step])[..|done|] == done;
      }
      assert done + [] == done;
    }
  }

  /** Loads and their failures included, the reservation guarantees hold after every system run. */
  lemma SystemSafety(limit: nat, steps: seq<SystemStep>)
    requires SystemRun(EMPTY_SYSTEM, limit, steps)
    ensures Safe(SystemAfter(EMPTY_SYSTEM, limit, steps).db)
  {
    SystemRunIsARun(EMPTY_SYSTEM, limit, steps);
    ReservationSafety(limit, Effective(EMPTY_SYSTEM, limit, steps));
  }

  lemma FreshReachesLoad(db: Db, limit: nat, req: Request)
    requires Path(db, limit, req).Fresh?
    ensures ReachesLoad(db, limit, req)
  {
  }

  lemma OnlyLoadsCommit(db: Db, limit: nat, req: Request)
    requires !ReachesLoad(db, limit, req)
    ensures Confirm(db, limit, req).0 == db
  {
    if Path(db, limit, req).Fresh? {
      FreshReachesLoad(db, limit, req);
    }
    UncommittedChangesNothing(db, limit, req);
  }

  /** Under the ledger invariant a load never stops a transaction, so loading changes no outcome. */
  lemma LoadingIsTransparent(s: System, limit: nat, step: Step)
    requires Inv(s.db)
    ensures !LoadStops(s, limit, step)
    ensures LoadingNext(s, limit, step).db == Next(s.db, limit, step)
    ensures LoadingNext(s, limit, step).p in {s.p, Load(s.db, s.p).0}
  {
    LoadReturns(s.db, s.p);
  }

  /** What both stores satisfy after every mix of steps. */
  ghost predicate Mirrored(s: System) {
    Coherent(s.db) && RowsDated(s.db) && Tracks(s.db, s.p)
  }

  lemma LedgerStepKeepsTables(s: System, limit: nat, step: Step)
    requires Coherent(s.db) && RowsDated(s.db) && Permitted(s.db, limit, step)
    ensures Coherent(LoadingNext(s, limit, step).db) && RowsDated(LoadingNext(s, limit, step).db)
  {
    LoadingMovesLedger(s, limit, step);
    StepKeepsCoherent(s.db, limit, step);
    StepRewrites(s.db, limit, step);
    RewritesKeepDates(s.db, Next(s.db, limit, step));
  }

  lemma ConfirmLoadingTracks(s: System, limit: nat, req: Request)
    requires Mirrored(s)
    ensures var t := LoadingNext(s, limit, ConfirmStep(req)); Tracks(t.db, t.p)
  {
    LoadIsExact(s.db, s.p);
    if !LoadStops(s, limit, ConfirmStep(req)) {
      if ReachesLoad(s.db, limit, req) {
        ConfirmTracks(s.db, limit, req, Load(s.db, s.p).0);
      } else {
        OnlyLoadsCommit(s.db, limit, req);
      }
    }
  }

  lemma ReleaseLoadingTracks(s: System, limit: nat, k: TargetKey, entire: bool)
    requires Mirrored(s)
    ensures var t := LoadingNext(s, limit, ReleaseStep(k, entire)); Tracks(t.db, t.p)
  {
    LoadIsExact(s.db, s.p);
    if Releasable(s.db, k, entire) {
      ReleaseTracks(s.db, limit, k, entire, Load(s.db, s.p).0);
    }
  }

  lemma LedgerStepTracks(s: System, limit: nat, step: Step)
    requires Mirrored(s) && Permitted(s.db, limit, step)
    ensures var t := LoadingNext(s, limit, step); Tracks(t.db, t.p)
  {
    if step.ConfirmStep? {
      ConfirmLoadingTracks(s, limit, step.req);
    } else if step.ReleaseStep? {
      ReleaseLoadingTracks(s, limit, step.target, step.entire);
    } else if step.BindStep? {
      BindTracks(s.db, step.run, step.items, s.p);
    } else {
      SurroundingTracks(s.db, step.after, s.p);
    }
  }

  lemma SystemStepKeeps(s: System, limit: nat, step: SystemStep)
    requires Mirrored(s) && SystemPermitted(s, limit, step)
    ensures Mirrored(SystemNext(s, limit, step))
  {
    match step
    case LedgerStep(inner) =>
      LedgerStepKeepsTables(s, limit, inner);
      LedgerStepTracks(s, limit, inner);
    case DyingSync(users) => PartialSyncTracks(s.db, s.p, users * JoinedUsers(s.db));
    case WholeLoad => LoadIsExact(s.db, s.p);
  }

  lemma {:induction false} SystemKeeps(s: System, limit: nat, steps: seq<SystemStep>)
    requires Mirrored(s) && SystemRun(s, limit, steps)
    ensures Mirrored(SystemAfter(s, limit, steps))
  {
    if steps != [] {
      SystemKeeps(s, limit, steps[..|steps| - 1]);
      SystemStepKeeps(SystemAfter(s, limit, steps[..|steps| - 1]), limit, steps[|steps| - 1]);
    }
  }

  /**
   After any mix of transactions, run ends, stops, dying synchronisations and loads, if the next load
   returns then the two stores agree on who is excluded.
   */
  lemma StoresAgreeAfterLoad(limit: nat, steps: seq<SystemStep>)
    requires SystemRun(EMPTY_SYSTEM, limit, steps)
    ensures var s := SystemAfter(EMPTY_SYSTEM, limit, steps);
            var (q, r) := Load(s.db, s.p);
            r != NotReady ==>
              r == Loaded(Reload(s.db)) && ProjectedActive(q.rows) == ActiveUsers(s.db)
  {
    InitiallyCoherent();
    TracksInitially();
    SystemKeeps(EMPTY_SYSTEM, limit, steps);
    LoadIsExact(SystemAfter(EMPTY_SYSTEM, limit, steps).db,
                SystemAfter(EMPTY_SYSTEM, limit, steps).p);
  }

  lemma {:induction false} SystemKeepsInv(s: System, limit: nat, steps: seq<SystemStep>)
    requires Inv(s.db) && SystemRun(s, limit, steps) && SystemBindingRun(s, limit, steps)
    ensures Inv(SystemAfter(s, limit, steps).db)
  {
    if steps != [] {
      var front, last := steps[..|steps| - 1], steps[|steps| - 1];
      SystemKeepsInv(s, limit, front);
      var before := SystemAfter(s, limit, front);
      if last.LedgerStep? {
        LoadingIsTransparent(before, limit, last.step);
        StepKeepsInvIff(before.db, limit, last.step);
      }
    }
  }

  /** And it does return where all confirmations of the mix could bind their targets. */
  lemma BindingLoadsReturn(limit: nat, steps: seq<SystemStep>)
    requires SystemRun(EMPTY_SYSTEM, limit, steps) && SystemBindingRun(EMPTY_SYSTEM, limit, steps)
    ensures var s := SystemAfter(EMPTY_SYSTEM, limit, steps);
            var (q, r) := Load(s.db, s.p);
            r == Loaded(Reload(s.db)) && ProjectedActive(q.rows) == ActiveUsers(s.db)
  {
    InitialInv();
    SystemKeepsInv(EMPTY_SYSTEM, limit, steps);
    LoadReturns(SystemAfter(EMPTY_SYSTEM, limit, steps).db,
                SystemAfter(EMPTY_SYSTEM, limit, steps).p);
    StoresAgreeAfterLoad(limit, steps);
  }

  /**
   Loads and their failures do not disturb idempotence: a confirmation that committed answers in the
   same way for as long as its plan is live, also where the context cannot be loaded any more.
   */
  lemma RepeatedUnderLoads(limit: nat, before: seq<SystemStep>, req: Request, steps: seq<SystemStep>)
    requires SystemRun(EMPTY_SYSTEM, limit, before)
    requires var s := SystemAfter(EMPTY_SYSTEM, limit, before);
             && CommitsFresh(s.db, limit, req) && !LoadStops(s, limit, ConfirmStep(req))
             && SystemRun(LoadingNext(s, limit, ConfirmStep(req)), limit, steps)
    ensures var s := SystemAfter(EMPTY_SYSTEM, limit, before);
            var later := SystemAfter(LoadingNext(s, limit, ConfirmStep(req)), limit, steps);
            var plan := FreshWrite(s.db, limit, req).plan;
            && plan in later.db.plans
            && (Live(later.db.plans[plan]) ==>
                  ConfirmLoading(later.db, later.p, limit, req)
                  == (later.db, later.p, ConfirmLoading(s.db, s.p, limit, req).2))
  {
    var s := SystemAfter(EMPTY_SYSTEM, limit, before);
    var next := LoadingNext(s, limit, ConfirmStep(req));
    SystemRunIsARun(EMPTY_SYSTEM, limit, before);
    LoadingMovesLedger(s, limit, ConfirmStep(req));
    SystemRunIsARun(next, limit, steps);
    RepeatedConfirmation(limit, Effective(EMPTY_SYSTEM, limit, before), req,
                         Effective(next, limit, steps));
  }
}
