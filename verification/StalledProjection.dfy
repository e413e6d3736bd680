/**
 When the exclusion context can no longer be loaded. A confirmation that could not bind its target
 rows leaves ledger rows that join no target; if no other row is left, every later load raises, and
 with it every confirmation and every release, for good.
 */
module StalledProjection {
  import opened Wrappers
  import opened AudienceTables
  import opened WinnerSelection
  import opened AllocationProtocol
  import opened AllocationInvariant
  import opened ReleaseInvariant
  import opened BindInvariant
  import opened ConfirmTheorems
  import opened CoherentInvariant
  import opened ReservationRuns
  import opened RetryTheorems
  import opened ProjectionProtocol
  import opened ExclusionProjection

  /** The projection lags behind a ledger none of whose rows joins its target. */
  ghost predicate Stalled(s: System) {
    && s.db.revision > 0 && JoinedUsers(s.db) == {} && Behind(s.db, s.p)
  }

  predicate Behind(db: Db, p: Projection) {
    p.applied.Some? ==> p.applied.value < db.revision
  }

  lemma LoadRaisesIff(db: Db, p: Projection)
    ensures Load(db, p).1 == NotReady
       <==> NeedsSync(db, p) && db.revision > 0 && JoinedUsers(db) == {}
  {
    SyncActiveIsActive(db);
  }

  /**
   With its load, a confirmation raises the conflict error exactly when the load does not stop it, it
   gets as far as its writes and one of its winners holds a live row that joins no target.
   */
  lemma ConflictAfterLoadIff(s: System, limit: nat, req: Request)
    requires Coherent(s.db)
    ensures ConfirmLoading(s.db, s.p, limit, req).2 == Raised(ExclusionConflict)
       <==> && !LoadStops(s, limit, ConfirmStep(req))
            && Path(s.db, limit, req).Fresh?
            && exists u <- Winners(s.db, Path(s.db, limit, req).sources) :: Orphaned(s.db, u)
  {
    ConflictIff(s.db, limit, req);
  }

  // ---------------------------------------------------------------------------
  // After one confirmation
  // ---------------------------------------------------------------------------

  predicate BindsSome(db: Db, analysis: AnalysisId, segments: set<SegmentId>) {
    exists s <- segments :: Bindable(db, analysis, s)
  }

  ghost function BoundWinners(db: Db, c: Write): set<UserId> {
    set u | u in c.w && Bindable(db, c.analysis, c.w[u].segment)
  }

  lemma WinnerJoinsIff(db: Db, next: Db, c: Write, u: UserId)
    requires TargetsWellBound(db) && u in c.w
    requires WroteTargets(db, next, c) && WrotePlan(db, next, c) && WroteLedger(db, next, c)
    ensures u in next.ledger
    ensures Joined(next, next.ledger[u]) <==> Bindable(db, c.analysis, c.w[u].segment)
  {
    var k := TargetKey(c.analysis, c.w[u].segment);
    if k in db.targets && !db.targets[k].Unbound() {
      WroteTargetOnce(db, next, c, k);
      assert BoundToPlan(db, k);
    }
  }

  /** The rows that join after a confirmation: the bound winners', and those it left alone. */
  lemma JoinedAfterConfirm(db: Db, next: Db, c: Write)
    requires TargetsWellBound(db) && RowsNamePlans(db) && Wrote(db, next, c)
    ensures JoinedUsers(next) == BoundWinners(db, c) + (JoinedUsers(db) - c.w.Keys)
  {
    forall u | u in next.ledger
      ensures Joined(next, next.ledger[u])
         <==> u in BoundWinners(db, c) + (JoinedUsers(db) - c.w.Keys)
    {
      if u in c.w {
        WinnerJoinsIff(db, next, c, u);
      } else {
        OldRowJoinsIff(db, next, c, db.ledger[u]);
      }
    }
    JoinedAreThese(db, next, c);
  }

  lemma JoinedAreThese(db: Db, next: Db, c: Write)
    requires WroteLedger(db, next, c)
    requires forall u <- next.ledger ::
               Joined(next, next.ledger[u])
               <==> u in BoundWinners(db, c) + (JoinedUsers(db) - c.w.Keys)
    ensures JoinedUsers(next) == BoundWinners(db, c) + (JoinedUsers(db) - c.w.Keys)
  {
  }

  lemma SomeWinnerBound(db: Db, next: Db, c: Write)
    requires WroteFinals(db, next, c) && WroteLedger(db, next, c)
    ensures BoundWinners(db, c) != {} <==> BindsSome(db, c.analysis, c.segments)
  {
    if s :| s in c.segments && Bindable(db, c.analysis, s) {
      assert NewFinal(next, FinalSnapshot(c.plan, s), c);
      var u :| u in SegmentUsers(c.w, s);
      assert u in BoundWinners(db, c);
    }
    if u :| u in BoundWinners(db, c) {
      assert c.w[u].segment in c.segments;
    }
  }

  lemma SomebodyJoined(db: Db, next: Db, c: Write)
    requires TargetsWellBound(db) && RowsNamePlans(db) && Wrote(db, next, c)
    ensures JoinedUsers(next) != {}
       <==> BindsSome(db, c.analysis, c.segments) || !(JoinedUsers(db) <= c.w.Keys)
  {
    JoinedAfterConfirm(db, next, c);
    SomeWinnerBound(db, next, c);
    SomebodyLeft(BoundWinners(db, c), JoinedUsers(db), c.w.Keys);
  }

  lemma SomebodyLeft(bound: set<UserId>, users: set<UserId>, winners: set<UserId>)
    ensures bound + (users - winners) != {} <==> bound != {} || !(users <= winners)
  {
    assert bound + (users - winners) == {} <==> bound == {} && users - winners == {} by {
      assert bound <= bound + (users - winners) && users - winners <= bound + (users - winners);
    }
    assert users - winners == {} <==> users <= winners by {
      forall u | u in users && u !in winners
        ensures u in users - winners
      {
      }
    }
  }

  lemma JoinedIgnoresPreviews(a: Db, b: Db)
    requires SameReservations(a, b)
    ensures JoinedUsers(a) == JoinedUsers(b)
  {
  }

  /** The confirmation advances the revision past everything its own load has projected. */
  lemma ConfirmLeavesBehind(s: System, limit: nat, req: Request)
    requires Mirrored(s) && CommitsFresh(s.db, limit, req) && !LoadStops(s, limit, ConfirmStep(req))
    ensures var (next, q, r) := ConfirmLoading(s.db, s.p, limit, req);
            && next == Confirm(s.db, limit, req).0 && next.revision == s.db.revision + 1
            && Behind(next, q) && r.Done?
  {
    LoadIsExact(s.db, s.p);
    CommitAdvances(s.db, limit, req);
  }

  lemma CommitAdvances(db: Db, limit: nat, req: Request)
    requires FinalsMatchPlans(db) && CommitsFresh(db, limit, req)
    ensures Confirm(db, limit, req).0.revision == db.revision + 1
  {
    FreshCommitWrites(db, limit, req);
  }

  lemma LoadWhenBehind(db: Db, p: Projection)
    requires Behind(db, p) && db.revision > 0
    ensures Load(db, p).1 == if JoinedUsers(db) == {} then NotReady else Loaded(Reload(db))
  {
    LoadRaisesIff(db, p);
  }

  /**
   On any reachable stores, the context can be loaded after a committed confirmation exactly when it
   bound one of its target rows or left some row that joins its target alone.
   */
  lemma LoadAfterConfirmIff(s: System, limit: nat, req: Request)
    requires Mirrored(s) && CommitsFresh(s.db, limit, req) && !LoadStops(s, limit, ConfirmStep(req))
    ensures var (next, q, _) := ConfirmLoading(s.db, s.p, limit, req);
            Load(next, q).1
            == if || BindsSome(s.db, req.analysis, Selected(req))
                  || !(JoinedUsers(s.db) <= FreshWrite(s.db, limit, req).w.Keys)
               then Loaded(Reload(next)) else NotReady
    ensures var (next, q, r) := ConfirmLoading(s.db, s.p, limit, req);
            r.Done? && (Load(next, q).1 == NotReady <==> Stalled(System(next, q)))
  {
    var (next, q, _) := ConfirmLoading(s.db, s.p, limit, req);
    ConfirmLeavesBehind(s, limit, req);
    LoadWhenBehind(next, q);
    JoinedAfterCommit(s.db, limit, req);
  }

  lemma JoinedAfterCommit(db: Db, limit: nat, req: Request)
    requires Coherent(db) && CommitsFresh(db, limit, req)
    ensures JoinedUsers(Confirm(db, limit, req).0) != {}
       <==> (|| BindsSome(db, req.analysis, Selected(req))
             || !(JoinedUsers(db) <= FreshWrite(db, limit, req).w.Keys))
  {
    var path, c := Path(db, limit, req), FreshWrite(db, limit, req);
    var mid := Commit(db, req.analysis, req.minimum, path.batch, path.sources);
    FreshCommitWrites(db, limit, req);
    SomebodyJoined(db, mid, c);
    JoinedIgnoresPreviews(mid, Confirm(db, limit, req).0);
  }

  // ---------------------------------------------------------------------------
  // For good
  // ---------------------------------------------------------------------------

  /** A binding needs a target all of whose users have rows that join it. */
  lemma NoRowsNoBinding(db: Db, run: RunId, items: seq<BindItem>)
    requires JoinedUsers(db) == {}
    ensures BindRun(db, run, items) == (db, Raised(RunBindingRejected))
  {
    if items != [] && DistinctItems(items) {
      assert items[0] in items;
      if ItemAccepted(db, run, items[0]) {
        NoAcceptedItem(db, run, items[0]);
      }
    }
  }

  lemma NoAcceptedItem(db: Db, run: RunId, item: BindItem)
    requires ItemAccepted(db, run, item)
    ensures JoinedUsers(db) != {}
  {
    var rows := RowsNaming(db, item, db.targets[item.target].state.value);
    assert |rows| > 0;
    var u :| u in rows;
    assert u in JoinedUsers(db);
  }

  /** What no step changes any more. */
  ghost predicate LedgerSame(a: Db, b: Db) {
    && a.ledger == b.ledger && a.plans == b.plans && a.finals == b.finals
    && a.bindings == b.bindings && a.revision == b.revision
  }

  /** A confirmation or release that gets as far as the load raises; one that does not writes nothing. */
  lemma StalledStep(s: System, limit: nat, step: SystemStep)
    requires Stalled(s) && SystemPermitted(s, limit, step)
    ensures Stalled(SystemNext(s, limit, step))
    ensures LedgerSame(s.db, SystemNext(s, limit, step).db)
  {
    LoadWhenBehind(s.db, s.p);
    match step
    case LedgerStep(ConfirmStep(req)) => StalledConfirm(s.db, s.p, limit, req);
    case LedgerStep(ReleaseStep(k, entire)) =>
    case LedgerStep(BindStep(run, items)) => NoRowsNoBinding(s.db, run, items);
    case LedgerStep(SurroundingStep(after)) => SurroundingJoinsNobody(s.db, after);
    case DyingSync(_) =>
    case WholeLoad =>
  }

  lemma StalledConfirm(db: Db, p: Projection, limit: nat, req: Request)
    requires Load(db, p).1 == NotReady
    ensures ConfirmLoading(db, p, limit, req).0 == db && ConfirmLoading(db, p, limit, req).1 == p
  {
    if !ReachesLoad(db, limit, req) {
      OnlyLoadsCommit(db, limit, req);
    }
  }

  lemma SurroundingJoinsNobody(db: Db, next: Db)
    requires JoinedUsers(db) == {} && Surrounding(db, next)
    ensures JoinedUsers(next) == {}
  {
    forall u | u in next.ledger
      ensures !Joined(next, next.ledger[u])
    {
      assert u !in JoinedUsers(db);
    }
  }

  /**
   Once stalled, whatever follows: no confirmation, release or binding changes the ledger again, and
   each confirmation or release that passes its own checks raises the not-ready error.
   */
  lemma {:induction false} StalledForGood(s: System, limit: nat, steps: seq<SystemStep>, step: Step)
    requires Stalled(s) && SystemRun(s, limit, steps)
    ensures var later := SystemAfter(s, limit, steps);
            && Stalled(later) && LedgerSame(s.db, later.db)
            && (step.ConfirmStep? && ReachesLoad(later.db, limit, step.req) ==>
                  ConfirmLoading(later.db, later.p, limit, step.req)
                  == (later.db, later.p, Raised(ProjectionNotReady)))
            && (step.ReleaseStep? && Releasable(later.db, step.target, step.entire) ==>
                  ReleaseLoading(later.db, later.p, limit, step.target, step.entire)
                  == (later.db, later.p, Raised(ProjectionNotReady)))
  {
    if steps != [] {
      var front := steps[..|steps| - 1];
      StalledForGood(s, limit, front, step);
      StalledStep(SystemAfter(s, limit, front), limit, steps[|steps| - 1]);
    }
    var later := SystemAfter(s, limit, steps);
    LoadWhenBehind(later.db, later.p);
  }
}
