/**
 One use of a segment at a time: after every run at most one target of a segment is held, and a
 confirmation is turned away exactly for a segment of which some target is.
 */
module SegmentGuard {
  import opened Wrappers
  import opened AudienceTables
  import opened WinnerSelection
  import opened AllocationProtocol
  import opened AllocationInvariant
  import opened ReleaseInvariant
  import opened BindInvariant
  import opened ConfirmTheorems
  import opened CoherentInvariant
  import opened ReservationRuns
  import opened RetryTheorems
  import opened TargetUpserts

  /** Reserved and bound to no run, or consumed by a run that is not over. */
  predicate InUse(db: Db, k: TargetKey)
    requires k in db.targets
  {
    || (db.targets[k].state == Some(Reserved) && k !in db.bindings)
    || (db.targets[k].state == Some(Consumed) && k in db.bindings && db.bindings[k].run in db.runs
        && db.runs[db.bindings[k].run]
           !in {GoalMet, GoalNotMet, PartialGoalMet, InsufficientData, Stopped})
  }

  ghost predicate OneInUse(db: Db) {
    forall a <- db.targets, b <- db.targets :: a.segment == b.segment && InUse(db, a) && InUse(db, b) ==>
      a == b
  }

  /** Some target of the selection is in use. */
  ghost predicate SelectionInUse(db: Db, segments: set<SegmentId>) {
    exists k <- db.targets :: k.segment in segments && InUse(db, k)
  }

  // ---------------------------------------------------------------------------
  // The guard
  // ---------------------------------------------------------------------------

  lemma GuardOnAnyTables(db: Db, segments: set<SegmentId>)
    ensures SegmentBusy(db, segments)
       <==> exists k <- db.targets ::
              k.segment in segments && db.targets[k].snapshot.Some? && InUse(db, k)
  {
    forall k | k in db.targets && k in db.bindings
      ensures RunActive(db, db.bindings[k].run)
         <==> && db.bindings[k].run in db.runs
              && db.runs[db.bindings[k].run]
                 !in {GoalMet, GoalNotMet, PartialGoalMet, InsufficientData, Stopped}
    {
    }
  }

  /** A target with a state has its snapshot, so the guard's third column decides nothing. */
  lemma GuardIff(db: Db, segments: set<SegmentId>)
    requires TargetsWellBound(db)
    ensures SegmentBusy(db, segments) <==> SelectionInUse(db, segments)
  {
    GuardOnAnyTables(db, segments);
    forall k | k in db.targets && InUse(db, k)
      ensures db.targets[k].snapshot.Some?
    {
      assert BoundToPlan(db, k);
    }
  }

  /** The checks that come before the guard. */
  ghost predicate PassesEarlierChecks(db: Db, limit: nat, req: Request, sources: seq<Source>) {
    && Selected(req) != {} && |Selected(req)| <= limit
    && LoadSources(db, Selected(req), req.rows) == Done(sources)
    && |Batches(sources)| == 1
    && RetryRows(db, req.analysis, sources) == {}
    && !ConfirmedElsewhere(db, req.analysis, sources)
  }

  /** A confirmation that gets as far is turned away exactly when a selected segment is in use. */
  lemma TurnedAwayIff(db: Db, limit: nat, req: Request, sources: seq<Source>)
    requires TargetsWellBound(db) && PassesEarlierChecks(db, limit, req, sources)
    ensures Confirm(db, limit, req).1 == Raised(SegmentAlreadyConfirmed)
       <==> SelectionInUse(db, Selected(req))
  {
    GuardIff(db, Selected(req));
    PathPastChecks(db, limit, req, sources);
    if !SegmentBusy(db, Selected(req)) && Path(db, limit, req).Fresh? {
      FreshIsActed(db, limit, req);
      FreshNeverTurnedAway(db, limit, req.analysis, req.minimum, Path(db, limit, req).batch, sources);
    }
  }

  lemma PathPastChecks(db: Db, limit: nat, req: Request, sources: seq<Source>)
    requires PassesEarlierChecks(db, limit, req, sources)
    ensures Path(db, limit, req) == UnansweredPath(db, req.analysis, Selected(req), sources)
    ensures Path(db, limit, req).Fresh? ==> Path(db, limit, req).sources == sources
  {
  }

  lemma FreshNeverTurnedAway(db: Db, limit: nat, analysis: AnalysisId, minimum: int,
                             batch: AnalysisId, sources: seq<Source>)
    ensures ConfirmFresh(db, limit, analysis, minimum, batch, sources).1
         != Raised(SegmentAlreadyConfirmed)
  {
    FinishCommits(db, Commit(db, analysis, minimum, batch, sources), limit, batch,
                  SegmentsOf(sources), CommitResult(db, minimum, batch, sources));
  }

  // ---------------------------------------------------------------------------
  // Every step keeps it
  // ---------------------------------------------------------------------------

  /** No target comes into use. */
  ghost predicate UseOnlyEnds(db: Db, next: Db) {
    forall k <- next.targets :: InUse(next, k) ==> k in db.targets && InUse(db, k)
  }

  lemma EndingUseKeepsOne(db: Db, next: Db)
    requires OneInUse(db) && UseOnlyEnds(db, next)
    ensures OneInUse(next)
  {
  }

  /** The targets that a confirmation brings into use are of segments that were not. */
  lemma WriteKeepsOne(db: Db, next: Db, c: Write)
    requires OneInUse(db) && WroteTargets(db, next, c) && RunsSame(db, next)
    requires !SelectionInUse(db, c.segments)
    ensures OneInUse(next)
  {
    forall k | k in next.targets && InUse(next, k)
      ensures (k in db.targets && InUse(db, k)) || (k.analysis == c.analysis && k.segment in c.segments)
    {
      if k in db.targets {
        assert next.targets[k] == BoundTarget(k, db.targets[k], c.analysis, c.segments, c.plan);
      }
    }
  }

  lemma CommitKeepsOne(db: Db, mid: Db, next: Db, c: Write)
    requires OneInUse(db) && WroteTargets(db, mid, c) && RunsSame(db, mid)
    requires !SelectionInUse(db, c.segments) && SameReservations(mid, next)
    ensures OneInUse(next)
  {
    WriteKeepsOne(db, mid, c);
    assert UseOnlyEnds(mid, next);
    EndingUseKeepsOne(mid, next);
  }

  lemma ConfirmKeepsOne(db: Db, limit: nat, req: Request)
    requires Coherent(db) && OneInUse(db)
    ensures OneInUse(Confirm(db, limit, req).0)
  {
    if CommitsFresh(db, limit, req) {
      FreshCommitWrites(db, limit, req);
      NothingSelectedInUse(db, limit, req);
      var path := Path(db, limit, req);
      CommitKeepsOne(db, Commit(db, req.analysis, req.minimum, path.batch, path.sources),
                     Confirm(db, limit, req).0, FreshWrite(db, limit, req));
    } else {
      UncommittedChangesNothing(db, limit, req);
    }
  }

  lemma NothingSelectedInUse(db: Db, limit: nat, req: Request)
    requires TargetsWellBound(db) && Path(db, limit, req).Fresh?
    ensures !SelectionInUse(db, Selected(req))
  {
    GuardIff(db, Selected(req));
  }

  lemma ReleaseEndsUse(db: Db, limit: nat, k: TargetKey, entire: bool)
    requires OneInUse(db)
    ensures OneInUse(Release(db, limit, k, entire).0)
  {
    ReleaseStepWrites(db, limit, k, entire);
    if Release(db, limit, k, entire).1.Done? {
      EndingUseKeepsOne(db, AfterRelease(db, k, entire));
    }
  }

  /** Between the writes a target stays in use, or its run was over. */
  lemma ConsumeOneEndsUse(db: Db, run: RunId, item: BindItem)
    requires TargetsWellBound(db) && StatesAgree(db) && Reservable(db, run, item)
    ensures UseOnlyEnds(db, ConsumeOne(db, run, item))
  {
    ConsumeOneTakes(db, run, item);
  }

  lemma {:induction false} ConsumeAllEndsUse(db: Db, run: RunId, items: seq<BindItem>)
    requires Coherent(db) && Consumable(db, run, items)
    ensures UseOnlyEnds(db, ConsumeAll(db, run, items))
  {
    if items != [] {
      var front, last := items[..|items| - 1], items[|items| - 1];
      LastStaysReservable(db, run, items);
      ConsumeAllKeepsCoherent(db, run, front);
      ConsumeAllEndsUse(db, run, front);
      ConsumeOneEndsUse(ConsumeAll(db, run, front), run, last);
    }
  }

  lemma BindEndsUse(db: Db, run: RunId, items: seq<BindItem>)
    requires Coherent(db)
    ensures UseOnlyEnds(db, BindRun(db, run, items).0)
  {
    BindStepWrites(db, run, items);
    var pending := PendingItems(db, items);
    if BindRun(db, run, items).1.Done? && pending != [] {
      AcceptedIsConsumable(db, run, items);
      BumpKeepsCoherent(db);
      ConsumeAllEndsUse(Bump(db), run, pending);
    }
  }

  lemma StepKeepsOne(db: Db, limit: nat, step: Step)
    requires Coherent(db) && OneInUse(db) && Permitted(db, limit, step)
    ensures OneInUse(Next(db, limit, step))
  {
    match step
    case ConfirmStep(req) => ConfirmKeepsOne(db, limit, req);
    case ReleaseStep(k, entire) => ReleaseEndsUse(db, limit, k, entire);
    case BindStep(run, items) => BindEndsUse(db, run, items);
    case SurroundingStep(after) => EndingUseKeepsOne(db, after);
  }

  lemma {:induction false} RunKeepsOne(db: Db, limit: nat, steps: seq<Step>)
    requires Coherent(db) && OneInUse(db) && PermittedRun(db, limit, steps)
    ensures OneInUse(After(db, limit, steps))
  {
    if steps != [] {
      var front := steps[..|steps| - 1];
      RunKeepsOne(db, limit, front);
      RunKeepsCoherent(db, limit, front);
      StepKeepsOne(After(db, limit, front), limit, steps[|steps| - 1]);
    }
  }

  /** After every run from empty tables no two targets of a segment are in use. */
  lemma OneTargetPerSegment(limit: nat, steps: seq<Step>)
    requires PermittedRun(EMPTY_DB, limit, steps)
    ensures var db := After(EMPTY_DB, limit, steps);
            forall a <- db.targets, b <- db.targets ::
              a != b && a.segment == b.segment ==> !(InUse(db, a) && InUse(db, b))
  {
    InitiallyCoherent();
    RunKeepsOne(EMPTY_DB, limit, steps);
  }

  // ---------------------------------------------------------------------------
  // Saving target rows
  // ---------------------------------------------------------------------------

  /**
   Saving a row keeps this exactly when the row was bound already, or is saved without an allocation,
   or no other target of its segment is in use.
   */
  lemma SaveKeepsOneIff(db: Db, k: TargetKey, plan: Option<PlanId>)
    requires Coherent(db) && OneInUse(db)
    ensures OneInUse(SaveTarget(db, k, plan))
       <==> || (k in db.targets && !db.targets[k].Unbound())
            || plan.None?
            || forall a <- db.targets :: a != k && a.segment == k.segment ==> !InUse(db, a)
  {
    var next := SaveTarget(db, k, plan);
    forall a | a in db.targets && a != k
      ensures InUse(next, a) == InUse(db, a)
    {
    }
    if k in db.targets && !db.targets[k].Unbound() {
      assert BoundToPlan(db, k);
      SavedBoundRow(db, k, plan);
      assert InUse(next, k) == InUse(db, k);
    } else {
      assert k !in db.bindings;
      assert InUse(next, k) <==> plan.Some?;
    }
  }
}
