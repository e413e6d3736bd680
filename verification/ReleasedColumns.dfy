/** What a release refuses, writes and returns, column by column. */
module ReleasedColumns {
  import opened Wrappers
  import opened AudienceTables
  import opened WinnerSelection
  import opened WinnerRanking
  import opened AllocationProtocol
  import opened AllocationInvariant
  import opened ReleaseInvariant
  import opened ReservationRuns

  /** Why a release of the target's plan is refused: the first reason that holds. */
  ghost function Refusal(db: Db, k: TargetKey, entire: bool): Option<Error> {
    if k !in db.targets || db.targets[k].plan.None? || db.targets[k].plan.value !in db.plans then
      Some(BindingInvalid)
    else
      var plan := db.targets[k].plan.value;
      if !entire && (exists s <- db.plans[plan].segments, r <- db.plans[plan].segments :: s != r) then
        Some(PartialReleaseUnsupported)
      else if || (exists b <- db.bindings :: db.bindings[b].plan == plan)
              || (exists u <- db.ledger :: db.ledger[u].plan == plan && db.ledger[u].state == Consumed)
              || db.plans[plan].status == Locked then
        Some(AllocationLocked)
      else None
  }

  /** The row is one that the release gives back: of the plan, and of the one target if not entire. */
  predicate GivesBack(row: LedgerRow, plan: PlanId, k: TargetKey, entire: bool) {
    row.plan == plan && row.state == Reserved && (entire || row.target.segment == k.segment)
  }

  /** Those rows and the targets are given back at the next revision; nothing else moves. */
  ghost predicate Released(db: Db, next: Db, plan: PlanId, k: TargetKey, entire: bool)
    requires plan in db.plans
  {
    && next.revision == db.revision + 1
    && next.ledger.Keys == db.ledger.Keys
    && (forall u <- db.ledger ::
          next.ledger[u]
          == if GivesBack(db.ledger[u], plan, k, entire) then
               LedgerRow(db.ledger[u].target, plan, db.ledger[u].snapshot, Reservation.Released,
                         db.revision + 1)
             else db.ledger[u])
    && next.targets.Keys == db.targets.Keys
    && (forall key <- db.targets ::
          var t := db.targets[key];
          next.targets[key] == if (if entire then t.plan == Some(plan) else key == k) then
                                 Target(t.stopped, t.snapshot, t.plan, Some(Reservation.Released))
                               else t)
    && next.plans == (if db.plans[plan].status == Finalized then
                        db.plans[plan := Plan(db.plans[plan].target, db.plans[plan].batch,
                                              db.plans[plan].segments, db.plans[plan].revision,
                                              PlanReleased)]
                      else db.plans)
    && next.finals == db.finals && next.members == db.members
    && next.bindings == db.bindings && next.runs == db.runs
    && next.definitions == db.definitions && next.suggestions == db.suggestions
  }

  /** The users kept out before, less as many as are given back, but never below none. */
  ghost predicate Returned(db: Db, plan: PlanId, k: TargetKey, entire: bool, context: Context) {
    var before := |set u | u in db.ledger && KeptOut(db, u)|;
    var given := |set u | u in db.ledger && GivesBack(db.ledger[u], plan, k, entire)|;
    && context.revision == db.revision + 1
    && context.userCount == if before >= given then before - given else 0
  }

  lemma SeveralIff<T>(s: set<T>)
    ensures |s| > 1 <==> exists x <- s, y <- s :: x != y
  {
    if |s| > 1 {
      var x :| x in s;
      var rest := s - {x};
      assert |rest| == |s| - 1;
      var y :| y in rest;
    }
    if x, y :| x in s && y in s && x != y {
      assert |s - {x}| == |s| - 1;
      assert y in s - {x};
    }
  }

  lemma RefusalIs(db: Db, k: TargetKey, entire: bool)
    ensures ReleaseRejection(db, k, entire) == Refusal(db, k, entire)
  {
    if k in db.targets && db.targets[k].plan.Some? && db.targets[k].plan.value in db.plans {
      var plan := db.targets[k].plan.value;
      SeveralIff(db.plans[plan].segments);
      assert PlanRows(db, plan, None, Consumed) != {}
        <==> exists u <- db.ledger :: db.ledger[u].plan == plan && db.ledger[u].state == Consumed by {
        if PlanRows(db, plan, None, Consumed) != {} {
          var u :| u in PlanRows(db, plan, None, Consumed);
        }
        if u :| u in db.ledger && db.ledger[u].plan == plan && db.ledger[u].state == Consumed {
          assert u in PlanRows(db, plan, None, Consumed);
        }
      }
    }
  }

  lemma ContextIsReturned(db: Db, k: TargetKey, entire: bool)
    requires k in db.targets && db.targets[k].plan.Some?
    ensures Returned(db, db.targets[k].plan.value, k, entire, ReleaseContext(db, k, entire))
  {
    var plan := db.targets[k].plan.value;
    forall u ensures KeptOut(db, u) <==> Excluded(db, u) {
      KeptOutIff(db, u);
    }
    assert ActiveUsers(db) == set u | u in db.ledger && KeptOut(db, u);
    assert PlanRows(db, plan, Scope(k, entire), Reserved)
        == set u | u in db.ledger && GivesBack(db.ledger[u], plan, k, entire);
  }

  lemma RowsAreReleased(db: Db, k: TargetKey, entire: bool)
    requires k in db.targets && db.targets[k].plan.Some? && db.targets[k].plan.value in db.plans
    ensures Released(db, AfterRelease(db, k, entire), db.targets[k].plan.value, k, entire)
  {
  }

  /** A release is refused for its first reason, or has written and returned exactly these columns. */
  lemma ReleaseWroteColumns(db: Db, limit: nat, k: TargetKey, entire: bool)
    ensures var (next, r) := Release(db, limit, k, entire);
            match Refusal(db, k, entire)
            case Some(e) => next == db && r == Raised(e)
            case None =>
              && k in db.targets && db.targets[k].plan.Some? && db.targets[k].plan.value in db.plans
              && (r.Raised? ==> next == db && r.error in {CandidateLimitExceeded, DuplicateKey})
              && (r.Done? ==>
                    && Released(db, next, db.targets[k].plan.value, k, entire)
                    && Returned(db, db.targets[k].plan.value, k, entire, r.value))
  {
    RefusalIs(db, k, entire);
    if Refusal(db, k, entire).None? {
      ReleaseWrites(db, limit, k, entire);
    }
  }

  lemma ReleaseWrites(db: Db, limit: nat, k: TargetKey, entire: bool)
    requires Releasable(db, k, entire)
    ensures k in db.targets && db.targets[k].plan.Some? && db.targets[k].plan.value in db.plans
    ensures var (next, r) := Release(db, limit, k, entire);
            && (r.Raised? ==> next == db && r.error in {CandidateLimitExceeded, DuplicateKey})
            && (r.Done? ==>
                  && Released(db, next, db.targets[k].plan.value, k, entire)
                  && Returned(db, db.targets[k].plan.value, k, entire, r.value))
  {
    RowsAreReleased(db, k, entire);
    ContextIsReturned(db, k, entire);
    ReleaseStepWrites(db, limit, k, entire);
    FinishedRelease(db, limit, k, entire);
    if Release(db, limit, k, entire).1.Done? {
      ReleasedIgnoresPreviews(db, AfterRelease(db, k, entire), Release(db, limit, k, entire).0,
                              db.targets[k].plan.value, k, entire);
    }
  }

  lemma FinishedRelease(db: Db, limit: nat, k: TargetKey, entire: bool)
    requires Releasable(db, k, entire)
    ensures k in db.targets && db.targets[k].plan.Some? && db.targets[k].plan.value in db.plans
    ensures var (next, r) := Release(db, limit, k, entire);
            && (r.Raised? ==> r.error in {CandidateLimitExceeded, DuplicateKey})
            && (r.Done? ==> r.value == ReleaseContext(db, k, entire))
  {
  }

  lemma SameFields(a: Db, b: Db)
    requires SameReservations(a, b)
    ensures a.revision == b.revision && a.ledger == b.ledger && a.targets == b.targets
    ensures a.plans == b.plans && a.finals == b.finals && a.members == b.members
    ensures a.bindings == b.bindings && a.runs == b.runs
    ensures a.definitions == b.definitions && a.suggestions == b.suggestions
  {
  }

  lemma ReleasedIgnoresPreviews(db: Db, a: Db, b: Db, plan: PlanId, k: TargetKey, entire: bool)
    requires plan in db.plans && Released(db, a, plan, k, entire) && SameReservations(a, b)
    ensures Released(db, b, plan, k, entire)
  {
    SameFields(a, b);
  }
}
