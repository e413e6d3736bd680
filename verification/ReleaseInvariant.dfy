/** A release gives back a whole plan, and what it predicts about the ledger. */
module ReleaseInvariant {
  import opened Wrappers
  import opened AudienceTables
  import opened SetSizes
  import opened WinnerSelection
  import opened AllocationProtocol
  import opened AllocationInvariant

  /** The release passed every check that precedes its writes. */
  predicate Releasable(db: Db, k: TargetKey, entire: bool) {
    ReleaseRejection(db, k, entire).None?
  }

  lemma ReleasablePlan(db: Db, k: TargetKey, entire: bool)
    requires TargetsWellBound(db) && Releasable(db, k, entire)
    ensures k in db.targets && db.targets[k].plan.Some? && db.targets[k].plan.value in db.plans
    ensures db.plans[db.targets[k].plan.value].status != Locked
    ensures !entire ==> db.plans[db.targets[k].plan.value].segments == {k.segment}
  {
    var plan := db.targets[k].plan.value;
    assert BoundToPlan(db, k);
    if !entire {
      OnlyMember(db.plans[plan].segments, k.segment);
    }
  }

  lemma OnlyMember<T>(s: set<T>, x: T)
    requires x in s && |s| <= 1
    ensures s == {x}
  {
    SubsetSize({x}, s);
  }

  /** Releasing one target of a one-segment plan and releasing the plan are the same writes. */
  lemma ReleaseIsWholePlan(db: Db, k: TargetKey, entire: bool)
    requires TargetsWellBound(db) && RowsNamePlans(db) && Releasable(db, k, entire)
    ensures k in db.targets && db.targets[k].plan.Some? && db.targets[k].plan.value in db.plans
    ensures AfterRelease(db, k, entire) == AfterRelease(db, k, true)
    ensures forall state :: PlanRows(db, db.targets[k].plan.value, Scope(k, entire), state)
                         == PlanRows(db, db.targets[k].plan.value, None, state)
  {
    ReleasablePlan(db, k, entire);
    if !entire {
      var plan := db.targets[k].plan.value;
      OneSegmentPlan(db, k, plan);
      ReleasedRowsAgree(db, k, plan);
      ScopedRowsAgree(db, k, plan);
    }
  }

  lemma OneSegmentPlan(db: Db, k: TargetKey, plan: PlanId)
    requires TargetsWellBound(db) && RowsNamePlans(db)
    requires k in db.targets && db.targets[k].plan == Some(plan) && plan in db.plans
    requires db.plans[plan].segments == {k.segment}
    ensures forall u <- db.ledger :: db.ledger[u].plan == plan ==>
              db.ledger[u].target.segment == k.segment
    ensures forall key <- db.targets :: db.targets[key].plan == Some(plan) <==> key == k
  {
    assert BoundToPlan(db, k);
    forall key | key in db.targets && db.targets[key].plan == Some(plan)
      ensures key == k
    {
      assert BoundToPlan(db, key);
    }
  }

  lemma ReleasedRowsAgree(db: Db, k: TargetKey, plan: PlanId)
    requires k in db.targets && db.targets[k].plan == Some(plan) && plan in db.plans
    requires forall u <- db.ledger :: db.ledger[u].plan == plan ==>
               db.ledger[u].target.segment == k.segment
    requires forall key <- db.targets :: db.targets[key].plan == Some(plan) <==> key == k
    ensures AfterRelease(db, k, false) == AfterRelease(db, k, true)
  {
    var a, b := AfterRelease(db, k, false), AfterRelease(db, k, true);
    assert a.ledger == b.ledger;
    assert a.targets == b.targets;
  }

  lemma ScopedRowsAgree(db: Db, k: TargetKey, plan: PlanId)
    requires forall u <- db.ledger :: db.ledger[u].plan == plan ==>
               db.ledger[u].target.segment == k.segment
    ensures forall state ::
              PlanRows(db, plan, Some(k.segment), state) == PlanRows(db, plan, None, state)
  {
  }

  /** The writes of a release, for one plan. */
  ghost predicate GaveBack(db: Db, next: Db, plan: PlanId) {
    && plan in db.plans && db.plans[plan].status != Locked
    && GaveTargets(db, next, plan) && GavePlan(db, next, plan) && GaveRows(db, next, plan)
    && next.finals == db.finals && next.members == db.members && RunsSame(db, next)
  }

  ghost predicate GaveTargets(db: Db, next: Db, plan: PlanId) {
    && next.targets.Keys == db.targets.Keys
    && forall k <- db.targets ::
         next.targets[k] == if db.targets[k].plan == Some(plan) then
                              db.targets[k].(state := Some(Released)) else db.targets[k]
  }

  ghost predicate GavePlan(db: Db, next: Db, plan: PlanId)
    requires plan in db.plans
  {
    && next.revision == db.revision + 1
    && next.plans == db.plans[plan := db.plans[plan].(status := PlanReleased)]
  }

  ghost predicate GaveRows(db: Db, next: Db, plan: PlanId) {
    && next.ledger.Keys == db.ledger.Keys
    && forall u <- db.ledger ::
         next.ledger[u] == ReleasedRow(db.ledger[u], plan, None, next.revision)
  }

  lemma ReleaseGivesBack(db: Db, k: TargetKey, entire: bool)
    requires TargetsWellBound(db) && RowsNamePlans(db) && Releasable(db, k, entire)
    ensures k in db.targets && db.targets[k].plan.Some? && db.targets[k].plan.value in db.plans
    ensures GaveBack(db, AfterRelease(db, k, entire), db.targets[k].plan.value)
  {
    ReleaseIsWholePlan(db, k, entire);
    ReleasablePlan(db, k, entire);
    WholePlanWrites(db, k);
  }

  lemma WholePlanWrites(db: Db, k: TargetKey)
    requires k in db.targets && db.targets[k].plan.Some? && db.targets[k].plan.value in db.plans
    requires db.plans[db.targets[k].plan.value].status != Locked
    ensures GaveBack(db, AfterRelease(db, k, true), db.targets[k].plan.value)
  {
  }

  lemma GaveBackKeepsTargets(db: Db, next: Db, plan: PlanId)
    requires TargetsWellBound(db) && PlansComplete(db) && plan in db.plans
    requires GaveTargets(db, next, plan) && GavePlan(db, next, plan)
    ensures TargetsWellBound(next) && PlansComplete(next)
  {
    forall k | k in next.targets && !next.targets[k].Unbound()
      ensures BoundToPlan(next, k)
    {
      assert BoundToPlan(db, k);
    }
    forall p | p in next.plans
      ensures PlanComplete(next, p)
    {
      assert PlanComplete(db, p);
    }
  }

  lemma GaveBackKeepsStates(db: Db, next: Db, plan: PlanId)
    requires TargetsWellBound(db) && StatesAgree(db) && BindingsJoin(db)
    requires plan in db.plans && db.plans[plan].status != Locked
    requires GaveTargets(db, next, plan) && GavePlan(db, next, plan) && RunsSame(db, next)
    ensures StatesAgree(next) && BindingsJoin(next)
  {
    forall k | k in next.targets && next.targets[k].plan.Some?
      ensures next.targets[k].plan.value in next.plans
      ensures next.targets[k].plan == Some(plan) ==> k !in next.bindings
    {
      assert BoundToPlan(db, k);
    }
  }

  lemma GaveBackKeepsFinals(db: Db, next: Db, plan: PlanId)
    requires FinalsMatchPlans(db) && GaveBack(db, next, plan)
    ensures FinalsMatchPlans(next)
  {
    forall f | f in next.finals
      ensures FinalMatchesPlan(next, f)
    {
      assert FinalMatchesPlan(db, f);
    }
  }

  lemma GaveBackKeepsLedger(db: Db, next: Db, plan: PlanId)
    requires TargetsWellBound(db) && StatesAgree(db) && LedgerJoined(db) && RevisionCounts(db)
    requires plan in db.plans && db.plans[plan].status != Locked
    requires GaveTargets(db, next, plan) && GavePlan(db, next, plan) && GaveRows(db, next, plan)
    requires next.members == db.members && db.ledger != map[]
    ensures LedgerJoined(next) && RevisionCounts(next)
  {
    forall u | u in next.ledger
      ensures RowJoined(next, u, next.ledger[u])
    {
      assert RowJoined(db, u, db.ledger[u]);
      GaveBackRow(db, next, plan, u);
    }
    var u :| u in db.ledger;
    assert u in next.ledger;
  }

  lemma GaveBackRow(db: Db, next: Db, plan: PlanId, u: UserId)
    requires TargetsWellBound(db) && StatesAgree(db) && u in db.ledger && RowJoined(db, u, db.ledger[u])
    requires plan in db.plans && db.plans[plan].status != Locked
    requires GaveTargets(db, next, plan) && GavePlan(db, next, plan) && GaveRows(db, next, plan)
    requires next.members == db.members
    ensures RowJoined(next, u, next.ledger[u])
  {
    assert BoundToPlan(db, db.ledger[u].target);
  }

  lemma GaveBackKeepsCovered(db: Db, next: Db, plan: PlanId)
    requires LedgerJoined(db) && Covered(db) && GaveBack(db, next, plan)
    ensures Covered(next)
  {
    forall k | k in next.targets && Holds(next, k)
      ensures forall u <- MembersOf(next, next.targets[k].snapshot.value) ::
                u in next.ledger && next.ledger[u].target == k
    {
      assert next.targets[k] == db.targets[k];
      ActivitySame(db, next, k);
      assert Holds(db, k);
      forall u | u in MembersOf(next, next.targets[k].snapshot.value)
        ensures u in next.ledger && next.ledger[u].target == k
      {
        HeldUserExcluded(db, k, u);
      }
    }
  }

  /** A released plan once held users, so the ledger is not empty. */
  lemma PlanMeansLedger(db: Db, plan: PlanId)
    requires Inv(db) && plan in db.plans
    ensures db.ledger != map[]
  {
    assert PlanComplete(db, plan);
  }

  lemma ReleaseKeepsInv(db: Db, k: TargetKey, entire: bool)
    requires Inv(db) && Releasable(db, k, entire)
    ensures k in db.targets && db.targets[k].plan.Some? && db.targets[k].plan.value in db.plans
    ensures Inv(AfterRelease(db, k, entire))
  {
    JoinedRowsNamePlans(db);
    ReleaseGivesBack(db, k, entire);
    var plan, next := db.targets[k].plan.value, AfterRelease(db, k, entire);
    PlanMeansLedger(db, plan);
    GaveBackKeepsTargets(db, next, plan);
    GaveBackKeepsStates(db, next, plan);
    GaveBackKeepsFinals(db, next, plan);
    GaveBackKeepsLedger(db, next, plan);
    GaveBackKeepsCovered(db, next, plan);
  }

  /** The active users after a release are those before it that the plan did not reserve. */
  lemma ActiveAfterRelease(db: Db, next: Db, plan: PlanId)
    requires GaveBack(db, next, plan) && PlanRows(db, plan, None, Consumed) == {}
    ensures ActiveUsers(next) == ActiveUsers(db) - PlanRows(db, plan, None, Reserved)
  {
    forall u | u in db.ledger
      ensures Excluded(next, u) <==> Excluded(db, u) && u !in PlanRows(db, plan, None, Reserved)
    {
      ExclusionAfterRelease(db, next, plan, u);
    }
    ActiveLess(db, next, PlanRows(db, plan, None, Reserved));
  }

  lemma ActiveLess(db: Db, next: Db, rows: set<UserId>)
    requires next.ledger.Keys == db.ledger.Keys
    requires forall u <- db.ledger :: Excluded(next, u) <==> Excluded(db, u) && u !in rows
    ensures ActiveUsers(next) == ActiveUsers(db) - rows
  {
  }

  /** A release moves no row to or from a target and changes no target's activity. */
  lemma GaveBackJoins(db: Db, next: Db, plan: PlanId, u: UserId)
    requires GaveTargets(db, next, plan) && GaveRows(db, next, plan) && RunsSame(db, next)
    requires u in db.ledger
    ensures u in next.ledger && next.ledger[u].target == db.ledger[u].target
    ensures Joined(next, next.ledger[u]) == Joined(db, db.ledger[u])
    ensures var k := db.ledger[u].target;
            k in db.targets ==> k in next.targets && TargetActive(next, k) == TargetActive(db, k)
  {
  }

  lemma ExclusionAfterRelease(db: Db, next: Db, plan: PlanId, u: UserId)
    requires u in db.ledger && PlanRows(db, plan, None, Consumed) == {}
    requires GaveTargets(db, next, plan) && GaveRows(db, next, plan) && RunsSame(db, next)
    ensures Excluded(next, u) <==> Excluded(db, u) && u !in PlanRows(db, plan, None, Reserved)
  {
    GaveBackJoins(db, next, plan, u);
    assert u !in PlanRows(db, plan, None, Consumed);
  }

  /** What a release passed on its way: it is a whole release of a plan nobody has consumed. */
  lemma ReleasableGivesBack(db: Db, k: TargetKey, entire: bool)
    requires TargetsWellBound(db) && RowsNamePlans(db) && Releasable(db, k, entire)
    ensures k in db.targets && db.targets[k].plan.Some? && db.targets[k].plan.value in db.plans
    ensures var plan := db.targets[k].plan.value;
            && GaveBack(db, AfterRelease(db, k, entire), plan)
            && PlanRows(db, plan, None, Consumed) == {}
            && PlanRows(db, plan, Scope(k, entire), Reserved) == PlanRows(db, plan, None, Reserved)
  {
    ReleaseIsWholePlan(db, k, entire);
    ReleaseGivesBack(db, k, entire);
  }

  /**
   The context a release returns is what a reload computes exactly when every reserved row
   of the plan was still active, or nobody outside those rows was.
   */
  lemma ReleaseContextIff(db: Db, k: TargetKey, entire: bool)
    requires Coherent(db) && Releasable(db, k, entire)
    ensures k in db.targets && db.targets[k].plan.Some? && db.targets[k].plan.value in db.plans
    ensures var rows := PlanRows(db, db.targets[k].plan.value, Scope(k, entire), Reserved);
            ReleaseContext(db, k, entire) == Reload(AfterRelease(db, k, entire))
            <==> rows <= ActiveUsers(db) || ActiveUsers(db) <= rows
  {
    ReleasableGivesBack(db, k, entire);
    var plan := db.targets[k].plan.value;
    ActiveAfterRelease(db, AfterRelease(db, k, entire), plan);
    DifferenceCountsIff(ActiveUsers(db), PlanRows(db, plan, None, Reserved));
  }

  /** Subtracting the sizes, down to zero, is the size of the difference. */
  lemma DifferenceCountsIff(active: set<UserId>, rows: set<UserId>)
    ensures |active - rows| == (if |active| >= |rows| then |active| - |rows| else 0)
       <==> rows <= active || active <= rows
  {
    DifferenceSize(active, rows);
    SubsetSize(active * rows, rows);
    SubsetSize(active * rows, active);
    assert rows <= active <==> active * rows == rows;
    assert active <= rows <==> active * rows == active;
  }
}
