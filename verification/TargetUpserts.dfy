/**
 The upsert of target rows that follows a confirmation, also one answered from the stored plan. It
 sets the status of every row it meets, so it revives a target that was stopped in between, although
 another target may hold its users by then.
 */
module TargetUpserts {
  import opened Wrappers
  import opened AudienceTables
  import opened WinnerSelection
  import opened AllocationProtocol
  import opened AllocationInvariant
  import opened ConfirmTheorems
  import opened CoherentInvariant
  import opened ReservationRuns
  import opened RetryTheorems
  import opened ProjectionProtocol

  function Coalesce<T>(stored: Option<T>, offered: Option<T>): Option<T> {
    if stored.Some? then stored else offered
  }

  /**
   The row after the upsert; `plan` is None for a segment without an allocation. The statuses that
   the service writes are never the stopped one.
   */
  function SavedTarget(db: Db, k: TargetKey, plan: Option<PlanId>): Target {
    var stored := if k in db.targets then db.targets[k] else Target(false, None, None, None);
    Target(false,
           Coalesce(stored.snapshot,
                    if plan.Some? then Some(FinalSnapshot(plan.value, k.segment)) else None),
           Coalesce(stored.plan, plan),
           Coalesce(stored.state, if plan.Some? then Some(Reserved) else None))
  }

  function SaveTarget(db: Db, k: TargetKey, plan: Option<PlanId>): Db {
    db.(targets := db.targets[k := SavedTarget(db, k, plan)])
  }

  // ---------------------------------------------------------------------------
  // What the service saves
  // ---------------------------------------------------------------------------

  /** A confirmation of the target's analysis allocated the segment under this live plan. */
  ghost predicate Allocated(db: Db, k: TargetKey, plan: PlanId) {
    && plan in db.plans && Live(db.plans[plan])
    && db.plans[plan].target == k.analysis && k.segment in db.plans[plan].segments
  }

  /** Each allocation that a confirmation returns, fresh or stored, is one of a live plan. */
  lemma AnswersAreAllocated(db: Db, limit: nat, req: Request)
    requires Coherent(db) && Confirm(db, limit, req).1.Done?
    ensures var (next, r) := Confirm(db, limit, req);
            forall s <- r.value.allocations ::
              var f := r.value.allocations[s].snapshot;
              && f.FinalSnapshot? && f.segment == s
              && Allocated(next, TargetKey(req.analysis, s), f.plan)
  {
    if Path(db, limit, req).Fresh? {
      FreshAllocated(db, limit, req);
    } else {
      RetryAllocated(db, limit, req);
    }
  }

  lemma FreshAllocated(db: Db, limit: nat, req: Request)
    requires FinalsMatchPlans(db) && CommitsFresh(db, limit, req)
    ensures var (next, r) := Confirm(db, limit, req);
            forall s <- r.value.allocations ::
              var f := r.value.allocations[s].snapshot;
              && f.FinalSnapshot? && f.segment == s
              && Allocated(next, TargetKey(req.analysis, s), f.plan)
  {
    FreshCommitWrites(db, limit, req);
    CommitResultRows(db, req.minimum, Path(db, limit, req).batch, Path(db, limit, req).sources);
  }

  lemma RetryAllocated(db: Db, limit: nat, req: Request)
    requires Coherent(db) && Confirm(db, limit, req).1.Done? && !Path(db, limit, req).Fresh?
    ensures var (next, r) := Confirm(db, limit, req);
            forall s <- r.value.allocations ::
              var f := r.value.allocations[s].snapshot;
              && f.FinalSnapshot? && f.segment == s
              && Allocated(next, TargetKey(req.analysis, s), f.plan)
  {
    var sources := RetryOf(db, limit, req);
    StoredAllocated(db, req.analysis, sources);
  }

  lemma StoredAllocated(db: Db, analysis: AnalysisId, sources: seq<Source>)
    requires FinalsMatchPlans(db) && PlansNumbered(db) && RetryRows(db, analysis, sources) != {}
    ensures RowsStored(db, RetryRows(db, analysis, sources))
    ensures var answer := StoredResult(db, RetryRows(db, analysis, sources));
            forall s <- answer.allocations ::
              var f := answer.allocations[s].snapshot;
              && f.FinalSnapshot? && f.segment == s
              && Allocated(db, TargetKey(analysis, s), f.plan)
  {
    var rows := RetryRows(db, analysis, sources);
    var allocations := StoredResult(db, rows).allocations;
    forall s | s in allocations
      ensures var f := allocations[s].snapshot;
              && f.FinalSnapshot? && f.segment == s
              && Allocated(db, TargetKey(analysis, s), f.plan)
    {
      RowAllocated(db, analysis, sources, RowFor(db, rows, s));
    }
  }

  lemma RetryOf(db: Db, limit: nat, req: Request) returns (sources: seq<Source>)
    requires Confirm(db, limit, req).1.Done? && !Path(db, limit, req).Fresh?
    ensures RetryRows(db, req.analysis, sources) != {}
    ensures RowsStored(db, RetryRows(db, req.analysis, sources))
    ensures Confirm(db, limit, req)
         == (db, Done(StoredResult(db, RetryRows(db, req.analysis, sources))))
  {
    sources := LoadSources(db, Selected(req), req.rows).value;
  }

  lemma RowAllocated(db: Db, analysis: AnalysisId, sources: seq<Source>, f: SnapshotId)
    requires FinalsMatchPlans(db) && PlansNumbered(db) && f in RetryRows(db, analysis, sources)
    ensures f.FinalSnapshot? && f.segment == db.finals[f].segment
    ensures Allocated(db, TargetKey(analysis, f.segment), f.plan)
  {
    assert FinalMatchesPlan(db, f);
  }

  // ---------------------------------------------------------------------------
  // Exactly when a save is harmless
  // ---------------------------------------------------------------------------

  /** The saved row claims its audience: it is reserved, or consumed by a run that is not over. */
  predicate Claims(db: Db, k: TargetKey, t: Target) {
    && t.snapshot.Some?
    && (t.state == Some(Reserved) || t.state == Some(Consumed))
    && ((k in db.bindings && t.plan == Some(db.bindings[k].plan)
         && t.snapshot == Some(db.bindings[k].snapshot))
        ==> RunActive(db, db.bindings[k].run))
  }

  /** Every member of the row's final snapshot still has a ledger row of this very target. */
  predicate StillOwned(db: Db, k: TargetKey, t: Target)
    requires t.snapshot.Some?
  {
    forall u <- MembersOf(db, t.snapshot.value) ::
      && u in db.ledger && db.ledger[u].target == k
      && t.plan == Some(db.ledger[u].plan) && t.snapshot == Some(db.ledger[u].snapshot)
      && t.state == Some(db.ledger[u].state)
  }

  predicate Harmless(db: Db, k: TargetKey, plan: Option<PlanId>) {
    var t := SavedTarget(db, k, plan);
    Claims(db, k, t) ==> StillOwned(db, k, t)
  }

  lemma SaveKeepsBound(db: Db, k: TargetKey, plan: Option<PlanId>)
    requires TargetsWellBound(db) && PlansNumbered(db) && FinalsMatchPlans(db) && RowsNamePlans(db)
    requires plan.Some? ==> Allocated(db, k, plan.value)
    ensures var next := SaveTarget(db, k, plan);
            TargetsWellBound(next) && PlansNumbered(next) && FinalsMatchPlans(next) && RowsNamePlans(next)
  {
    var next := SaveTarget(db, k, plan);
    forall key | key in next.targets && !next.targets[key].Unbound()
      ensures BoundToPlan(next, key)
    {
      if key in db.targets && !db.targets[key].Unbound() {
        assert BoundToPlan(db, key);
      }
    }
    forall f | f in next.finals
      ensures FinalMatchesPlan(next, f)
    {
      assert FinalMatchesPlan(db, f);
    }
  }

  lemma SaveKeepsStates(db: Db, k: TargetKey, plan: Option<PlanId>)
    requires TargetsWellBound(db) && StatesAgree(db) && BindingsJoin(db)
    requires plan.Some? ==> Allocated(db, k, plan.value)
    ensures StatesAgree(SaveTarget(db, k, plan)) && BindingsJoin(SaveTarget(db, k, plan))
  {
    var next := SaveTarget(db, k, plan);
    if k in db.targets && !db.targets[k].Unbound() {
      assert BoundToPlan(db, k);
      SavedBoundRow(db, k, plan);
    } else {
      assert k !in db.bindings;
    }
    forall key | key in next.bindings
      ensures key in next.targets && BindingMatches(next, key) && next.bindings[key].run in next.runs
    {
      assert BindingMatches(db, key);
    }
  }

  /** A bound row keeps its columns; only its status can change. */
  lemma SavedBoundRow(db: Db, k: TargetKey, plan: Option<PlanId>)
    requires k in db.targets && BoundToPlan(db, k)
    ensures SavedTarget(db, k, plan) == db.targets[k].(stopped := false)
  {
  }

  lemma OthersStayHeld(db: Db, k: TargetKey, plan: Option<PlanId>, key: TargetKey)
    requires AllHeld(db) && key != k
    requires key in db.targets && Holds(SaveTarget(db, k, plan), key)
    ensures AudienceHeld(SaveTarget(db, k, plan), key)
  {
    var next := SaveTarget(db, k, plan);
    assert Holds(db, key);
    forall u | u in MembersOf(next, next.targets[key].snapshot.value)
      ensures HeldBy(next, key, u)
    {
      assert HeldBy(db, key, u);
    }
  }

  lemma SavedHeldIff(db: Db, k: TargetKey, plan: Option<PlanId>)
    ensures var next := SaveTarget(db, k, plan);
            && (Holds(next, k) <==> Claims(db, k, SavedTarget(db, k, plan)))
            && (Holds(next, k) ==>
                  (AudienceHeld(next, k) <==> StillOwned(db, k, SavedTarget(db, k, plan))))
  {
    var next := SaveTarget(db, k, plan);
    if Holds(next, k) {
      assert forall u :: HeldBy(next, k, u) <==>
        && u in db.ledger && db.ledger[u].target == k
        && next.targets[k].plan == Some(db.ledger[u].plan)
        && next.targets[k].snapshot == Some(db.ledger[u].snapshot)
        && next.targets[k].state == Some(db.ledger[u].state);
    }
  }

  lemma SaveKeepsHeldIff(db: Db, k: TargetKey, plan: Option<PlanId>)
    requires AllHeld(db)
    ensures AllHeld(SaveTarget(db, k, plan)) <==> Harmless(db, k, plan)
  {
    var next := SaveTarget(db, k, plan);
    SavedHeldIff(db, k, plan);
    forall key | key in next.targets && key != k && Holds(next, key)
      ensures AudienceHeld(next, key)
    {
      OthersStayHeld(db, k, plan, key);
    }
  }

  /**
   Saving a target row keeps coherence exactly when the row then claims nobody, or each member of
   its final snapshot still has a ledger row of this target.
   */
  lemma SaveKeepsCoherentIff(db: Db, k: TargetKey, plan: Option<PlanId>)
    requires Coherent(db) && (plan.Some? ==> Allocated(db, k, plan.value))
    ensures Coherent(SaveTarget(db, k, plan)) <==> Harmless(db, k, plan)
  {
    SaveKeepsBound(db, k, plan);
    SaveKeepsStates(db, k, plan);
    SaveKeepsHeldIff(db, k, plan);
  }

  /** A row that was not stopped is saved harmlessly: only reviving a stopped target can do damage. */
  lemma OnlyRevivalHarms(db: Db, k: TargetKey, plan: Option<PlanId>)
    requires Coherent(db) && k in db.targets && !db.targets[k].Unbound() && !db.targets[k].stopped
    ensures Harmless(db, k, plan)
  {
    assert BoundToPlan(db, k);
    var t := SavedTarget(db, k, plan);
    assert t == db.targets[k];
    if Claims(db, k, t) {
      assert Holds(db, k);
      forall u | u in MembersOf(db, t.snapshot.value)
        ensures HeldBy(db, k, u)
      {
      }
    }
  }

  // ---------------------------------------------------------------------------
  // What a save repairs
  // ---------------------------------------------------------------------------

  /**
   A confirmation's ledger rows join its target once the service has saved it, unless the row is
   bound to another plan already: a missing row is created bound.
   */
  lemma SavedRowJoinsIff(db: Db, k: TargetKey, plan: PlanId, row: LedgerRow)
    requires TargetsWellBound(db)
    requires row.target == k && row.plan == plan && row.snapshot == FinalSnapshot(plan, k.segment)
    ensures Joined(SaveTarget(db, k, Some(plan)), row)
       <==> (k in db.targets && !db.targets[k].Unbound() ==> db.targets[k].plan == Some(plan))
  {
    if k in db.targets && !db.targets[k].Unbound() {
      assert BoundToPlan(db, k);
      SavedBoundRow(db, k, Some(plan));
    }
  }

  /** Saving a bound row joins no ledger row to it and parts none from it. */
  lemma BoundSaveJoinsSame(db: Db, k: TargetKey, plan: Option<PlanId>)
    requires k in db.targets && BoundToPlan(db, k)
    ensures JoinedUsers(SaveTarget(db, k, plan)) == JoinedUsers(db)
  {
    var next := SaveTarget(db, k, plan);
    forall u | u in db.ledger
      ensures Joined(next, next.ledger[u]) == Joined(db, db.ledger[u])
    {
      RowJoinsSame(db, k, plan, db.ledger[u]);
    }
    SameRowsJoin(db, next);
  }

  lemma RowJoinsSame(db: Db, k: TargetKey, plan: Option<PlanId>, row: LedgerRow)
    requires k in db.targets && BoundToPlan(db, k)
    ensures Joined(SaveTarget(db, k, plan), row) == Joined(db, row)
  {
    SavedBoundRow(db, k, plan);
  }

  lemma SameRowsJoin(db: Db, next: Db)
    requires next.ledger == db.ledger
    requires forall u <- db.ledger :: Joined(next, next.ledger[u]) == Joined(db, db.ledger[u])
    ensures JoinedUsers(next) == JoinedUsers(db)
  {
  }

  // ---------------------------------------------------------------------------
  // Runs with saves
  // ---------------------------------------------------------------------------

  datatype ServiceStep = Transaction(step: Step) | SaveRow(target: TargetKey, plan: Option<PlanId>)

  ghost function ServiceNext(db: Db, limit: nat, step: ServiceStep): Db {
    match step
    case Transaction(inner) => Next(db, limit, inner)
    case SaveRow(k, plan) => SaveTarget(db, k, plan)
  }

  ghost predicate ServicePermitted(db: Db, limit: nat, step: ServiceStep) {
    match step
    case Transaction(inner) => Permitted(db, limit, inner)
    case SaveRow(k, plan) => plan.Some? ==> Allocated(db, k, plan.value)
  }

  ghost function ServiceAfter(db: Db, limit: nat, steps: seq<ServiceStep>): Db {
    if steps == [] then db
    else ServiceNext(ServiceAfter(db, limit, steps[..|steps| - 1]), limit, steps[|steps| - 1])
  }

  ghost predicate ServiceRun(db: Db, limit: nat, steps: seq<ServiceStep>) {
    steps == [] || (ServiceRun(db, limit, steps[..|steps| - 1])
                    && ServicePermitted(ServiceAfter(db, limit, steps[..|steps| - 1]), limit,
                                        steps[|steps| - 1]))
  }

  /** Every save of the run was harmless when it was made. */
  ghost predicate HarmlessRun(db: Db, limit: nat, steps: seq<ServiceStep>) {
    steps == [] || (&& HarmlessRun(db, limit, steps[..|steps| - 1])
                    && var last := steps[|steps| - 1];
                       last.SaveRow? ==>
                         Harmless(ServiceAfter(db, limit, steps[..|steps| - 1]), last.target, last.plan))
  }

  ghost predicate CoherentThroughout(db: Db, limit: nat, steps: seq<ServiceStep>) {
    && Coherent(ServiceAfter(db, limit, steps))
    && (steps == [] || CoherentThroughout(db, limit, steps[..|steps| - 1]))
  }

  /** The tables stay coherent all along a run with saves exactly when all its saves are harmless. */
  lemma {:induction false} ServiceRunCoherentIff(db: Db, limit: nat, steps: seq<ServiceStep>)
    requires Coherent(db) && ServiceRun(db, limit, steps)
    ensures CoherentThroughout(db, limit, steps) <==> HarmlessRun(db, limit, steps)
  {
    if steps != [] {
      var front, last := steps[..|steps| - 1], steps[|steps| - 1];
      ServiceRunCoherentIff(db, limit, front);
      if CoherentThroughout(db, limit, front) {
        ServiceStepCoherentIff(ServiceAfter(db, limit, front), limit, last);
      }
    }
  }

  lemma ServiceStepCoherentIff(db: Db, limit: nat, step: ServiceStep)
    requires Coherent(db) && ServicePermitted(db, limit, step)
    ensures Coherent(ServiceNext(db, limit, step))
       <==> (step.SaveRow? ==> Harmless(db, step.target, step.plan))
  {
    match step
    case Transaction(inner) => StepKeepsCoherent(db, limit, inner);
    case SaveRow(k, plan) => SaveKeepsCoherentIff(db, k, plan);
  }

  /** The reservation guarantees survive any run whose saves are harmless. */
  lemma ServiceSafety(limit: nat, steps: seq<ServiceStep>)
    requires ServiceRun(EMPTY_DB, limit, steps) && HarmlessRun(EMPTY_DB, limit, steps)
    ensures Safe(ServiceAfter(EMPTY_DB, limit, steps))
  {
    InitiallyCoherent();
    ServiceRunCoherentIff(EMPTY_DB, limit, steps);
    CoherentIsSafe(ServiceAfter(EMPTY_DB, limit, steps));
  }
}
