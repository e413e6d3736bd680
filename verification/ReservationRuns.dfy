/**
 Every sequence of transactions, and what holds after all of them. Nothing is asked of the
 transactions themselves; `BindingRun` singles out the runs in which every confirmation that commits
 could bind its target rows.
 */
module ReservationRuns {
  import opened Wrappers
  import opened AudienceTables
  import opened WinnerSelection
  import opened AllocationProtocol
  import opened AllocationInvariant
  import opened ReleaseInvariant
  import opened BindInvariant
  import opened ConfirmTheorems
  import opened CoherentInvariant

  /** `SurroundingStep` is any other change to the tables that `Surrounding` admits. */
  datatype Step =
    | ConfirmStep(req: Request)
    | ReleaseStep(target: TargetKey, entire: bool)
    | BindStep(run: RunId, items: seq<BindItem>)
    | SurroundingStep(after: Db)

  ghost function Next(db: Db, limit: nat, step: Step): Db {
    match step
    case ConfirmStep(req) => Confirm(db, limit, req).0
    case ReleaseStep(k, entire) => Release(db, limit, k, entire).0
    case BindStep(run, items) => BindRun(db, run, items).0
    case SurroundingStep(after) => after
  }

  /**
   What the surroundings are assumed to respect: a run is created and changes status, a target
   row is added or stopped, a source snapshot, a segment or a suggestion is stored, previews are
   refreshed. Inactivity is final and stored snapshots do not change.
   */
  ghost predicate Surrounding(db: Db, next: Db) {
    && next.ledger == db.ledger && next.plans == db.plans && next.finals == db.finals
    && next.revision == db.revision && next.bindings == db.bindings
    && (forall k <- db.targets ::
          && k in next.targets
          && next.targets[k] == db.targets[k].(stopped := next.targets[k].stopped)
          && (db.targets[k].stopped ==> next.targets[k].stopped))
    && (forall k <- next.targets :: k !in db.targets ==> next.targets[k].Unbound())
    && (forall f <- db.members :: f in next.members && next.members[f] == db.members[f])
    && (forall f <- next.members :: f !in db.members ==> f.SourceSnapshot?)
    && (forall r <- db.runs :: r in next.runs && (RunActive(next, r) ==> RunActive(db, r)))
  }

  ghost predicate Permitted(db: Db, limit: nat, step: Step) {
    step.SurroundingStep? ==> Surrounding(db, step.after)
  }

  /** A confirmation that commits finds its target rows bindable. */
  ghost predicate Binds(db: Db, limit: nat, step: Step) {
    step.ConfirmStep? && CommitsFresh(db, limit, step.req) ==>
      AllBindable(db, step.req.analysis, Selected(step.req))
  }

  ghost function After(db: Db, limit: nat, steps: seq<Step>): Db {
    if steps == [] then db
    else Next(After(db, limit, steps[..|steps| - 1]), limit, steps[|steps| - 1])
  }

  ghost predicate PermittedRun(db: Db, limit: nat, steps: seq<Step>) {
    steps == [] || (PermittedRun(db, limit, steps[..|steps| - 1])
                    && Permitted(After(db, limit, steps[..|steps| - 1]), limit,
                                 steps[|steps| - 1]))
  }

  ghost predicate BindingRun(db: Db, limit: nat, steps: seq<Step>) {
    steps == [] || (BindingRun(db, limit, steps[..|steps| - 1])
                    && Binds(After(db, limit, steps[..|steps| - 1]), limit, steps[|steps| - 1]))
  }

  // ---------------------------------------------------------------------------
  // The surroundings
  // ---------------------------------------------------------------------------

  lemma SurroundingKeepsBound(db: Db, next: Db)
    requires TargetsWellBound(db) && Surrounding(db, next)
    ensures TargetsWellBound(next)
  {
    forall k | k in next.targets && !next.targets[k].Unbound()
      ensures BoundToPlan(next, k)
    {
      assert BoundToPlan(db, k);
    }
  }

  lemma SurroundingKeepsPlans(db: Db, next: Db)
    requires PlansComplete(db) && Surrounding(db, next)
    ensures PlansComplete(next)
  {
    forall p | p in next.plans
      ensures PlanComplete(next, p)
    {
      assert PlanComplete(db, p);
    }
  }

  lemma SurroundingKeepsFinals(db: Db, next: Db)
    requires FinalsMatchPlans(db) && Surrounding(db, next)
    ensures FinalsMatchPlans(next)
  {
    forall f | f in next.finals
      ensures FinalMatchesPlan(next, f)
    {
      assert FinalMatchesPlan(db, f);
    }
  }

  lemma SurroundingKeepsStates(db: Db, next: Db)
    requires TargetsWellBound(db) && StatesAgree(db) && BindingsJoin(db)
    requires Surrounding(db, next)
    ensures StatesAgree(next) && BindingsJoin(next)
  {
    forall k | k in next.bindings
      ensures k in next.targets && BindingMatches(next, k) && next.bindings[k].run in next.runs
    {
      assert BindingMatches(db, k);
    }
  }

  lemma ActivityOnlyLost(db: Db, next: Db, k: TargetKey)
    requires BindingsJoin(db) && Surrounding(db, next) && k in db.targets
    ensures TargetActive(next, k) ==> TargetActive(db, k)
  {
  }

  lemma SurroundingKeepsLedger(db: Db, next: Db)
    requires LedgerJoined(db) && Covered(db) && BindingsJoin(db) && RevisionCounts(db)
    requires TargetsWellBound(db) && PlansComplete(db) && FinalsMatchPlans(db)
    requires Surrounding(db, next)
    ensures LedgerJoined(next) && Covered(next) && RevisionCounts(next)
  {
    SurroundingKeepsRows(db, next);
    SurroundingKeepsCovered(db, next);
  }

  lemma SurroundingKeepsRows(db: Db, next: Db)
    requires LedgerJoined(db) && FinalsMatchPlans(db) && Surrounding(db, next)
    ensures LedgerJoined(next)
  {
    forall u | u in next.ledger
      ensures RowJoined(next, u, next.ledger[u])
    {
      assert RowJoined(db, u, db.ledger[u]);
    }
  }

  lemma SurroundingKeepsCovered(db: Db, next: Db)
    requires Covered(db) && BindingsJoin(db) && TargetsWellBound(db)
    requires PlansComplete(db) && FinalsMatchPlans(db) && Surrounding(db, next)
    ensures Covered(next)
  {
    forall k | k in next.targets && Holds(next, k)
      ensures forall u <- MembersOf(next, next.targets[k].snapshot.value) ::
                u in next.ledger && next.ledger[u].target == k
    {
      ActivityOnlyLost(db, next, k);
      BoundSnapshotStored(db, k);
      assert Holds(db, k);
    }
  }

  lemma SurroundingKeepsInv(db: Db, next: Db)
    requires Inv(db) && Surrounding(db, next)
    ensures Inv(next)
  {
    SurroundingKeepsBound(db, next);
    SurroundingKeepsPlans(db, next);
    SurroundingKeepsFinals(db, next);
    SurroundingKeepsStates(db, next);
    SurroundingKeepsLedger(db, next);
  }

  /** Refreshing previews and ending a run are among the surrounding steps. */
  lemma RefreshIsSurrounding(db: Db, limit: nat, batch: AnalysisId, exclude: set<SegmentId>)
    requires Refresh(db, limit, batch, exclude).Done?
    ensures Surrounding(db, Refresh(db, limit, batch, exclude).value)
  {
  }

  lemma EndingRunIsSurrounding(db: Db, run: RunId, status: RunStatus)
    requires Terminal(status)
    ensures Surrounding(db, db.(runs := db.runs[run := status]))
  {
  }

  // ---------------------------------------------------------------------------
  // Every step keeps the invariant
  // ---------------------------------------------------------------------------

  lemma ConfirmStepKeepsInvIff(db: Db, limit: nat, req: Request)
    requires Inv(db)
    ensures Inv(Confirm(db, limit, req).0) <==> Binds(db, limit, ConfirmStep(req))
  {
    if CommitsFresh(db, limit, req) {
      ConfirmKeepsInvIff(db, limit, req);
    } else {
      UncommittedChangesNothing(db, limit, req);
    }
  }

  /** A confirmation that does not commit a new plan changes no table. */
  lemma UncommittedChangesNothing(db: Db, limit: nat, req: Request)
    requires !CommitsFresh(db, limit, req)
    ensures Confirm(db, limit, req).0 == db
  {
    UncommittedActs(db, limit, req.analysis, req.minimum, Path(db, limit, req));
  }

  lemma UncommittedActs(db: Db, limit: nat, analysis: AnalysisId, minimum: int, path: ConfirmPath)
    requires path.Fresh? ==> Act(db, limit, analysis, minimum, path).1.Raised?
    ensures Act(db, limit, analysis, minimum, path).0 == db
  {
  }

  /** What a release leaves behind when it commits, and that nothing changes when it does not. */
  lemma ReleaseStepWrites(db: Db, limit: nat, k: TargetKey, entire: bool)
    ensures var (next, r) := Release(db, limit, k, entire);
            && (r.Raised? ==> next == db)
            && (r.Done? ==>
                  && Releasable(db, k, entire)
                  && k in db.targets && db.targets[k].plan.Some?
                  && db.targets[k].plan.value in db.plans
                  && SameReservations(AfterRelease(db, k, entire), next))
  {
    if Releasable(db, k, entire) {
      FinishCommits(db, AfterRelease(db, k, entire), limit,
                    db.plans[db.targets[k].plan.value].batch, {}, ReleaseContext(db, k, entire));
    }
  }

  lemma ReleaseStepKeepsInv(db: Db, limit: nat, k: TargetKey, entire: bool)
    requires Inv(db)
    ensures Inv(Release(db, limit, k, entire).0)
  {
    ReleaseStepWrites(db, limit, k, entire);
    if Release(db, limit, k, entire).1.Done? {
      ReleaseKeepsInv(db, k, entire);
      InvIgnoresPreviews(AfterRelease(db, k, entire), Release(db, limit, k, entire).0);
    }
  }

  lemma BindStepWrites(db: Db, run: RunId, items: seq<BindItem>)
    ensures var (next, r) := BindRun(db, run, items);
            && (r.Raised? ==> next == db)
            && (r.Done? ==>
                  && DistinctItems(items)
                  && (forall item :: item in items ==> ItemAccepted(db, run, item))
                  && next == BindWrites(db, run, items))
  {
  }

  lemma BindStepKeepsInv(db: Db, run: RunId, items: seq<BindItem>)
    requires Inv(db)
    ensures Inv(BindRun(db, run, items).0)
  {
    BindStepWrites(db, run, items);
    if BindRun(db, run, items).1.Done? {
      BindKeepsInv(db, run, items);
    }
  }

  /** Among all steps only a confirmation that cannot bind a target row breaks the invariant. */
  lemma StepKeepsInvIff(db: Db, limit: nat, step: Step)
    requires Inv(db) && Permitted(db, limit, step)
    ensures Inv(Next(db, limit, step)) <==> Binds(db, limit, step)
  {
    match step
    case ConfirmStep(req) => ConfirmStepKeepsInvIff(db, limit, req);
    case ReleaseStep(k, entire) => ReleaseStepKeepsInv(db, limit, k, entire);
    case BindStep(run, items) => BindStepKeepsInv(db, run, items);
    case SurroundingStep(after) => SurroundingKeepsInv(db, after);
  }

  /** The invariant holds after every prefix of the run. */
  ghost predicate InvThroughout(db: Db, limit: nat, steps: seq<Step>) {
    && Inv(After(db, limit, steps))
    && (steps == [] || InvThroughout(db, limit, steps[..|steps| - 1]))
  }

  /** It does exactly when all confirmations of the run could bind their targets. */
  lemma {:induction false} RunKeepsInvIff(db: Db, limit: nat, steps: seq<Step>)
    requires Inv(db) && PermittedRun(db, limit, steps)
    ensures InvThroughout(db, limit, steps) <==> BindingRun(db, limit, steps)
  {
    if steps != [] {
      var front := steps[..|steps| - 1];
      RunKeepsInvIff(db, limit, front);
      if InvThroughout(db, limit, front) {
        StepKeepsInvIff(After(db, limit, front), limit, steps[|steps| - 1]);
      }
    }
  }

  lemma RunKeepsInv(db: Db, limit: nat, steps: seq<Step>)
    requires Inv(db) && PermittedRun(db, limit, steps) && BindingRun(db, limit, steps)
    ensures Inv(After(db, limit, steps))
  {
    RunKeepsInvIff(db, limit, steps);
  }

  // ---------------------------------------------------------------------------
  // Every step keeps coherence
  // ---------------------------------------------------------------------------

  lemma ConfirmStepKeepsCoherent(db: Db, limit: nat, req: Request)
    requires Coherent(db)
    ensures Coherent(Confirm(db, limit, req).0)
  {
    if CommitsFresh(db, limit, req) {
      FreshCommitWrites(db, limit, req);
      var path := Path(db, limit, req);
      var mid := Commit(db, req.analysis, req.minimum, path.batch, path.sources);
      WroteKeepsCoherent(db, mid, FreshWrite(db, limit, req));
      CoherentIgnoresPreviews(mid, Confirm(db, limit, req).0);
    } else {
      UncommittedChangesNothing(db, limit, req);
    }
  }

  lemma ReleaseStepKeepsCoherent(db: Db, limit: nat, k: TargetKey, entire: bool)
    requires Coherent(db)
    ensures Coherent(Release(db, limit, k, entire).0)
  {
    ReleaseStepWrites(db, limit, k, entire);
    if Release(db, limit, k, entire).1.Done? {
      ReleaseKeepsCoherent(db, k, entire);
      CoherentIgnoresPreviews(AfterRelease(db, k, entire), Release(db, limit, k, entire).0);
    }
  }

  lemma BindStepKeepsCoherent(db: Db, run: RunId, items: seq<BindItem>)
    requires Coherent(db)
    ensures Coherent(BindRun(db, run, items).0)
  {
    BindStepWrites(db, run, items);
    if BindRun(db, run, items).1.Done? {
      BindKeepsCoherent(db, run, items);
    }
  }

  lemma SurroundingKeepsHeld(db: Db, next: Db)
    requires TargetsWellBound(db) && PlansNumbered(db) && FinalsMatchPlans(db)
    requires BindingsJoin(db) && AllHeld(db) && Surrounding(db, next)
    ensures AllHeld(next)
  {
    forall k | k in next.targets && Holds(next, k)
      ensures AudienceHeld(next, k)
    {
      ActivityOnlyLost(db, next, k);
      CoherentSnapshotStored(db, k);
      assert Holds(db, k);
      forall u | u in MembersOf(next, next.targets[k].snapshot.value)
        ensures HeldBy(next, k, u)
      {
        assert HeldBy(db, k, u);
      }
    }
  }

  lemma SurroundingKeepsCoherent(db: Db, next: Db)
    requires Coherent(db) && Surrounding(db, next)
    ensures Coherent(next)
  {
    SurroundingKeepsBound(db, next);
    SurroundingKeepsFinals(db, next);
    SurroundingKeepsStates(db, next);
    SurroundingKeepsHeld(db, next);
  }

  lemma StepKeepsCoherent(db: Db, limit: nat, step: Step)
    requires Coherent(db) && Permitted(db, limit, step)
    ensures Coherent(Next(db, limit, step))
  {
    match step
    case ConfirmStep(req) => ConfirmStepKeepsCoherent(db, limit, req);
    case ReleaseStep(k, entire) => ReleaseStepKeepsCoherent(db, limit, k, entire);
    case BindStep(run, items) => BindStepKeepsCoherent(db, run, items);
    case SurroundingStep(after) => SurroundingKeepsCoherent(db, after);
  }

  lemma {:induction false} RunKeepsCoherent(db: Db, limit: nat, steps: seq<Step>)
    requires Coherent(db) && PermittedRun(db, limit, steps)
    ensures Coherent(After(db, limit, steps))
  {
    if steps != [] {
      RunKeepsCoherent(db, limit, steps[..|steps| - 1]);
      StepKeepsCoherent(After(db, limit, steps[..|steps| - 1]), limit, steps[|steps| - 1]);
    }
  }

  // ---------------------------------------------------------------------------
  // Safety
  // ---------------------------------------------------------------------------

  /** The target's whole final audience is reserved for it, row by row. */
  ghost predicate WhollyReserved(db: Db, k: TargetKey)
    requires k in db.targets && Holds(db, k)
  {
    forall u <- MembersOf(db, db.targets[k].snapshot.value) ::
      && u in db.ledger
      && db.ledger[u].state != Released
      && Some(db.ledger[u].state) == db.targets[k].state
      && db.ledger[u].target == k
      && Some(db.ledger[u].plan) == db.targets[k].plan
      && Some(db.ledger[u].snapshot) == db.targets[k].snapshot
  }

  ghost predicate AudiencesDisjoint(db: Db) {
    forall a <- db.targets, b <- db.targets :: a != b && Holds(db, a) && Holds(db, b) ==>
      MembersOf(db, db.targets[a].snapshot.value).Keys
        !! MembersOf(db, db.targets[b].snapshot.value).Keys
  }

  /** The targets that a plan bound are released all together or not at all. */
  ghost predicate NoPartialRelease(db: Db) {
    forall a <- db.targets, b <- db.targets ::
      db.targets[a].plan.Some? && db.targets[a].plan == db.targets[b].plan ==>
        (db.targets[a].state == Some(Released) <==> db.targets[b].state == Some(Released))
  }

  ghost predicate Safe(db: Db) {
    && (forall k <- db.targets :: Holds(db, k) ==> WhollyReserved(db, k))
    && AudiencesDisjoint(db)
    && NoPartialRelease(db)
  }

  /**
   After every sequence of transactions, each live target still owns the ledger row of every user
   of its final snapshot, the audiences of two live targets share nobody, and no plan is partly
   released.
   */
  lemma ReservationSafety(limit: nat, steps: seq<Step>)
    requires PermittedRun(EMPTY_DB, limit, steps)
    ensures Safe(After(EMPTY_DB, limit, steps))
  {
    InitiallyCoherent();
    RunKeepsCoherent(EMPTY_DB, limit, steps);
    CoherentIsSafe(After(EMPTY_DB, limit, steps));
  }

  lemma CoherentIsSafe(db: Db)
    requires Coherent(db)
    ensures Safe(db)
  {
    forall k | k in db.targets && Holds(db, k)
      ensures WhollyReserved(db, k)
    {
      HeldIsWhollyReserved(db, k);
    }
    forall a, b | a in db.targets && b in db.targets && a != b && Holds(db, a) && Holds(db, b)
      ensures MembersOf(db, db.targets[a].snapshot.value).Keys
           !! MembersOf(db, db.targets[b].snapshot.value).Keys
    {
      LiveTargetsDisjoint(db, a, b);
    }
    PlanStatusDecidesRelease(db);
  }

  lemma HeldIsWhollyReserved(db: Db, k: TargetKey)
    requires k in db.targets && Holds(db, k) && AudienceHeld(db, k)
    ensures WhollyReserved(db, k)
  {
    forall u | u in MembersOf(db, db.targets[k].snapshot.value)
      ensures HeldBy(db, k, u)
    {
    }
  }

  lemma HeldUsersNameTarget(db: Db, k: TargetKey)
    requires k in db.targets && Holds(db, k) && AudienceHeld(db, k)
    ensures forall u <- MembersOf(db, db.targets[k].snapshot.value) ::
              u in db.ledger && db.ledger[u].target == k
  {
    forall u | u in MembersOf(db, db.targets[k].snapshot.value)
      ensures HeldBy(db, k, u)
    {
    }
  }

  /** One ledger row cannot name two targets. */
  lemma LiveTargetsDisjoint(db: Db, a: TargetKey, b: TargetKey)
    requires AllHeld(db)
    requires a in db.targets && b in db.targets && a != b && Holds(db, a) && Holds(db, b)
    ensures MembersOf(db, db.targets[a].snapshot.value).Keys
         !! MembersOf(db, db.targets[b].snapshot.value).Keys
  {
    HeldUsersNameTarget(db, a);
    HeldUsersNameTarget(db, b);
  }

  lemma PlanStatusDecidesRelease(db: Db)
    requires TargetsWellBound(db) && StatesAgree(db)
    ensures NoPartialRelease(db)
  {
    forall k | k in db.targets && db.targets[k].plan.Some?
      ensures db.targets[k].plan.value in db.plans
    {
      assert BoundToPlan(db, k);
    }
  }
}
