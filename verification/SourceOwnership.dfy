/** A recommendation is confirmed by one analysis at a time: its live plans all have one target. */
module SourceOwnership {
  import opened Wrappers
  import opened AudienceTables
  import opened WinnerSelection
  import opened AllocationProtocol
  import opened AllocationInvariant
  import opened ConfirmTheorems
  import opened CoherentInvariant
  import opened ReservationRuns
  import opened RetryTheorems

  /** Plans of two analyses that are not released have no source in common. */
  ghost predicate SourcesOwned(db: Db) {
    forall p <- db.plans, q <- db.plans ::
      && db.plans[p].status != PlanReleased && db.plans[q].status != PlanReleased
      && db.plans[p].target != db.plans[q].target
      ==> p.sources !! q.sources
  }

  lemma OwnedStays(db: Db, next: Db)
    requires SourcesOwned(db) && Frozen(db, next) && next.plans.Keys == db.plans.Keys
    requires forall p <- db.plans :: Live(next.plans[p]) ==> Live(db.plans[p])
    ensures SourcesOwned(next)
  {
  }

  /** The check found no other analysis, so no live plan of one uses any of the sources. */
  lemma NoOtherOwner(db: Db, analysis: AnalysisId, sources: seq<Source>, q: PlanId)
    requires SourcesUsed(db) && FinalsMatchPlans(db) && !ConfirmedElsewhere(db, analysis, sources)
    requires q in db.plans && Live(db.plans[q]) && db.plans[q].target != analysis
    ensures q.sources !! SourceIds(sources)
  {
    forall x | x in q.sources
      ensures x !in SourceIds(sources)
    {
      assert SourceUsed(db, q, x);
      var s :| s in q.segments && FinalSnapshot(q, s) in db.finals
               && db.finals[FinalSnapshot(q, s)].source == x;
      assert FinalMatchesPlan(db, FinalSnapshot(q, s));
    }
  }

  lemma CommitKeepsOwners(db: Db, next: Db, analysis: AnalysisId, sources: seq<Source>)
    requires SourcesOwned(db) && SourcesUsed(db) && FinalsMatchPlans(db) && Frozen(db, next)
    requires !ConfirmedElsewhere(db, analysis, sources)
    requires next.plans.Keys == db.plans.Keys + {PlanFor(db, sources)}
    requires forall p <- db.plans :: next.plans[p] == db.plans[p]
    requires next.plans[PlanFor(db, sources)].target == analysis
    ensures SourcesOwned(next)
  {
    forall q | q in db.plans && Live(db.plans[q]) && db.plans[q].target != analysis
      ensures q.sources !! SourceIds(sources)
    {
      NoOtherOwner(db, analysis, sources, q);
    }
  }

  lemma UnclaimedBefore(db: Db, limit: nat, req: Request)
    requires Path(db, limit, req).Fresh?
    ensures !ConfirmedElsewhere(db, req.analysis, Path(db, limit, req).sources)
  {
  }

  lemma ConfirmKeepsOwners(db: Db, limit: nat, req: Request)
    requires FinalsMatchPlans(db) && SourcesUsed(db) && SourcesOwned(db)
    ensures SourcesOwned(Confirm(db, limit, req).0)
  {
    if CommitsFresh(db, limit, req) {
      FreshCommitWrites(db, limit, req);
      ConfirmFreezes(db, limit, req);
      UnclaimedBefore(db, limit, req);
      CommitKeepsOwners(db, Confirm(db, limit, req).0, req.analysis, Path(db, limit, req).sources);
    } else {
      UncommittedChangesNothing(db, limit, req);
    }
  }

  lemma ReleaseKeepsOwners(db: Db, limit: nat, k: TargetKey, entire: bool)
    requires SourcesOwned(db)
    ensures SourcesOwned(Release(db, limit, k, entire).0)
  {
    ReleaseFreezes(db, limit, k, entire);
    ReleaseStepWrites(db, limit, k, entire);
    OwnedStays(db, Release(db, limit, k, entire).0);
  }

  lemma BindKeepsOwners(db: Db, run: RunId, items: seq<BindItem>)
    requires SourcesOwned(db)
    ensures SourcesOwned(BindRun(db, run, items).0)
  {
    BindFreezes(db, run, items);
    ConsumeAllRevivesNone(Bump(db), run, PendingItems(db, items));
    OwnedStays(db, BindRun(db, run, items).0);
  }

  lemma StepKeepsOwners(db: Db, limit: nat, step: Step)
    requires FinalsMatchPlans(db) && SourcesUsed(db) && SourcesOwned(db) && Permitted(db, limit, step)
    ensures SourcesOwned(Next(db, limit, step))
  {
    match step
    case ConfirmStep(req) => ConfirmKeepsOwners(db, limit, req);
    case ReleaseStep(k, entire) => ReleaseKeepsOwners(db, limit, k, entire);
    case BindStep(run, items) => BindKeepsOwners(db, run, items);
    case SurroundingStep(after) => OwnedStays(db, after);
  }

  lemma {:induction false} RunKeepsOwners(db: Db, limit: nat, steps: seq<Step>)
    requires Coherent(db) && Attributable(db) && SourcesOwned(db) && PermittedRun(db, limit, steps)
    ensures SourcesOwned(After(db, limit, steps))
  {
    if steps != [] {
      var front := steps[..|steps| - 1];
      RunKeepsOwners(db, limit, front);
      RunKeepsAttributable(db, limit, front);
      StepKeepsOwners(After(db, limit, front), limit, steps[|steps| - 1]);
    }
  }

  /**
   After every run from empty tables two plans that are not released share a source only if they are of
   the same analysis.
   */
  lemma OneAnalysisPerSource(limit: nat, steps: seq<Step>)
    requires PermittedRun(EMPTY_DB, limit, steps)
    ensures var db := After(EMPTY_DB, limit, steps);
            forall p <- db.plans, q <- db.plans, x <- p.sources ::
              && x in q.sources
              && db.plans[p].status != PlanReleased && db.plans[q].status != PlanReleased
              ==> db.plans[p].target == db.plans[q].target
  {
    InitiallyCoherent();
    RunKeepsOwners(EMPTY_DB, limit, steps);
  }
}
