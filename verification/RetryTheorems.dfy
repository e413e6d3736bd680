/** Repeating a committed confirmation answers from the stored plan until that plan is released. */
module RetryTheorems {
  import opened Wrappers
  import opened AudienceTables
  import opened WinnerSelection
  import opened AllocationProtocol
  import opened AllocationInvariant
  import opened ReleaseInvariant
  import opened ConfirmTheorems
  import opened CoherentInvariant
  import opened ReservationRuns

  /** Plans keep everything but their status, snapshots everything, bound targets their binding. */
  ghost predicate Frozen(db: Db, next: Db) {
    && PlansFrozen(db, next)
    && (forall f <- db.finals :: f in next.finals && next.finals[f] == db.finals[f])
    && (forall f <- db.members :: f in next.members && next.members[f] == db.members[f])
    && TargetsFrozen(db, next)
  }

  ghost predicate PlansFrozen(db: Db, next: Db) {
    forall p <- db.plans ::
      p in next.plans && next.plans[p] == db.plans[p].(status := next.plans[p].status)
  }

  ghost predicate TargetsFrozen(db: Db, next: Db) {
    forall k <- db.targets ::
      && k in next.targets
      && (db.targets[k].plan.Some? ==>
            && next.targets[k].plan == db.targets[k].plan
            && next.targets[k].snapshot == db.targets[k].snapshot)
  }

  lemma FrozenTransitive(a: Db, b: Db, c: Db)
    requires Frozen(a, b) && Frozen(b, c)
    ensures Frozen(a, c)
  {
  }

  lemma ConfirmFreezes(db: Db, limit: nat, req: Request)
    requires FinalsMatchPlans(db)
    ensures Frozen(db, Confirm(db, limit, req).0)
  {
    if CommitsFresh(db, limit, req) {
      FreshCommitWrites(db, limit, req);
      var path, next := Path(db, limit, req), Confirm(db, limit, req).0;
      WriteFreezes(db, Commit(db, req.analysis, req.minimum, path.batch, path.sources), next,
                   FreshWrite(db, limit, req));
    } else {
      UncommittedChangesNothing(db, limit, req);
    }
  }

  lemma WriteFreezes(db: Db, mid: Db, next: Db, c: Write)
    requires WroteTargets(db, mid, c) && WrotePlan(db, mid, c) && WroteFinals(db, mid, c)
    requires SameReservations(mid, next)
    ensures Frozen(db, next)
  {
  }

  lemma ReleaseFreezes(db: Db, limit: nat, k: TargetKey, entire: bool)
    ensures Frozen(db, Release(db, limit, k, entire).0)
  {
    ReleaseStepWrites(db, limit, k, entire);
    if Release(db, limit, k, entire).1.Done? {
      ReleaseWritesFreeze(db, k, entire);
    }
  }

  lemma ReleaseWritesFreeze(db: Db, k: TargetKey, entire: bool)
    requires k in db.targets && db.targets[k].plan.Some? && db.targets[k].plan.value in db.plans
    ensures Frozen(db, AfterRelease(db, k, entire))
  {
  }

  lemma {:induction false} ConsumeAllFreezes(db: Db, run: RunId, items: seq<BindItem>)
    ensures Frozen(db, ConsumeAll(db, run, items))
  {
    if items != [] {
      ConsumeAllFreezes(db, run, items[..|items| - 1]);
    }
  }

  lemma BindFreezes(db: Db, run: RunId, items: seq<BindItem>)
    ensures Frozen(db, BindRun(db, run, items).0)
  {
    ConsumeAllFreezes(Bump(db), run, PendingItems(db, items));
    FrozenTransitive(db, Bump(db), ConsumeAll(Bump(db), run, PendingItems(db, items)));
  }

  lemma {:induction false} RunFreezes(db: Db, limit: nat, steps: seq<Step>)
    requires Coherent(db) && PermittedRun(db, limit, steps)
    ensures Frozen(db, After(db, limit, steps))
  {
    if steps != [] {
      var front, last := steps[..|steps| - 1], steps[|steps| - 1];
      RunFreezes(db, limit, front);
      RunKeepsCoherent(db, limit, front);
      var mid := After(db, limit, front);
      StepFreezes(mid, limit, last);
      FrozenTransitive(db, mid, Next(mid, limit, last));
    }
  }

  lemma StepFreezes(db: Db, limit: nat, step: Step)
    requires FinalsMatchPlans(db) && Permitted(db, limit, step)
    ensures Frozen(db, Next(db, limit, step))
  {
    match step
    case ConfirmStep(req) => ConfirmFreezes(db, limit, req);
    case ReleaseStep(k, entire) => ReleaseFreezes(db, limit, k, entire);
    case BindStep(run, items) => BindFreezes(db, run, items);
    case SurroundingStep(_) =>
  }

  // ---------------------------------------------------------------------------
  // Which plans a retry can find
  // ---------------------------------------------------------------------------

  /** Each source of a plan is the source of one of its final snapshots. */
  ghost predicate SourceUsed(db: Db, p: PlanId, x: nat) {
    exists s <- p.segments ::
      FinalSnapshot(p, s) in db.finals && db.finals[FinalSnapshot(p, s)].source == x
  }

  ghost predicate SourcesUsed(db: Db) {
    forall p <- db.plans, x <- p.sources :: SourceUsed(db, p, x)
  }

  /** Two live plans of one confirmation with the same segments have no source in common. */
  ghost predicate LivePlansApart(db: Db) {
    forall p <- db.plans, q <- db.plans :: Rivals(db, p, q) ==> p.sources !! q.sources
  }

  ghost predicate Rivals(db: Db, p: PlanId, q: PlanId)
    requires p in db.plans && q in db.plans
  {
    && p != q && Live(db.plans[p]) && Live(db.plans[q])
    && db.plans[p].target == db.plans[q].target
    && db.plans[p].segments == db.plans[q].segments
  }

  ghost predicate Attributable(db: Db) {
    SourcesUsed(db) && LivePlansApart(db)
  }

  /** No plan comes alive again, so nothing but a confirmation can make rivals. */
  lemma AttributableStays(db: Db, next: Db)
    requires Attributable(db) && Frozen(db, next) && next.plans.Keys == db.plans.Keys
    requires forall p <- db.plans :: Live(next.plans[p]) ==> Live(db.plans[p])
    ensures Attributable(next)
  {
    forall p, x | p in next.plans && x in p.sources
      ensures SourceUsed(next, p, x)
    {
      UsedStays(db, next, p, x);
    }
    forall p, q | p in next.plans && q in next.plans && Rivals(next, p, q)
      ensures p.sources !! q.sources
    {
      assert Rivals(db, p, q);
    }
  }

  lemma UsedStays(db: Db, next: Db, p: PlanId, x: nat)
    requires SourceUsed(db, p, x)
    requires forall f <- db.finals :: f in next.finals && next.finals[f] == db.finals[f]
    ensures SourceUsed(next, p, x)
  {
  }

  /** The retry query found nothing, so no live rival of the new plan uses any of its sources. */
  lemma NoRivalShares(db: Db, analysis: AnalysisId, sources: seq<Source>, q: PlanId)
    requires SourcesUsed(db) && FinalsMatchPlans(db)
    requires Distinct(sources) && RetryRows(db, analysis, sources) == {}
    requires q in db.plans && Live(db.plans[q]) && db.plans[q].target == analysis
    requires db.plans[q].segments == SegmentsOf(sources)
    ensures q.sources !! SourceIds(sources)
  {
    forall x | x in q.sources
      ensures x !in SourceIds(sources)
    {
      assert SourceUsed(db, q, x);
      var s :| s in q.segments && FinalSnapshot(q, s) in db.finals
               && db.finals[FinalSnapshot(q, s)].source == x;
      var f := FinalSnapshot(q, s);
      assert FinalMatchesPlan(db, f);
      assert RetryRow(db, f, analysis, sources) <==> x in SourceIds(sources);
      assert f !in RetryRows(db, analysis, sources);
    }
  }

  lemma NewPlanUsesSources(db: Db, analysis: AnalysisId, minimum: int, batch: AnalysisId,
                           sources: seq<Source>, x: nat)
    requires Distinct(sources) && x in SourceIds(sources)
    ensures SourceUsed(Commit(db, analysis, minimum, batch, sources), PlanFor(db, sources), x)
  {
    var s :| s in sources && s.snapshot == x;
    assert s.segment in SegmentsOf(sources);
    SameSegmentSameSource(sources, SourceOf(sources, s.segment), s);
    CommitRows(db, analysis, minimum, batch, sources);
    var next, f := Commit(db, analysis, minimum, batch, sources),
                   FinalSnapshot(PlanFor(db, sources), s.segment);
    assert f in next.finals && AllocationFrom(next, f).source == x;
  }

  lemma ConfirmKeepsAttributable(db: Db, limit: nat, req: Request)
    requires FinalsMatchPlans(db) && Attributable(db)
    ensures Attributable(Confirm(db, limit, req).0)
  {
    if CommitsFresh(db, limit, req) {
      var path, next := Path(db, limit, req), Confirm(db, limit, req).0;
      FreshCommitWrites(db, limit, req);
      ConfirmFreezes(db, limit, req);
      var mid := Commit(db, req.analysis, req.minimum, path.batch, path.sources);
      forall x | x in SourceIds(path.sources)
        ensures SourceUsed(next, PlanFor(db, path.sources), x)
      {
        NewPlanUsesSources(db, req.analysis, req.minimum, path.batch, path.sources, x);
        UsedStays(mid, next, PlanFor(db, path.sources), x);
      }
      UnansweredBefore(db, limit, req);
      OnePlanMore(db, next, req.analysis, path.sources);
    } else {
      UncommittedChangesNothing(db, limit, req);
    }
  }

  lemma UnansweredBefore(db: Db, limit: nat, req: Request)
    requires Path(db, limit, req).Fresh?
    ensures RetryRows(db, req.analysis, Path(db, limit, req).sources) == {}
  {
  }

  lemma OnePlanMore(db: Db, next: Db, analysis: AnalysisId, sources: seq<Source>)
    requires FinalsMatchPlans(db) && Attributable(db) && Frozen(db, next)
    requires next.plans.Keys == db.plans.Keys + {PlanFor(db, sources)}
    requires forall p <- db.plans :: next.plans[p] == db.plans[p]
    requires next.plans[PlanFor(db, sources)].target == analysis
    requires next.plans[PlanFor(db, sources)].segments == SegmentsOf(sources)
    requires Distinct(sources) && RetryRows(db, analysis, sources) == {}
    requires forall x <- SourceIds(sources) :: SourceUsed(next, PlanFor(db, sources), x)
    ensures Attributable(next)
  {
    var plan := PlanFor(db, sources);
    forall p, x | p in next.plans && x in p.sources
      ensures SourceUsed(next, p, x)
    {
      if p in db.plans {
        UsedStays(db, next, p, x);
      }
    }
    forall p, q | p in next.plans && q in next.plans && Rivals(next, p, q)
      ensures p.sources !! q.sources
    {
      if p in db.plans && q in db.plans {
        assert Rivals(db, p, q);
      } else {
        NoRivalShares(db, analysis, sources, if p == plan then q else p);
      }
    }
  }

  lemma ReleaseKeepsAttributable(db: Db, limit: nat, k: TargetKey, entire: bool)
    requires Attributable(db)
    ensures Attributable(Release(db, limit, k, entire).0)
  {
    ReleaseFreezes(db, limit, k, entire);
    ReleaseStepWrites(db, limit, k, entire);
    AttributableStays(db, Release(db, limit, k, entire).0);
  }

  lemma {:induction false} ConsumeAllRevivesNone(db: Db, run: RunId, items: seq<BindItem>)
    ensures var next := ConsumeAll(db, run, items);
            && next.plans.Keys == db.plans.Keys
            && forall p <- db.plans :: Live(next.plans[p]) ==> Live(db.plans[p])
  {
    if items != [] {
      ConsumeAllRevivesNone(db, run, items[..|items| - 1]);
    }
  }

  lemma BindKeepsAttributable(db: Db, run: RunId, items: seq<BindItem>)
    requires Attributable(db)
    ensures Attributable(BindRun(db, run, items).0)
  {
    BindFreezes(db, run, items);
    ConsumeAllRevivesNone(Bump(db), run, PendingItems(db, items));
    AttributableStays(db, BindRun(db, run, items).0);
  }

  lemma StepKeepsAttributable(db: Db, limit: nat, step: Step)
    requires FinalsMatchPlans(db) && Attributable(db) && Permitted(db, limit, step)
    ensures Attributable(Next(db, limit, step))
  {
    match step
    case ConfirmStep(req) => ConfirmKeepsAttributable(db, limit, req);
    case ReleaseStep(k, entire) => ReleaseKeepsAttributable(db, limit, k, entire);
    case BindStep(run, items) => BindKeepsAttributable(db, run, items);
    case SurroundingStep(after) => AttributableStays(db, after);
  }

  lemma {:induction false} RunKeepsAttributable(db: Db, limit: nat, steps: seq<Step>)
    requires Coherent(db) && Attributable(db) && PermittedRun(db, limit, steps)
    ensures Coherent(After(db, limit, steps)) && Attributable(After(db, limit, steps))
  {
    RunKeepsCoherent(db, limit, steps);
    if steps != [] {
      var front := steps[..|steps| - 1];
      RunKeepsAttributable(db, limit, front);
      StepKeepsAttributable(After(db, limit, front), limit, steps[|steps| - 1]);
    }
  }

  // ---------------------------------------------------------------------------
  // The stored answer
  // ---------------------------------------------------------------------------

  ghost function FinalsOf(p: PlanId): set<SnapshotId> {
    set s | s in p.segments :: FinalSnapshot(p, s)
  }

  /** A live plan of the same request is the only one that the retry query can find. */
  lemma RetryFindsThePlan(db: Db, analysis: AnalysisId, sources: seq<Source>, p: PlanId)
    requires FinalsMatchPlans(db) && LivePlansApart(db) && p in db.plans && Live(db.plans[p])
    requires db.plans[p].target == analysis && db.plans[p].segments == p.segments
    requires p.segments == SegmentsOf(sources) && p.sources == SourceIds(sources)
    requires Distinct(sources)
    ensures RetryRows(db, analysis, sources) == FinalsOf(p)
  {
    forall f | f in FinalsOf(p)
      ensures RetryRow(db, f, analysis, sources)
    {
      assert FinalMatchesPlan(db, f);
    }
    forall f | f in RetryRows(db, analysis, sources)
      ensures f in FinalsOf(p)
    {
      assert FinalMatchesPlan(db, f);
      assert Rivals(db, f.plan, p) <==> f.plan != p;
    }
  }

  ghost function ExpectedAnswer(db: Db, p: PlanId): Confirmed
    requires p in db.plans
    requires forall s <- p.segments :: FinalSnapshot(p, s) in db.finals
  {
    Confirmed(db.plans[p].batch, p, db.plans[p].revision,
              map s | s in p.segments :: AllocationFrom(db, FinalSnapshot(p, s)))
  }

  lemma StoredAnswer(db: Db, p: PlanId)
    requires FinalsMatchPlans(db) && p in db.plans && p.segments != {}
    ensures FinalsOf(p) != {} && |FinalsOf(p)| == |p.segments|
    ensures RowsStored(db, FinalsOf(p))
    ensures forall s <- p.segments :: FinalSnapshot(p, s) in db.finals
    ensures StoredResult(db, FinalsOf(p)) == ExpectedAnswer(db, p)
  {
    var rows := FinalsOf(p);
    forall f | f in rows
      ensures f in db.finals && db.finals[f].plan == p && db.finals[f].segment == f.segment
    {
      assert FinalMatchesPlan(db, f);
    }
    FinalsCount(p, p.segments);
    var s :| s in p.segments;
    assert FinalSnapshot(p, s) in rows;
    AnswerFromRows(db, p, rows);
  }

  lemma AnswerFromRows(db: Db, p: PlanId, rows: set<SnapshotId>)
    requires p in db.plans && rows == FinalsOf(p) && rows != {}
    requires forall f <- rows ::
               f in db.finals && db.finals[f].plan == p && db.finals[f].segment == f.segment
    requires forall s <- p.segments :: FinalSnapshot(p, s) in db.finals
    ensures RowsStored(db, rows) && StoredResult(db, rows) == ExpectedAnswer(db, p)
  {
    forall s | s in p.segments
      ensures exists f <- rows :: db.finals[f].segment == s
      ensures RowFor(db, rows, s) == FinalSnapshot(p, s)
    {
      OnlyRowOfSegment(db, p, rows, s);
    }
    assert (set f | f in rows :: db.finals[f].segment) == p.segments;
  }

  lemma OnlyRowOfSegment(db: Db, p: PlanId, rows: set<SnapshotId>, s: SegmentId)
    requires rows == FinalsOf(p) && s in p.segments && RowsStored(db, rows)
    requires forall f <- rows :: db.finals[f].segment == f.segment
    ensures exists f <- rows :: db.finals[f].segment == s
    ensures RowFor(db, rows, s) == FinalSnapshot(p, s)
  {
    assert FinalSnapshot(p, s) in rows;
    assert db.finals[FinalSnapshot(p, s)].segment == s;
  }

  lemma {:induction false} FinalsCount(p: PlanId, segments: set<SegmentId>)
    ensures |set s | s in segments :: FinalSnapshot(p, s)| == |segments|
    decreases segments
  {
    var all := set s | s in segments :: FinalSnapshot(p, s);
    if segments != {} {
      var x :| x in segments;
      FinalsCount(p, segments - {x});
      var fewer := set s | s in segments - {x} :: FinalSnapshot(p, s);
      assert all == fewer + {FinalSnapshot(p, x)};
    } else {
      assert all == {};
    }
  }

  /** The checks that the first confirmation passed and that no later step can undo. */
  ghost predicate StillLoads(db: Db, limit: nat, req: Request, sources: seq<Source>) {
    var selected := Selected(req);
    && selected != {} && |selected| <= limit
    && LoadSources(db, selected, req.rows) == Done(sources)
    && |Batches(sources)| == 1
    && Distinct(sources)
  }

  lemma {:induction false} DistinctCount(sources: seq<Source>)
    requires Distinct(sources)
    ensures |SegmentsOf(sources)| == |sources|
  {
    if sources == [] {
      assert SegmentsOf(sources) == {};
    } else {
      var front, last := sources[..|sources| - 1], sources[|sources| - 1];
      DistinctCount(front);
      SegmentsOfSplit(front, last);
      assert sources == front + [last];
    }
  }

  lemma RetryAnswers(db: Db, limit: nat, req: Request, sources: seq<Source>, p: PlanId)
    requires FinalsMatchPlans(db) && PlansNumbered(db) && LivePlansApart(db)
    requires p in db.plans && Live(db.plans[p]) && db.plans[p].target == req.analysis
    requires p.segments == SegmentsOf(sources) && p.sources == SourceIds(sources)
    requires StillLoads(db, limit, req, sources)
    ensures forall s <- p.segments :: FinalSnapshot(p, s) in db.finals
    ensures Confirm(db, limit, req) == (db, Done(ExpectedAnswer(db, p)))
    ensures !ReachesLoad(db, limit, req)
  {
    StoredAnswer(db, p);
    RetryFindsThePlan(db, req.analysis, sources, p);
    DistinctCount(sources);
    RetryPath(db, limit, req, sources, FinalsOf(p));
  }

  lemma RetryPath(db: Db, limit: nat, req: Request, sources: seq<Source>, rows: set<SnapshotId>)
    requires StillLoads(db, limit, req, sources)
    requires RetryRows(db, req.analysis, sources) == rows != {} && |rows| == |sources|
    ensures RowsStored(db, rows)
    ensures Confirm(db, limit, req) == (db, Done(StoredResult(db, rows)))
    ensures !ReachesLoad(db, limit, req)
  {
    assert LoadedPath(db, req.analysis, Selected(req), sources)
        == Retry(StoredResult(db, rows));
  }

  lemma FreshLoads(db: Db, limit: nat, req: Request)
    requires Path(db, limit, req).Fresh?
    ensures StillLoads(db, limit, req, Path(db, limit, req).sources)
  {
  }

  /** Source snapshots are immutable, so the load succeeds with the same rows later on. */
  lemma LoadStays(db: Db, next: Db, selected: set<SegmentId>, rows: seq<SourceRow>)
    requires LoadSources(db, selected, rows).Done?
    requires forall row :: row in rows ==> SourceSnapshot(row.snapshot) in db.members
    requires forall f <- db.members :: f in next.members && next.members[f] == db.members[f]
    ensures LoadSources(next, selected, rows) == LoadSources(db, selected, rows)
  {
  }

  lemma FreshRowsStored(db: Db, limit: nat, req: Request)
    requires Path(db, limit, req).Fresh?
    ensures forall row :: row in req.rows ==> SourceSnapshot(row.snapshot) in db.members
  {
    var sources := Path(db, limit, req).sources;
    FreshPathReady(db, limit, req);
    FreshLoads(db, limit, req);
    forall row | row in req.rows
      ensures SourceSnapshot(row.snapshot) in db.members
    {
      var s := LoadedRow(db, Selected(req), req.rows, sources, row);
      WinningSourceStored(db, sources, s);
    }
  }

  lemma LoadedRow(db: Db, selected: set<SegmentId>, rows: seq<SourceRow>, sources: seq<Source>,
                  row: SourceRow) returns (s: Source)
    requires LoadSources(db, selected, rows) == Done(sources) && row in rows
    ensures s in sources && s.snapshot == row.snapshot
  {
    var i :| 0 <= i < |rows| && rows[i] == row;
    assert ParseRow(rows[i]) == Done(sources[i]);
    s := sources[i];
  }

  lemma WinningSourceStored(db: Db, sources: seq<Source>, s: Source)
    requires Ready(db, sources) && s in sources
    ensures SourceSnapshot(s.snapshot) in db.members
  {
    assert s.segment in SegmentsOf(sources);
    var u :| u in SegmentUsers(Winners(db, sources), s.segment);
    SameSegmentSameSource(sources, Winners(db, sources)[u], s);
  }

  lemma CommitStoresAnswer(db: Db, limit: nat, req: Request)
    requires FinalsMatchPlans(db) && CommitsFresh(db, limit, req)
    ensures var next, p := Confirm(db, limit, req).0, FreshWrite(db, limit, req).plan;
            && p in next.plans
            && next.plans[p].target == req.analysis
            && (forall s <- p.segments :: FinalSnapshot(p, s) in next.finals)
            && Confirm(db, limit, req).1 == Done(ExpectedAnswer(next, p))
  {
    FreshCommitWrites(db, limit, req);
    var path := Path(db, limit, req);
    CommitAnswers(db, req.analysis, req.minimum, path.batch, path.sources);
    AnswerFrozen(Commit(db, req.analysis, req.minimum, path.batch, path.sources),
                 Confirm(db, limit, req).0, PlanFor(db, path.sources));
  }

  lemma CommitAnswers(db: Db, analysis: AnalysisId, minimum: int, batch: AnalysisId,
                      sources: seq<Source>)
    ensures var next, p := Commit(db, analysis, minimum, batch, sources), PlanFor(db, sources);
            && p in next.plans && next.plans[p].target == analysis
            && (forall s <- p.segments :: FinalSnapshot(p, s) in next.finals)
            && CommitResult(db, minimum, batch, sources) == ExpectedAnswer(next, p)
  {
    CommitRows(db, analysis, minimum, batch, sources);
    CommitResultRows(db, minimum, batch, sources);
    AnswerByParts(Commit(db, analysis, minimum, batch, sources), PlanFor(db, sources),
                  CommitResult(db, minimum, batch, sources));
  }

  lemma CommitResultRows(db: Db, minimum: int, batch: AnalysisId, sources: seq<Source>)
    ensures var r, p := CommitResult(db, minimum, batch, sources), PlanFor(db, sources);
            && r.batch == batch && r.plan == p && r.revision == db.revision + 1
            && r.allocations.Keys == p.segments
            && (forall s <- p.segments ::
                  var n := |SegmentUsers(Winners(db, sources), s)|;
                  r.allocations[s]
                  == Allocation(SourceOf(sources, s).snapshot, FinalSnapshot(p, s), n,
                                n >= minimum, StatusFor(n, minimum)))
  {
  }

  lemma AnswerByParts(next: Db, p: PlanId, r: Confirmed)
    requires p in next.plans && forall s <- p.segments :: FinalSnapshot(p, s) in next.finals
    requires r.batch == next.plans[p].batch && r.plan == p
    requires r.revision == next.plans[p].revision && r.allocations.Keys == p.segments
    requires forall s <- p.segments ::
               r.allocations[s] == AllocationFrom(next, FinalSnapshot(p, s))
    ensures r == ExpectedAnswer(next, p)
  {
    assert r.allocations == ExpectedAnswer(next, p).allocations;
  }

  lemma CommitRows(db: Db, analysis: AnalysisId, minimum: int, batch: AnalysisId,
                   sources: seq<Source>)
    ensures var next, p := Commit(db, analysis, minimum, batch, sources), PlanFor(db, sources);
            && p in next.plans && next.plans[p].batch == batch && next.plans[p].target == analysis
            && next.plans[p].revision == db.revision + 1
            && (forall s <- p.segments ::
                  && FinalSnapshot(p, s) in next.finals
                  && var n := |SegmentUsers(Winners(db, sources), s)|;
                     AllocationFrom(next, FinalSnapshot(p, s))
                     == Allocation(SourceOf(sources, s).snapshot, FinalSnapshot(p, s), n,
                                   n >= minimum, StatusFor(n, minimum)))
  {
  }

  lemma AnswerFrozen(db: Db, next: Db, p: PlanId)
    requires Frozen(db, next) && p in db.plans
    requires forall s <- p.segments :: FinalSnapshot(p, s) in db.finals
    ensures p in next.plans && (forall s <- p.segments :: FinalSnapshot(p, s) in next.finals)
    ensures ExpectedAnswer(next, p) == ExpectedAnswer(db, p)
  {
  }

  /** `RepeatedConfirmation` from any tables that a run can reach. */
  lemma RepeatedFrom(db: Db, limit: nat, req: Request, steps: seq<Step>)
    requires Coherent(db) && Attributable(db) && CommitsFresh(db, limit, req)
    requires PermittedRun(Confirm(db, limit, req).0, limit, steps)
    ensures var later := After(Confirm(db, limit, req).0, limit, steps);
            var plan := FreshWrite(db, limit, req).plan;
            && plan in later.plans
            && (Live(later.plans[plan]) ==>
                  && Confirm(later, limit, req) == (later, Confirm(db, limit, req).1)
                  && !ReachesLoad(later, limit, req))
  {
    var next, p := Confirm(db, limit, req).0, FreshWrite(db, limit, req).plan;
    var later, sources := After(next, limit, steps), Path(db, limit, req).sources;
    ConfirmStepKeepsCoherent(db, limit, req);
    ConfirmKeepsAttributable(db, limit, req);
    RunKeepsAttributable(next, limit, steps);
    CommitStoresAnswer(db, limit, req);
    RunFreezes(next, limit, steps);
    AnswerFrozen(next, later, p);
    if Live(later.plans[p]) {
      LoadsLater(db, later, limit, req, next, sources);
      RetryAnswers(later, limit, req, sources, p);
    }
  }

  lemma LoadsLater(db: Db, later: Db, limit: nat, req: Request, next: Db, sources: seq<Source>)
    requires FinalsMatchPlans(db) && Path(db, limit, req).Fresh?
    requires sources == Path(db, limit, req).sources
    requires next == Confirm(db, limit, req).0 && Frozen(next, later)
    ensures StillLoads(later, limit, req, sources)
  {
    ConfirmFreezes(db, limit, req);
    FrozenTransitive(db, next, later);
    FreshLoads(db, limit, req);
    FreshRowsStored(db, limit, req);
    LoadStays(db, later, Selected(req), req.rows);
  }

  /**
   A confirmation that committed is idempotent: whatever was done before it and whatever is done
   after it, while its plan is not released the same call returns the same plan, snapshots,
   counts and revision, changes no table and does not even load the exclusion context.
   */
  lemma RepeatedConfirmation(limit: nat, before: seq<Step>, req: Request, steps: seq<Step>)
    requires PermittedRun(EMPTY_DB, limit, before)
    requires var db := After(EMPTY_DB, limit, before);
             && CommitsFresh(db, limit, req)
             && PermittedRun(Confirm(db, limit, req).0, limit, steps)
    ensures var db := After(EMPTY_DB, limit, before);
            var later := After(Confirm(db, limit, req).0, limit, steps);
            var plan := FreshWrite(db, limit, req).plan;
            && plan in later.plans
            && (Live(later.plans[plan]) ==>
                  && Confirm(later, limit, req) == (later, Confirm(db, limit, req).1)
                  && !ReachesLoad(later, limit, req))
  {
    InitiallyCoherent();
    RunKeepsAttributable(EMPTY_DB, limit, before);
    RepeatedFrom(After(EMPTY_DB, limit, before), limit, req, steps);
  }
}
