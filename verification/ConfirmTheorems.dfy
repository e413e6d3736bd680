/** What a committed confirmation guarantees, and exactly when. */
module ConfirmTheorems {
  import opened Wrappers
  import opened AudienceTables
  import opened SetSizes
  import opened WinnerSelection
  import opened AllocationProtocol
  import opened AllocationInvariant

  /** The call committed a new plan: it neither raised nor answered from a stored plan. */
  ghost predicate CommitsFresh(db: Db, limit: nat, req: Request) {
    Path(db, limit, req).Fresh? && Confirm(db, limit, req).1.Done?
  }

  ghost function FreshWrite(db: Db, limit: nat, req: Request): Write
    requires Path(db, limit, req).Fresh?
  {
    WriteFor(db, req.analysis, Path(db, limit, req).sources)
  }

  /** In a serial run the conflict branch and the key violation are unreachable. */
  lemma NoConflictInSerialRuns(db: Db, limit: nat, req: Request)
    requires Inv(db)
    ensures Confirm(db, limit, req).1 != Raised(ExclusionConflict)
    ensures forall sources :: PlanFor(db, sources) !in db.plans
  {
    forall sources
      ensures PlanFor(db, sources) !in db.plans
    {
      PlanIsNew(db, sources);
    }
    match Path(db, limit, req)
    case Rejected(_) =>
      RejectionsAreNotConflicts(db, limit, req);
    case Retry(_) =>
    case Fresh(batch, sources) =>
      FreshPathReady(db, limit, req);
      FreshNeverRefused(db, limit, req.analysis, req.minimum, batch, sources);
      FreshIsActed(db, limit, req);
  }

  /** The winner's row is live and joins no target: neither excluded nor open to the upsert. */
  predicate Orphaned(db: Db, u: UserId) {
    u in db.ledger && db.ledger[u].state != Released && !Joined(db, db.ledger[u])
  }

  lemma RefusedIff(db: Db, ready: Db, c: Write)
    requires RowsNamePlans(db) && c.plan !in db.plans
    requires WroteTargets(db, ready, c) && RunsSame(db, ready) && ready.ledger == db.ledger
    requires forall u <- c.w :: !Excluded(db, u)
    ensures Refused(ready, c.w) <==> exists u <- c.w :: Orphaned(db, u)
  {
    forall u | u in c.w
      ensures Upsertable(ready, u) <==> !Orphaned(db, u)
    {
      if u in db.ledger {
        OldRowJoinsIff(db, ready, c, db.ledger[u]);
      }
    }
  }

  lemma FinishNeverConflicts<R>(before: Db, after: Db, limit: nat, batch: AnalysisId,
                                exclude: set<SegmentId>, result: R)
    ensures Finish(before, after, limit, batch, exclude, result).1 != Raised(ExclusionConflict)
  {
  }

  lemma RefusalIsTheConflict(db: Db, limit: nat, analysis: AnalysisId, minimum: int,
                             batch: AnalysisId, sources: seq<Source>)
    ensures ConfirmFresh(db, limit, analysis, minimum, batch, sources).1 == Raised(ExclusionConflict)
       <==> Refused(BeforeReserve(db, analysis, minimum, batch, sources), Winners(db, sources))
  {
    FinishNeverConflicts(db, Commit(db, analysis, minimum, batch, sources), limit, batch,
                         SegmentsOf(sources), CommitResult(db, minimum, batch, sources));
  }

  lemma FreshConflictIff(db: Db, limit: nat, analysis: AnalysisId, minimum: int, batch: AnalysisId,
                         sources: seq<Source>)
    requires RowsNamePlans(db) && Ready(db, sources)
    ensures var r := ConfirmFresh(db, limit, analysis, minimum, batch, sources);
            r.1 == Raised(ExclusionConflict)
            <==> exists u <- Winners(db, sources) :: Orphaned(db, u)
  {
    var ready := BeforeReserve(db, analysis, minimum, batch, sources);
    var c := WriteFor(db, analysis, sources);
    BeforeReserveTargets(db, analysis, minimum, batch, sources);
    BeforeReservePlan(db, analysis, minimum, batch, sources);
    WinnersOfReady(db, analysis, sources);
    assert ready.ledger == db.ledger;
    RefusedIff(db, ready, c);
    RefusalIsTheConflict(db, limit, analysis, minimum, batch, sources);
  }

  /**
   On any reachable tables the reservation raises the conflict error exactly when the confirmation
   gets as far as its writes and one of its winners holds a live row that joins no target.
   */
  lemma ConflictIff(db: Db, limit: nat, req: Request)
    requires Coherent(db)
    ensures Confirm(db, limit, req).1 == Raised(ExclusionConflict)
       <==> && Path(db, limit, req).Fresh?
            && exists u <- Winners(db, Path(db, limit, req).sources) :: Orphaned(db, u)
  {
    match Path(db, limit, req)
    case Rejected(_) => RejectionsAreNotConflicts(db, limit, req);
    case Retry(_) =>
    case Fresh(batch, sources) =>
      FreshPathReady(db, limit, req);
      FreshConflictIff(db, limit, req.analysis, req.minimum, batch, sources);
      FreshIsActed(db, limit, req);
  }

  lemma FreshIsActed(db: Db, limit: nat, req: Request)
    requires Path(db, limit, req).Fresh?
    ensures var path := Path(db, limit, req);
            Confirm(db, limit, req)
            == ConfirmFresh(db, limit, req.analysis, req.minimum, path.batch, path.sources)
  {
  }

  lemma FreshNeverRefused(db: Db, limit: nat, analysis: AnalysisId, minimum: int,
                          batch: AnalysisId, sources: seq<Source>)
    requires Inv(db) && Ready(db, sources)
    ensures var r := ConfirmFresh(db, limit, analysis, minimum, batch, sources);
            var committed := Commit(db, analysis, minimum, batch, sources);
            var candidates := Candidates(committed, batch, SegmentsOf(sources));
            if |candidates| > limit then r == (db, Raised(CandidateLimitExceeded))
            else if !Distinct(candidates) then r == (db, Raised(DuplicateKey))
            else
              && r.1 == Done(CommitResult(db, minimum, batch, sources))
              && SameReservations(committed, r.0)
  {
    CommitWrites(db, analysis, minimum, batch, sources);
    FinishCommits(db, Commit(db, analysis, minimum, batch, sources), limit, batch,
                  SegmentsOf(sources), CommitResult(db, minimum, batch, sources));
  }

  lemma PlanIsNew(db: Db, sources: seq<Source>)
    requires PlansComplete(db)
    ensures PlanFor(db, sources) !in db.plans
  {
    forall p | p in db.plans
      ensures p.revision < db.revision
    {
      assert PlanComplete(db, p);
    }
  }

  lemma RejectionsAreNotConflicts(db: Db, limit: nat, req: Request)
    ensures Path(db, limit, req) != Rejected(ExclusionConflict)
  {
    var selected := Selected(req);
    var loaded := LoadSources(db, selected, req.rows);
    LoadErrors(db, selected, req.rows);
  }

  lemma LoadErrors(db: Db, selected: set<SegmentId>, rows: seq<SourceRow>)
    ensures var r := LoadSources(db, selected, rows);
            r.Raised? ==> r.error in {BindingInvalid, SnapshotBindingRequired}
  {
    ParseErrors(rows);
  }

  lemma {:induction false} ParseErrors(rows: seq<SourceRow>)
    ensures ParseRows(rows).Raised? ==> ParseRows(rows).error == BindingInvalid
  {
    if rows != [] {
      ParseErrors(rows[..|rows| - 1]);
    }
  }

  lemma FreshCommitWrites(db: Db, limit: nat, req: Request)
    requires FinalsMatchPlans(db) && CommitsFresh(db, limit, req)
    ensures var path := Path(db, limit, req);
            && Ready(db, path.sources)
            && SegmentsOf(path.sources) == Selected(req)
            && Wrote(db, Commit(db, req.analysis, req.minimum, path.batch, path.sources),
                     FreshWrite(db, limit, req))
            && SameReservations(Commit(db, req.analysis, req.minimum, path.batch, path.sources),
                                Confirm(db, limit, req).0)
            && Confirm(db, limit, req).1
               == Done(CommitResult(db, req.minimum, path.batch, path.sources))
  {
    var path := Path(db, limit, req);
    FreshPathReady(db, limit, req);
    FreshIsActed(db, limit, req);
    UnrefusedCommitWrites(db, req.analysis, req.minimum, path.batch, path.sources);
    FinishCommits(db, Commit(db, req.analysis, req.minimum, path.batch, path.sources), limit, path.batch,
                  SegmentsOf(path.sources), CommitResult(db, req.minimum, path.batch, path.sources));
  }

  lemma FinishCommits<R>(before: Db, after: Db, limit: nat, batch: AnalysisId,
                         exclude: set<SegmentId>, result: R)
    ensures var r := Finish(before, after, limit, batch, exclude, result);
            var candidates := Candidates(after, batch, exclude);
            if |candidates| > limit then r == (before, Raised(CandidateLimitExceeded))
            else if !Distinct(candidates) then r == (before, Raised(DuplicateKey))
            else
              r.1 == Done(result) && SameReservations(after, r.0)
  {
  }

  /**
   A committed confirmation keeps every invariant of the ledger exactly when each selected
   target row could be bound: it is absent with a known segment, or present and untouched.
   */
  lemma ConfirmKeepsInvIff(db: Db, limit: nat, req: Request)
    requires Inv(db) && CommitsFresh(db, limit, req)
    ensures Inv(Confirm(db, limit, req).0)
       <==> AllBindable(db, req.analysis, Selected(req))
  {
    FreshCommitWrites(db, limit, req);
    var path, c := Path(db, limit, req), FreshWrite(db, limit, req);
    var next := Commit(db, req.analysis, req.minimum, path.batch, path.sources);
    InvIgnoresPreviews(next, Confirm(db, limit, req).0);
    if AllBindable(db, req.analysis, c.segments) {
      WroteKeepsInv(db, next, c);
    } else {
      var s :| s in c.segments && !Bindable(db, req.analysis, s);
      UnbindableBreaksInv(db, next, c, s);
    }
  }

  // ---------------------------------------------------------------------------
  // Protection of the allocated users
  // ---------------------------------------------------------------------------

  /** The row can be bound and its target is not already stopped. */
  predicate Secured(db: Db, analysis: AnalysisId, segment: SegmentId) {
    var k := TargetKey(analysis, segment);
    Bindable(db, analysis, segment) && (k in db.targets ==> !db.targets[k].stopped)
  }

  lemma WinnerExcludedIff(db: Db, next: Db, c: Write, u: UserId)
    requires TargetsWellBound(db) && BindingsJoin(db)
    requires WroteTargets(db, next, c) && WrotePlan(db, next, c) && WroteLedger(db, next, c)
    requires RunsSame(db, next) && u in c.w
    ensures Excluded(next, u) <==> Secured(db, c.analysis, c.w[u].segment)
  {
    var k := TargetKey(c.analysis, c.w[u].segment);
    if k in db.targets && !db.targets[k].Unbound() {
      WroteTargetOnce(db, next, c, k);
      assert BoundToPlan(db, k);
    } else {
      assert k !in db.bindings;
    }
  }

  /** A row of a stored plan joins its target after the writes exactly when it did before. */
  lemma OldRowJoinsIff(db: Db, next: Db, c: Write, row: LedgerRow)
    requires WroteTargets(db, next, c) && RunsSame(db, next)
    requires row.plan in db.plans && c.plan !in db.plans
    ensures Joined(next, row) == Joined(db, row)
    ensures Joined(db, row) ==> TargetActive(next, row.target) == TargetActive(db, row.target)
  {
    if Joined(db, row) {
      WroteTargetOnce(db, next, c, row.target);
      ActivitySame(db, next, row.target);
    }
  }

  lemma OthersStayExcluded(db: Db, next: Db, c: Write, u: UserId)
    requires RowsNamePlans(db) && c.plan !in db.plans
    requires WroteTargets(db, next, c) && WroteLedger(db, next, c)
    requires RunsSame(db, next) && u in db.ledger && u !in c.w
    ensures u in next.ledger && Excluded(next, u) == Excluded(db, u)
  {
    OldRowJoinsIff(db, next, c, db.ledger[u]);
  }

  ghost function SecuredWinners(db: Db, c: Write): set<UserId> {
    set u | u in c.w && Secured(db, c.analysis, c.w[u].segment)
  }

  lemma ActiveAfterConfirm(db: Db, next: Db, c: Write)
    requires TargetsWellBound(db) && BindingsJoin(db) && RowsNamePlans(db) && Wrote(db, next, c)
    ensures ActiveUsers(next) == ActiveUsers(db) + SecuredWinners(db, c)
    ensures ActiveUsers(db) !! c.w.Keys
  {
    forall u | u in next.ledger
      ensures Excluded(next, u) <==> u in ActiveUsers(db) + SecuredWinners(db, c)
    {
      UserAfterConfirm(db, next, c, u);
    }
    LedgerGrew(db, next, c);
  }

  lemma UserAfterConfirm(db: Db, next: Db, c: Write, u: UserId)
    requires TargetsWellBound(db) && BindingsJoin(db) && RowsNamePlans(db)
    requires WroteTargets(db, next, c) && WrotePlan(db, next, c) && WroteLedger(db, next, c)
    requires RunsSame(db, next) && u in next.ledger
    ensures Excluded(next, u) <==> u in ActiveUsers(db) + SecuredWinners(db, c)
  {
    if u in c.w {
      WinnerExcludedIff(db, next, c, u);
    } else {
      OthersStayExcluded(db, next, c, u);
    }
  }

  lemma LedgerGrew(db: Db, next: Db, c: Write)
    requires WroteLedger(db, next, c)
    ensures ActiveUsers(db) + SecuredWinners(db, c) <= next.ledger.Keys
    ensures ActiveUsers(db) !! c.w.Keys
  {
  }

  /** The context that a confirmation predicts for the next reader. */
  ghost function PredictedContext(db: Db, w: map<UserId, Source>): Context {
    Context(db.revision + 1, |ActiveUsers(db)| + |w|)
  }

  lemma PredictionIff(db: Db, next: Db, c: Write)
    requires TargetsWellBound(db) && BindingsJoin(db) && RowsNamePlans(db) && Wrote(db, next, c)
    ensures PredictedContext(db, c.w) == Reload(next) <==> SecuredWinners(db, c) == c.w.Keys
  {
    ActiveAfterConfirm(db, next, c);
    SecuredAreWinners(db, c);
    SizesAgreeIff(ActiveUsers(db), SecuredWinners(db, c), c.w.Keys);
    KeysSize(c.w);
  }

  lemma KeysSize<K, V>(m: map<K, V>)
    ensures |m| == |m.Keys|
  {
  }

  lemma SizesAgreeIff(active: set<UserId>, secured: set<UserId>, all: set<UserId>)
    requires secured <= all && active !! all
    ensures |active + secured| == |active| + |all| <==> secured == all
  {
    UnionSize(active, secured, all);
    SubsetSize(secured, all);
  }

  lemma SecuredAreWinners(db: Db, c: Write)
    ensures SecuredWinners(db, c) <= c.w.Keys
  {
  }

  lemma AllSecuredIff(db: Db, next: Db, c: Write)
    requires WroteFinals(db, next, c) && WroteLedger(db, next, c)
    ensures SecuredWinners(db, c) == c.w.Keys
       <==> forall s <- c.segments :: Secured(db, c.analysis, s)
  {
    if SecuredWinners(db, c) == c.w.Keys {
      forall s | s in c.segments
        ensures Secured(db, c.analysis, s)
      {
        assert NewFinal(next, FinalSnapshot(c.plan, s), c);
        var u :| u in SegmentUsers(c.w, s);
        assert u in SecuredWinners(db, c);
      }
    }
  }

  /**
   After a committed confirmation every allocated user is excluded from later ones, and the
   predicted context is what a reload computes, exactly when every selected target is secured.
   */
  lemma ConfirmProtectsIff(db: Db, limit: nat, req: Request)
    requires Coherent(db) && CommitsFresh(db, limit, req)
    ensures var next, w := Confirm(db, limit, req).0, FreshWrite(db, limit, req).w;
            var secured := forall s <- Selected(req) :: Secured(db, req.analysis, s);
            && ((forall u <- w :: Excluded(next, u)) <==> secured)
            && (PredictedContext(db, w) == Reload(next) <==> secured)
  {
    FreshCommitWrites(db, limit, req);
    var path, c := Path(db, limit, req), FreshWrite(db, limit, req);
    var mid := Commit(db, req.analysis, req.minimum, path.batch, path.sources);
    var next := Confirm(db, limit, req).0;
    ExclusionIgnoresPreviews(mid, next);
    PredictionIff(db, mid, c);
    AllSecuredIff(db, mid, c);
    forall u | u in c.w
      ensures Excluded(mid, u) <==> u in SecuredWinners(db, c)
    {
      WinnerExcludedIff(db, mid, c, u);
    }
  }

  lemma ExclusionIgnoresPreviews(a: Db, b: Db)
    requires SameReservations(a, b)
    ensures forall u :: Excluded(a, u) == Excluded(b, u)
    ensures Reload(a) == Reload(b)
  {
    assert ActiveUsers(a) == ActiveUsers(b);
  }

  // ---------------------------------------------------------------------------
  // Conservation: reserved rows, winners and final snapshots
  // ---------------------------------------------------------------------------

  function FinalCount(db: Db, plan: PlanId, sources: seq<Source>): nat {
    if sources == [] then 0
    else
      var front, f := sources[..|sources| - 1],
                      FinalSnapshot(plan, sources[|sources| - 1].segment);
      FinalCount(db, plan, front) + (if f in db.finals then db.finals[f].userCount else 0)
  }

  lemma {:induction false} FinalCountIsTotal(next: Db, c: Write, sources: seq<Source>)
    requires forall s <- c.segments :: NewFinal(next, FinalSnapshot(c.plan, s), c)
    requires SegmentsOf(sources) <= c.segments
    ensures FinalCount(next, c.plan, sources) == TotalOver(c.w, sources)
  {
    if sources != [] {
      var front, last := sources[..|sources| - 1], sources[|sources| - 1];
      assert sources == front + [last];
      SegmentsOfSplit(front, last);
      FinalCountIsTotal(next, c, front);
      assert last.segment in c.segments;
      assert NewFinal(next, FinalSnapshot(c.plan, last.segment), c);
    }
  }

  /** Ledger rows reserved by the plan, its winners and its final snapshots count the same users. */
  lemma ConfirmConservesUsers(db: Db, limit: nat, req: Request)
    requires Coherent(db) && CommitsFresh(db, limit, req)
    ensures var next, c := Confirm(db, limit, req).0, FreshWrite(db, limit, req);
            && PlanRows(next, c.plan, None, Reserved) == c.w.Keys
            && FinalCount(next, c.plan, Path(db, limit, req).sources) == |c.w|
            && forall s <- c.segments ::
                 MembersOf(next, FinalSnapshot(c.plan, s)).Keys
                 == RowsOf(next, c.plan, TargetKey(req.analysis, s))
  {
    FreshCommitWrites(db, limit, req);
    var path, c := Path(db, limit, req), FreshWrite(db, limit, req);
    var next := Commit(db, req.analysis, req.minimum, path.batch, path.sources);
    WinnersPartitionThePool(db, path.sources);
    FinalCountIsTotal(next, c, path.sources);
    assert |c.w| == |c.w.Keys|;
    NewPlanRows(db, next, c);
    forall s | s in c.segments
      ensures MembersOf(next, FinalSnapshot(c.plan, s)).Keys
           == RowsOf(next, c.plan, TargetKey(c.analysis, s))
    {
      NewTargetRows(db, next, c, s);
    }
    FinalCountIgnoresPreviews(next, Confirm(db, limit, req).0, c.plan, path.sources);
  }

  lemma {:induction false} FinalCountIgnoresPreviews(a: Db, b: Db, plan: PlanId,
                                                     sources: seq<Source>)
    requires SameReservations(a, b)
    ensures FinalCount(a, plan, sources) == FinalCount(b, plan, sources)
  {
    if sources != [] {
      FinalCountIgnoresPreviews(a, b, plan, sources[..|sources| - 1]);
    }
  }

  lemma NewPlanRows(db: Db, next: Db, c: Write)
    requires RowsNamePlans(db) && c.plan !in db.plans && WroteLedger(db, next, c)
    ensures PlanRows(next, c.plan, None, Reserved) == c.w.Keys
  {
    OnlyWinnersNamePlan(db, next, c);
  }

  lemma NewTargetRows(db: Db, next: Db, c: Write, s: SegmentId)
    requires RowsNamePlans(db) && c.plan !in db.plans && WroteLedger(db, next, c)
    requires NewFinal(next, FinalSnapshot(c.plan, s), c)
    ensures MembersOf(next, FinalSnapshot(c.plan, s)).Keys
         == RowsOf(next, c.plan, TargetKey(c.analysis, s))
  {
    OnlyWinnersNamePlan(db, next, c);
    SegmentRowsMatch(next, c, s);
  }

  /** The ledger rows that name one target of a plan. */
  function RowsOf(db: Db, plan: PlanId, k: TargetKey): set<UserId> {
    set u | u in db.ledger && db.ledger[u].plan == plan && db.ledger[u].target == k
  }

  lemma SegmentRowsMatch(next: Db, c: Write, s: SegmentId)
    requires forall u <- next.ledger :: next.ledger[u].plan == c.plan <==> u in c.w
    requires c.w.Keys <= next.ledger.Keys
    requires forall u <- c.w ::
               next.ledger[u] == ReservedRow(c.analysis, c.w[u].segment, c.plan, next.revision)
    requires NewFinal(next, FinalSnapshot(c.plan, s), c)
    ensures MembersOf(next, FinalSnapshot(c.plan, s)).Keys
         == RowsOf(next, c.plan, TargetKey(c.analysis, s))
  {
    assert SegmentUsers(c.w, s) == RowsOf(next, c.plan, TargetKey(c.analysis, s));
  }

  lemma OnlyWinnersNamePlan(db: Db, next: Db, c: Write)
    requires RowsNamePlans(db) && c.plan !in db.plans && WroteLedger(db, next, c)
    ensures forall u <- next.ledger :: next.ledger[u].plan == c.plan <==> u in c.w
  {
    forall u | u in next.ledger
      ensures next.ledger[u].plan == c.plan <==> u in c.w
    {
    }
  }
}
