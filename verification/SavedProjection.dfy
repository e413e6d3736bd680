/**
 The projection when target rows are saved in between: what it still satisfies after every mix of
 transactions, loads and saves, and exactly when a load is exact all the same.
 */
module SavedProjection {
  import opened Wrappers
  import opened AudienceTables
  import opened SetSizes
  import opened AllocationProtocol
  import opened AllocationInvariant
  import opened CoherentInvariant
  import opened ReservationRuns
  import opened ProjectionProtocol
  import opened ExclusionProjection
  import opened TargetUpserts

  // ---------------------------------------------------------------------------
  // Every mix of transactions, loads and saves
  // ---------------------------------------------------------------------------

  datatype WholeStep = Move(step: SystemStep) | Save(target: TargetKey, plan: Option<PlanId>)

  ghost function WholeNext(s: System, limit: nat, step: WholeStep): System {
    match step
    case Move(inner) => SystemNext(s, limit, inner)
    case Save(k, plan) => s.(db := SaveTarget(s.db, k, plan))
  }

  /** A save is of an allocation that a confirmation returned, or of none. */
  ghost predicate WholePermitted(s: System, limit: nat, step: WholeStep) {
    match step
    case Move(inner) => SystemPermitted(s, limit, inner)
    case Save(k, plan) => plan.Some? ==> Allocated(s.db, k, plan.value)
  }

  ghost function WholeAfter(s: System, limit: nat, steps: seq<WholeStep>): System {
    if steps == [] then s
    else WholeNext(WholeAfter(s, limit, steps[..|steps| - 1]), limit, steps[|steps| - 1])
  }

  ghost predicate WholeRun(s: System, limit: nat, steps: seq<WholeStep>) {
    steps == [] || (WholeRun(s, limit, steps[..|steps| - 1])
                    && WholePermitted(WholeAfter(s, limit, steps[..|steps| - 1]), limit,
                                      steps[|steps| - 1]))
  }

  /** What no save can spoil: a projected row newer than the ledger row is a release. */
  ghost predicate Follows(db: Db, p: Projection) {
    && RowsDated(db)
    && (forall u <- p.rows :: RowFollows(db, u, p.rows[u]))
    && (p.applied.Some? ==> p.applied.value <= db.revision)
  }

  lemma TracksFollows(db: Db, p: Projection)
    requires RowsDated(db) && Tracks(db, p)
    ensures Follows(db, p)
  {
    forall u | u in p.rows
      ensures RowFollows(db, u, p.rows[u])
    {
      assert RowTracks(db, u, p.rows[u]);
    }
  }

  lemma RewritesKeepFollowing(db: Db, next: Db, p: Projection)
    requires Follows(db, p) && Rewrites(db, next)
    ensures Follows(next, p)
  {
    RewritesKeepDates(db, next);
    forall u | u in p.rows
      ensures RowFollows(next, u, p.rows[u])
    {
      assert RowFollows(db, u, p.rows[u]);
    }
  }

  lemma SyncKeepsFollowing(db: Db, p: Projection, users: set<UserId>)
    requires Follows(db, p) && users <= JoinedUsers(db)
    ensures Follows(db, p.(rows := SyncedRows(db, p.rows, users)))
  {
    var rows := SyncedRows(db, p.rows, users);
    forall u | u in rows
      ensures RowFollows(db, u, rows[u])
    {
      if u in p.rows {
        assert RowFollows(db, u, p.rows[u]);
      }
    }
  }

  lemma LoadKeepsFollowing(db: Db, p: Projection)
    requires Follows(db, p)
    ensures Follows(db, Load(db, p).0)
  {
    SyncKeepsFollowing(db, p, JoinedUsers(db));
  }

  lemma LedgerStepKeepsFollowing(s: System, limit: nat, step: Step)
    requires Follows(s.db, s.p) && Permitted(s.db, limit, step)
    ensures var t := LoadingNext(s, limit, step); Follows(t.db, t.p)
  {
    LoadKeepsFollowing(s.db, s.p);
    LoadingMovesLedger(s, limit, step);
    StepRewrites(s.db, limit, step);
    var t := LoadingNext(s, limit, step);
    ProjectionOfStep(s, limit, step);
    if t.db != s.db {
      RewritesKeepFollowing(s.db, t.db, t.p);
    }
  }

  lemma ProjectionOfStep(s: System, limit: nat, step: Step)
    ensures LoadingNext(s, limit, step).p in {s.p, Load(s.db, s.p).0}
  {
  }

  lemma WholeStepKeepsFollowing(s: System, limit: nat, step: WholeStep)
    requires Follows(s.db, s.p) && WholePermitted(s, limit, step)
    ensures var t := WholeNext(s, limit, step); Follows(t.db, t.p)
  {
    match step
    case Move(LedgerStep(inner)) => LedgerStepKeepsFollowing(s, limit, inner);
    case Move(DyingSync(users)) => SyncKeepsFollowing(s.db, s.p, users * JoinedUsers(s.db));
    case Move(WholeLoad) => LoadKeepsFollowing(s.db, s.p);
    case Save(k, plan) => RewritesKeepFollowing(s.db, SaveTarget(s.db, k, plan), s.p);
  }

  lemma {:induction false} WholeRunFollows(s: System, limit: nat, steps: seq<WholeStep>)
    requires Follows(s.db, s.p) && WholeRun(s, limit, steps)
    ensures var t := WholeAfter(s, limit, steps); Follows(t.db, t.p)
  {
    if steps != [] {
      WholeRunFollows(s, limit, steps[..|steps| - 1]);
      WholeStepKeepsFollowing(WholeAfter(s, limit, steps[..|steps| - 1]), limit, steps[|steps| - 1]);
    }
  }

  // ---------------------------------------------------------------------------
  // Exactly when a load is exact
  // ---------------------------------------------------------------------------

  /** A row that the inserts of a synchronisation cannot replace. */
  predicate Outdated(db: Db, p: Projection, u: UserId) {
    u in p.rows && u in db.ledger && p.rows[u].revision > db.ledger[u].revision
  }

  /** A row that no synchronisation writes, of a user shown as active. */
  predicate Stray(db: Db, p: Projection, u: UserId) {
    u in ProjectedActive(p.rows) && u !in JoinedUsers(db)
  }

  lemma SyncedRowIs(db: Db, p: Projection, u: UserId)
    requires Follows(db, p) && u in db.ledger
    ensures var rows := SyncedRows(db, p.rows, JoinedUsers(db));
            u in ProjectedActive(rows)
            <==> Stray(db, p, u) || (Excluded(db, u) && !Outdated(db, p, u))
  {
    if u in p.rows {
      assert RowFollows(db, u, p.rows[u]);
    }
  }

  lemma ProjectedUsersKnown(db: Db, p: Projection)
    requires Follows(db, p)
    ensures p.rows.Keys <= db.ledger.Keys
  {
    forall u | u in p.rows
      ensures u in db.ledger
    {
      assert RowFollows(db, u, p.rows[u]);
    }
  }

  lemma SyncIsExactIff(db: Db, p: Projection)
    requires Follows(db, p)
    ensures ProjectedActive(SyncedRows(db, p.rows, JoinedUsers(db))) == ActiveUsers(db)
       <==> && (forall u <- ActiveUsers(db) :: !Outdated(db, p, u))
            && (forall u <- ProjectedActive(p.rows) :: !Stray(db, p, u))
  {
    var shown := ProjectedActive(SyncedRows(db, p.rows, JoinedUsers(db)));
    ProjectedUsersKnown(db, p);
    forall u | u in db.ledger
      ensures u in shown <==> Stray(db, p, u) || (Excluded(db, u) && !Outdated(db, p, u))
    {
      SyncedRowIs(db, p, u);
    }
    SameUsersIff(db, p, shown);
  }

  lemma SameUsersIff(db: Db, p: Projection, shown: set<UserId>)
    requires shown <= db.ledger.Keys && p.rows.Keys <= db.ledger.Keys
    requires forall u <- db.ledger ::
               u in shown <==> Stray(db, p, u) || (Excluded(db, u) && !Outdated(db, p, u))
    ensures shown == ActiveUsers(db)
       <==> && (forall u <- ActiveUsers(db) :: !Outdated(db, p, u))
            && (forall u <- ProjectedActive(p.rows) :: !Stray(db, p, u))
  {
    if shown == ActiveUsers(db) {
      forall u | u in ActiveUsers(db)
        ensures !Outdated(db, p, u)
      {
        assert u in shown && !Stray(db, p, u);
      }
      forall u | u in ProjectedActive(p.rows)
        ensures !Stray(db, p, u)
      {
        assert u in db.ledger && (u in shown ==> Excluded(db, u));
      }
    }
  }

  lemma QuietIsExactIff(db: Db, p: Projection)
    requires Follows(db, p) && !NeedsSync(db, p)
    ensures ProjectedActive(p.rows) == ActiveUsers(db) <==> ActiveUsers(db) <= ProjectedActive(p.rows)
  {
    if p.applied.Some? {
      if ActiveUsers(db) <= ProjectedActive(p.rows) {
        SubsetSize(ActiveUsers(db), ProjectedActive(p.rows));
      }
    } else {
      ProjectedUsersKnown(db, p);
      assert db.ledger.Keys == {};
    }
  }

  /**
   After every mix of transactions, loads and saves, harmful ones included: a load that returns is
   exact exactly when, if it synchronises, no active user has a newer projected row and nobody whose
   row joins no target is projected as active, and if it does not, every active user is projected.
   */
  lemma LoadExactIff(limit: nat, steps: seq<WholeStep>)
    requires WholeRun(EMPTY_SYSTEM, limit, steps)
    ensures var s := WholeAfter(EMPTY_SYSTEM, limit, steps);
            var (q, r) := Load(s.db, s.p);
            r != NotReady ==>
              (ProjectedActive(q.rows) == ActiveUsers(s.db)
               <==> if NeedsSync(s.db, s.p) then
                      && (forall u <- ActiveUsers(s.db) :: !Outdated(s.db, s.p, u))
                      && (forall u <- ProjectedActive(s.p.rows) :: !Stray(s.db, s.p, u))
                    else ActiveUsers(s.db) <= ProjectedActive(s.p.rows))
  {
    WholeRunFollows(EMPTY_SYSTEM, limit, steps);
    var s := WholeAfter(EMPTY_SYSTEM, limit, steps);
    FollowingLoadIff(s.db, s.p);
  }

  lemma FollowingLoadIff(db: Db, p: Projection)
    requires Follows(db, p)
    ensures var (q, r) := Load(db, p);
            r != NotReady ==>
              (ProjectedActive(q.rows) == ActiveUsers(db)
               <==> if NeedsSync(db, p) then
                      && (forall u <- ActiveUsers(db) :: !Outdated(db, p, u))
                      && (forall u <- ProjectedActive(p.rows) :: !Stray(db, p, u))
                    else ActiveUsers(db) <= ProjectedActive(p.rows))
  {
    if NeedsSync(db, p) {
      SyncIsExactIff(db, p);
    } else {
      QuietIsExactIff(db, p);
    }
  }

  // ---------------------------------------------------------------------------
  // The exact condition of one save
  // ---------------------------------------------------------------------------

  /** The users that the save makes active: they have live rows of the saved target. */
  function Revived(db: Db, k: TargetKey, plan: Option<PlanId>): set<UserId> {
    var t := SavedTarget(db, k, plan);
    set u | u in db.ledger && db.ledger[u].target == k && db.ledger[u].state != Released
            && t.plan == Some(db.ledger[u].plan) && t.snapshot == Some(db.ledger[u].snapshot)
            && RunAllows(db, k, t) && !Excluded(db, u)
  }

  /** The row is bound to no run, or to one that is not over. */
  predicate RunAllows(db: Db, k: TargetKey, t: Target) {
    (k in db.bindings && t.plan == Some(db.bindings[k].plan)
     && t.snapshot == Some(db.bindings[k].snapshot))
    ==> RunActive(db, db.bindings[k].run)
  }

  lemma OtherTargetsSame(db: Db, k: TargetKey, plan: Option<PlanId>, row: LedgerRow)
    requires row.target != k
    ensures Joined(SaveTarget(db, k, plan), row) == Joined(db, row)
    ensures RowActive(SaveTarget(db, k, plan), row) == RowActive(db, row)
  {
  }

  lemma SavedRowActive(db: Db, k: TargetKey, plan: Option<PlanId>, row: LedgerRow)
    requires row.target == k
    ensures var t := SavedTarget(db, k, plan);
            && (Joined(SaveTarget(db, k, plan), row)
                <==> t.plan == Some(row.plan) && t.snapshot == Some(row.snapshot))
            && (RowActive(SaveTarget(db, k, plan), row)
                <==> t.plan == Some(row.plan) && t.snapshot == Some(row.snapshot) && RunAllows(db, k, t))
  {
  }

  lemma SaveGainsOnly(db: Db, k: TargetKey, plan: Option<PlanId>, row: LedgerRow)
    requires TargetsWellBound(db) && row.target == k
    ensures Joined(db, row) ==> Joined(SaveTarget(db, k, plan), row)
    ensures RowActive(db, row) ==> RowActive(SaveTarget(db, k, plan), row)
  {
    if Joined(db, row) {
      assert BoundToPlan(db, k);
      SavedBoundRow(db, k, plan);
    }
  }

  lemma ExcludedAfterSave(db: Db, k: TargetKey, plan: Option<PlanId>, u: UserId)
    requires TargetsWellBound(db) && u in db.ledger
    ensures Excluded(SaveTarget(db, k, plan), u) <==> Excluded(db, u) || u in Revived(db, k, plan)
    ensures Joined(db, db.ledger[u]) ==> Joined(SaveTarget(db, k, plan), db.ledger[u])
  {
    var row, next := db.ledger[u], SaveTarget(db, k, plan);
    assert Excluded(db, u) == (row.state != Released && RowActive(db, row));
    assert Excluded(next, u) == (row.state != Released && RowActive(next, row));
    if row.target == k {
      SavedRowActive(db, k, plan, row);
      SaveGainsOnly(db, k, plan, row);
    } else {
      OtherTargetsSame(db, k, plan, row);
    }
  }

  lemma ActiveAfterSave(db: Db, k: TargetKey, plan: Option<PlanId>)
    requires TargetsWellBound(db)
    ensures ActiveUsers(SaveTarget(db, k, plan)) == ActiveUsers(db) + Revived(db, k, plan)
    ensures JoinedUsers(db) <= JoinedUsers(SaveTarget(db, k, plan))
  {
    forall u | u in db.ledger
      ensures Excluded(SaveTarget(db, k, plan), u) <==> Excluded(db, u) || u in Revived(db, k, plan)
      ensures Joined(db, db.ledger[u]) ==> Joined(SaveTarget(db, k, plan), db.ledger[u])
    {
      ExcludedAfterSave(db, k, plan, u);
    }
  }

  /** The next load will synchronise: the revision or the count asks for it. */
  predicate WillSync(db: Db, p: Projection, revived: set<UserId>) {
    || (if p.applied.Some? then p.applied.value else 0) < db.revision
    || (p.applied.Some? && |ProjectedActive(p.rows)| != |ActiveUsers(db) + revived|)
  }

  lemma TrackedAreCurrent(db: Db, p: Projection)
    requires Tracks(db, p)
    ensures forall u <- ActiveUsers(db) :: !Outdated(db, p, u)
    ensures forall u <- ProjectedActive(p.rows) :: !Stray(db, p, u)
  {
    forall u | u in ActiveUsers(db)
      ensures !Outdated(db, p, u)
    {
      assert u in p.rows ==> RowTracks(db, u, p.rows[u]);
    }
    forall u | u in ProjectedActive(p.rows)
      ensures !Stray(db, p, u)
    {
      assert RowTracks(db, u, p.rows[u]);
    }
  }

  /**
   After saving one row of consistent stores, a load that returns is exact exactly when it
   synchronises and no revived user has a projected row newer than the ledger row, or it does not and
   the revived users are projected as active already.
   */
  lemma SaveKeepsExactIff(s: System, k: TargetKey, plan: Option<PlanId>)
    requires Mirrored(s)
    ensures var next, revived := SaveTarget(s.db, k, plan), Revived(s.db, k, plan);
            var (q, r) := Load(next, s.p);
            r != NotReady ==>
              (ProjectedActive(q.rows) == ActiveUsers(next)
               <==> if WillSync(s.db, s.p, revived) then
                      forall u <- revived :: !Outdated(s.db, s.p, u)
                    else revived <= ProjectedActive(s.p.rows))
  {
    var next, revived := SaveTarget(s.db, k, plan), Revived(s.db, k, plan);
    ActiveAfterSave(s.db, k, plan);
    TracksFollows(s.db, s.p);
    RewritesKeepFollowing(s.db, next, s.p);
    FollowingLoadIff(next, s.p);
    assert NeedsSync(next, s.p) == WillSync(s.db, s.p, revived);
    TrackedAreCurrent(s.db, s.p);
    if WillSync(s.db, s.p, revived) {
      OnlyRevivedMatter(s.db, next, s.p, revived);
    } else {
      QuietActiveProjected(s.db, s.p, revived);
    }
  }

  lemma OnlyRevivedMatter(db: Db, next: Db, p: Projection, revived: set<UserId>)
    requires next.ledger == db.ledger && ActiveUsers(next) == ActiveUsers(db) + revived
    requires JoinedUsers(db) <= JoinedUsers(next)
    requires forall u <- ActiveUsers(db) :: !Outdated(db, p, u)
    requires forall u <- ProjectedActive(p.rows) :: !Stray(db, p, u)
    ensures (forall u <- ActiveUsers(next) :: !Outdated(next, p, u))
       <==> (forall u <- revived :: !Outdated(db, p, u))
    ensures forall u <- ProjectedActive(p.rows) :: !Stray(next, p, u)
  {
    assert forall u :: Outdated(next, p, u) == Outdated(db, p, u);
    forall u | u in ProjectedActive(p.rows)
      ensures !Stray(next, p, u)
    {
      assert !Stray(db, p, u);
    }
  }

  lemma QuietActiveProjected(db: Db, p: Projection, revived: set<UserId>)
    requires RowsDated(db) && Tracks(db, p) && !WillSync(db, p, revived)
    ensures ActiveUsers(db) <= ProjectedActive(p.rows)
  {
    if p.applied.Some? {
      CaughtUpIsSuperset(db, p);
    } else {
      assert db.ledger.Keys == {};
    }
  }

  // ---------------------------------------------------------------------------
  // How long a revived user stays hidden
  // ---------------------------------------------------------------------------

  /** The projected release is newer than the ledger row. */
  predicate Hidden(s: System, u: UserId) {
    u in s.p.rows && s.p.rows[u].state == Released && Outdated(s.db, s.p, u)
  }

  lemma HiddenIsNotShown(s: System, u: UserId)
    requires Hidden(s, u) && Excluded(s.db, u)
    ensures Load(s.db, s.p).1 == Loaded(Reload(s.db))
    ensures u in ActiveUsers(s.db) && u !in ProjectedActive(Load(s.db, s.p).0.rows)
  {
    SyncActiveIsActive(s.db);
    assert u in JoinedUsers(s.db);
  }

  lemma HiddenStaysInSync(s: System, u: UserId, users: set<UserId>)
    requires RowsDated(s.db) && Hidden(s, u) && users <= JoinedUsers(s.db)
    ensures Hidden(s.(p := s.p.(rows := SyncedRows(s.db, s.p.rows, users))), u)
  {
  }

  lemma HiddenStaysInLoad(s: System, u: UserId)
    requires RowsDated(s.db) && Hidden(s, u)
    ensures Hidden(s.(p := Load(s.db, s.p).0), u)
  {
    HiddenStaysInSync(s, u, JoinedUsers(s.db));
  }

  lemma HiddenStep(s: System, limit: nat, step: WholeStep, u: UserId)
    requires RowsDated(s.db) && Hidden(s, u) && WholePermitted(s, limit, step)
    ensures var t := WholeNext(s, limit, step);
            && Rewrites(s.db, t.db)
            && (u in t.db.ledger && t.db.ledger[u] == s.db.ledger[u] ==> Hidden(t, u))
  {
    WholeStepRewrites(s, limit, step);
    match step
    case Move(LedgerStep(inner)) =>
      HiddenStaysInLoad(s, u);
      ProjectionOfStep(s, limit, inner);
    case Move(DyingSync(users)) => HiddenStaysInSync(s, u, users * JoinedUsers(s.db));
    case Move(WholeLoad) => HiddenStaysInLoad(s, u);
    case Save(_, _) =>
  }

  lemma WholeStepRewrites(s: System, limit: nat, step: WholeStep)
    requires WholePermitted(s, limit, step)
    ensures Rewrites(s.db, WholeNext(s, limit, step).db)
  {
    match step
    case Move(LedgerStep(inner)) =>
      LoadingMovesLedger(s, limit, inner);
      StepRewrites(s.db, limit, inner);
    case _ =>
  }

  /**
   As long as the user's ledger row is not rewritten, whatever else happens, the projected release
   stays newer and no load shows the user; a rewritten row is newer than anything projected before.
   */
  lemma {:induction false} HiddenUntilRewritten(s: System, limit: nat, steps: seq<WholeStep>, u: UserId)
    requires RowsDated(s.db) && Hidden(s, u) && WholeRun(s, limit, steps)
    ensures var later := WholeAfter(s, limit, steps);
            && RowsDated(later.db) && s.db.revision <= later.db.revision && u in later.db.ledger
            && (later.db.ledger[u] == s.db.ledger[u] ==> Hidden(later, u))
            && (later.db.ledger[u] != s.db.ledger[u] ==>
                  later.db.ledger[u].revision > s.db.revision)
  {
    if steps != [] {
      var front, last := steps[..|steps| - 1], steps[|steps| - 1];
      HiddenUntilRewritten(s, limit, front, u);
      var mid := WholeAfter(s, limit, front);
      WholeStepRewrites(mid, limit, last);
      RewritesKeepDates(mid.db, WholeNext(mid, limit, last).db);
      if mid.db.ledger[u] == s.db.ledger[u] {
        HiddenStep(mid, limit, last, u);
      }
    }
  }

  /** A synchronising load that returns shows every active user whose projected row is not newer. */
  lemma CurrentUserIsShown(s: System, u: UserId)
    requires Follows(s.db, s.p) && NeedsSync(s.db, s.p)
    requires Excluded(s.db, u) && !Outdated(s.db, s.p, u)
    ensures Load(s.db, s.p).1 == Loaded(Reload(s.db))
    ensures u in ProjectedActive(Load(s.db, s.p).0.rows)
  {
    SyncActiveIsActive(s.db);
    assert u in JoinedUsers(s.db);
    SyncedRowIs(s.db, s.p, u);
  }
}
