/** What every transaction keeps, and exactly when a confirmation keeps it. */
module AllocationInvariant {
  import opened Wrappers
  import opened AudienceTables
  import opened WinnerSelection
  import opened AllocationProtocol

  /** A target row is either untouched or wholly bound to a plan that selected it. */
  ghost predicate TargetsWellBound(db: Db) {
    forall k <- db.targets :: db.targets[k].Unbound() || BoundToPlan(db, k)
  }

  ghost predicate BoundToPlan(db: Db, k: TargetKey)
    requires k in db.targets
  {
    var t := db.targets[k];
    && t.plan.Some? && t.state.Some?
    && t.snapshot == Some(FinalSnapshot(t.plan.value, k.segment))
    && t.plan.value in db.plans
    && db.plans[t.plan.value].target == k.analysis
    && k.segment in db.plans[t.plan.value].segments
  }

  /** A plan's id fixes its segments and its revision, and every selected target is bound to it. */
  ghost predicate PlansComplete(db: Db) {
    forall p <- db.plans :: PlanComplete(db, p)
  }

  ghost predicate PlanComplete(db: Db, p: PlanId)
    requires p in db.plans
  {
    && db.plans[p].segments == p.segments && p.segments != {}
    && db.plans[p].revision == p.revision + 1 <= db.revision
    && forall s <- p.segments ::
         var k := TargetKey(db.plans[p].target, s);
         k in db.targets && db.targets[k].plan == Some(p)
  }

  /** Final snapshots are exactly the plans' segments, each with its recorded members. */
  ghost predicate FinalsMatchPlans(db: Db) {
    && (forall f <- db.finals :: FinalMatchesPlan(db, f))
    && (forall p <- db.plans, s <- p.segments :: FinalSnapshot(p, s) in db.finals)
    && (forall f <- db.members :: f.FinalSnapshot? ==> f in db.finals)
  }

  ghost predicate FinalMatchesPlan(db: Db, f: SnapshotId)
    requires f in db.finals
  {
    var row := db.finals[f];
    && f.FinalSnapshot? && f.plan in db.plans && f.segment in f.plan.segments
    && row.segment == f.segment && row.plan == f.plan && row.source in f.plan.sources
    && f in db.members && row.userCount == |db.members[f]| > 0
  }

  /** Plan status and target state move together. */
  ghost predicate StatesAgree(db: Db) {
    forall k <- db.targets :: db.targets[k].plan.Some? && db.targets[k].plan.value in db.plans ==>
      var state, plan := db.targets[k].state, db.plans[db.targets[k].plan.value];
      && (state == Some(Released) <==> plan.status == PlanReleased)
      && (state == Some(Consumed) ==> plan.status == Locked)
      && (state == Some(Consumed) <==> k in db.bindings)
  }

  ghost predicate BindingsJoin(db: Db) {
    forall k <- db.bindings ::
      && k in db.targets && BindingMatches(db, k)
      && db.bindings[k].run in db.runs
  }

  /** Every ledger row joins its target, agrees with its state and names a snapshot of the user. */
  ghost predicate LedgerJoined(db: Db) {
    forall u <- db.ledger :: RowJoined(db, u, db.ledger[u])
  }

  ghost predicate RowJoined(db: Db, u: UserId, row: LedgerRow) {
    && Joined(db, row)
    && db.targets[row.target].state == Some(row.state)
    && row.plan in db.plans
    && u in MembersOf(db, row.snapshot)
    && db.plans[row.plan].revision <= row.revision <= db.revision
  }

  /** A live target still holds every user of its final snapshot. */
  ghost predicate Covered(db: Db) {
    forall k <- db.targets :: Holds(db, k) ==>
      forall u <- MembersOf(db, db.targets[k].snapshot.value) ::
        u in db.ledger && db.ledger[u].target == k
  }

  ghost predicate Holds(db: Db, k: TargetKey)
    requires k in db.targets
  {
    && db.targets[k].snapshot.Some?
    && (db.targets[k].state == Some(Reserved) || db.targets[k].state == Some(Consumed))
    && TargetActive(db, k)
  }

  ghost predicate RevisionCounts(db: Db) {
    db.revision == 0 <==> db.ledger == map[]
  }

  ghost predicate Inv(db: Db) {
    && TargetsWellBound(db) && PlansComplete(db) && FinalsMatchPlans(db) && StatesAgree(db)
    && BindingsJoin(db) && LedgerJoined(db) && Covered(db) && RevisionCounts(db)
  }

  lemma InitialInv()
    ensures Inv(EMPTY_DB)
  {
  }

  // ---------------------------------------------------------------------------
  // What holds whether or not every confirmation could bind its targets
  // ---------------------------------------------------------------------------

  ghost predicate PlansNumbered(db: Db) {
    forall p <- db.plans ::
      && db.plans[p].segments == p.segments && p.segments != {}
      && db.plans[p].revision == p.revision + 1 <= db.revision
  }

  /** The revision counter numbers the plans. */
  ghost predicate RevisionsApart(db: Db) {
    forall p <- db.plans, q <- db.plans :: p.revision == q.revision ==> p == q
  }

  /** Every ledger row names a stored plan and one of the plan's own targets. */
  ghost predicate RowsNamePlans(db: Db) {
    forall u <- db.ledger ::
      && db.ledger[u].plan in db.plans
      && db.ledger[u].target.analysis == db.plans[db.ledger[u].plan].target
      && db.ledger[u].target.segment in db.plans[db.ledger[u].plan].segments
  }

  /** The user's ledger row is the target's own. */
  ghost predicate HeldBy(db: Db, k: TargetKey, u: UserId)
    requires k in db.targets
  {
    && u in db.ledger && db.ledger[u].target == k && Joined(db, db.ledger[u])
    && db.targets[k].state == Some(db.ledger[u].state)
  }

  ghost predicate AudienceHeld(db: Db, k: TargetKey)
    requires k in db.targets && db.targets[k].snapshot.Some?
  {
    forall u <- MembersOf(db, db.targets[k].snapshot.value) :: HeldBy(db, k, u)
  }

  /** Every live target holds its whole audience. */
  ghost predicate AllHeld(db: Db) {
    forall k <- db.targets :: Holds(db, k) ==> AudienceHeld(db, k)
  }

  ghost predicate Coherent(db: Db) {
    && TargetsWellBound(db) && FinalsMatchPlans(db) && StatesAgree(db) && BindingsJoin(db)
    && PlansNumbered(db) && RevisionsApart(db) && RowsNamePlans(db) && AllHeld(db)
  }

  lemma JoinedRowsNamePlans(db: Db)
    requires TargetsWellBound(db) && LedgerJoined(db)
    ensures RowsNamePlans(db)
  {
    forall u | u in db.ledger
      ensures db.ledger[u].plan in db.plans
      ensures db.ledger[u].target.analysis == db.plans[db.ledger[u].plan].target
      ensures db.ledger[u].target.segment in db.plans[db.ledger[u].plan].segments
    {
      assert RowJoined(db, u, db.ledger[u]);
      assert BoundToPlan(db, db.ledger[u].target);
    }
  }

  // ---------------------------------------------------------------------------
  // Confirmation
  // ---------------------------------------------------------------------------

  /** The target row that the guarded UPDATE can bind. */
  predicate Bindable(db: Db, analysis: AnalysisId, segment: SegmentId) {
    var k := TargetKey(analysis, segment);
    if k in db.targets then db.targets[k].Unbound() else segment in db.definitions
  }

  predicate AllBindable(db: Db, analysis: AnalysisId, segments: set<SegmentId>) {
    forall s <- segments :: Bindable(db, analysis, s)
  }

  /** What a fresh confirmation path has established before it writes. */
  ghost predicate Ready(db: Db, sources: seq<Source>) {
    && Distinct(sources)
    && SegmentsOf(sources) != {}
    && (forall s <- SegmentsOf(sources) :: SegmentUsers(Winners(db, sources), s) != {})
    && PlanFor(db, sources) !in db.plans
  }

  lemma FreshPathReady(db: Db, limit: nat, req: Request)
    requires Path(db, limit, req).Fresh?
    ensures Ready(db, Path(db, limit, req).sources)
    ensures SegmentsOf(Path(db, limit, req).sources) == Selected(req)
  {
  }

  /** The parameters of one confirmation's writes. */
  datatype Write = Write(analysis: AnalysisId, segments: set<SegmentId>, plan: PlanId,
                         w: map<UserId, Source>)

  ghost function WriteFor(db: Db, analysis: AnalysisId, sources: seq<Source>): Write {
    Write(analysis, SegmentsOf(sources), PlanFor(db, sources), Winners(db, sources))
  }

  /** Target rows: unbound selected rows become bound to the new plan, the rest stay. */
  ghost predicate WroteTargets(db: Db, next: Db, c: Write) {
    && (forall k <- db.targets ::
          k in next.targets
          && next.targets[k] == BoundTarget(k, db.targets[k], c.analysis, c.segments, c.plan))
    && (forall k <- next.targets :: k !in db.targets ==>
          && k.analysis == c.analysis && k.segment in c.segments && k.segment in db.definitions
          && next.targets[k]
             == Target(false, Some(FinalSnapshot(c.plan, k.segment)), Some(c.plan), Some(Reserved)))
    && (forall s <- c.segments :: s in db.definitions ==>
          TargetKey(c.analysis, s) in next.targets)
  }

  ghost predicate WrotePlan(db: Db, next: Db, c: Write) {
    && c.plan !in db.plans && c.plan.segments == c.segments && c.plan.revision == db.revision
    && c.segments != {}
    && next.revision == db.revision + 1
    && next.plans.Keys == db.plans.Keys + {c.plan}
    && (forall p <- db.plans :: next.plans[p] == db.plans[p])
    && next.plans[c.plan].target == c.analysis
    && next.plans[c.plan].segments == c.segments
    && next.plans[c.plan].revision == next.revision
    && next.plans[c.plan].status == Finalized
  }

  ghost predicate WroteFinals(db: Db, next: Db, c: Write) {
    && (forall f <- db.finals :: f in next.finals && next.finals[f] == db.finals[f])
    && (forall f <- db.members :: f in next.members && next.members[f] == db.members[f])
    && (forall f <- next.finals :: f in db.finals || NewFinal(next, f, c))
    && (forall f <- next.members :: f in db.members || NewFinal(next, f, c))
    && (forall s <- c.segments :: NewFinal(next, FinalSnapshot(c.plan, s), c))
  }

  ghost predicate NewFinal(next: Db, f: SnapshotId, c: Write) {
    && f.FinalSnapshot? && f.plan == c.plan && f.segment in c.segments
    && f in next.finals && f in next.members
    && next.finals[f].segment == f.segment && next.finals[f].plan == c.plan
    && next.finals[f].source in c.plan.sources
    && next.members[f].Keys == SegmentUsers(c.w, f.segment)
    && next.finals[f].userCount == |SegmentUsers(c.w, f.segment)| > 0
  }

  ghost predicate WroteLedger(db: Db, next: Db, c: Write) {
    && next.ledger.Keys == db.ledger.Keys + c.w.Keys
    && c.w != map[]
    && (forall u <- c.w ::
          && c.w[u].segment in c.segments
          && next.ledger[u] == ReservedRow(c.analysis, c.w[u].segment, c.plan, next.revision))
    && (forall u <- db.ledger :: u !in c.w ==> next.ledger[u] == db.ledger[u])
    && (forall u <- c.w :: !Excluded(db, u))
  }

  ghost predicate RunsSame(db: Db, next: Db) {
    next.bindings == db.bindings && next.runs == db.runs
  }

  /** A bound target is left alone. */
  lemma WroteTargetOnce(db: Db, next: Db, c: Write, k: TargetKey)
    requires WroteTargets(db, next, c) && k in db.targets && !db.targets[k].Unbound()
    ensures k in next.targets && next.targets[k] == db.targets[k]
  {
  }

  lemma WroteKeepsTargets(db: Db, next: Db, c: Write)
    requires TargetsWellBound(db) && WroteTargets(db, next, c) && WrotePlan(db, next, c)
    ensures TargetsWellBound(next)
  {
    forall k | k in next.targets && !next.targets[k].Unbound()
      ensures BoundToPlan(next, k)
    {
      if k in db.targets && !db.targets[k].Unbound() {
        WroteTargetOnce(db, next, c, k);
        assert BoundToPlan(db, k);
      }
    }
  }

  lemma WroteKeepsPlans(db: Db, next: Db, c: Write)
    requires PlansComplete(db) && WroteTargets(db, next, c) && WrotePlan(db, next, c)
    requires AllBindable(db, c.analysis, c.segments)
    ensures PlansComplete(next)
  {
    forall p | p in next.plans
      ensures PlanComplete(next, p)
    {
      if p in db.plans {
        assert PlanComplete(db, p);
        forall s | s in p.segments
          ensures var k := TargetKey(next.plans[p].target, s);
                  k in next.targets && next.targets[k].plan == Some(p)
        {
          WroteTargetOnce(db, next, c, TargetKey(db.plans[p].target, s));
        }
      } else {
        forall s | s in p.segments
          ensures var k := TargetKey(c.analysis, s);
                  k in next.targets && next.targets[k].plan == Some(p)
        {
          assert Bindable(db, c.analysis, s);
        }
      }
    }
  }

  lemma WroteKeepsFinals(db: Db, next: Db, c: Write)
    requires FinalsMatchPlans(db) && WroteFinals(db, next, c) && WrotePlan(db, next, c)
    ensures FinalsMatchPlans(next)
  {
    forall f | f in next.finals
      ensures FinalMatchesPlan(next, f)
    {
      if f in db.finals {
        assert FinalMatchesPlan(db, f);
      } else {
        assert NewFinal(next, f, c);
        assert |next.members[f]| == |next.members[f].Keys|;
      }
    }
  }

  lemma WroteKeepsStates(db: Db, next: Db, c: Write)
    requires TargetsWellBound(db) && StatesAgree(db) && BindingsJoin(db)
    requires WroteTargets(db, next, c) && WrotePlan(db, next, c) && RunsSame(db, next)
    ensures StatesAgree(next) && BindingsJoin(next)
  {
    forall k | k in next.bindings
      ensures k in next.targets && BindingMatches(next, k) && next.bindings[k].run in next.runs
    {
      WroteTargetOnce(db, next, c, k);
    }
    forall k | k in next.targets && next.targets[k].plan.Some?
               && next.targets[k].plan.value in next.plans
      ensures var state, plan := next.targets[k].state, next.plans[next.targets[k].plan.value];
              && (state == Some(Released) <==> plan.status == PlanReleased)
              && (state == Some(Consumed) ==> plan.status == Locked)
              && (state == Some(Consumed) <==> k in next.bindings)
    {
      if k in db.targets && !db.targets[k].Unbound() {
        WroteTargetOnce(db, next, c, k);
        assert BoundToPlan(db, k);
      } else {
        assert k !in db.bindings;
      }
    }
  }

  lemma WroteKeepsLedger(db: Db, next: Db, c: Write)
    requires LedgerJoined(db) && WroteTargets(db, next, c) && WrotePlan(db, next, c)
    requires WroteFinals(db, next, c) && WroteLedger(db, next, c)
    requires AllBindable(db, c.analysis, c.segments)
    ensures LedgerJoined(next) && RevisionCounts(next)
  {
    forall u | u in next.ledger
      ensures RowJoined(next, u, next.ledger[u])
    {
      if u in c.w {
        assert Bindable(db, c.analysis, c.w[u].segment);
        WinnerRowJoined(db, next, c, u);
      } else {
        assert RowJoined(db, u, db.ledger[u]);
        OtherRowJoined(db, next, c, u);
      }
    }
    var u :| u in c.w;
    assert u in next.ledger;
  }

  lemma WinnerRowJoined(db: Db, next: Db, c: Write, u: UserId)
    requires WroteTargets(db, next, c) && WrotePlan(db, next, c)
    requires WroteFinals(db, next, c) && WroteLedger(db, next, c)
    requires u in c.w && Bindable(db, c.analysis, c.w[u].segment)
    ensures u in next.ledger && RowJoined(next, u, next.ledger[u])
  {
    assert NewFinal(next, FinalSnapshot(c.plan, c.w[u].segment), c);
    assert TargetKey(c.analysis, c.w[u].segment) in next.targets;
  }

  lemma OtherRowJoined(db: Db, next: Db, c: Write, u: UserId)
    requires WroteTargets(db, next, c) && WrotePlan(db, next, c)
    requires WroteFinals(db, next, c) && WroteLedger(db, next, c)
    requires u in db.ledger && u !in c.w && RowJoined(db, u, db.ledger[u])
    ensures u in next.ledger && RowJoined(next, u, next.ledger[u])
  {
    WroteTargetOnce(db, next, c, db.ledger[u].target);
  }

  lemma ActivitySame(db: Db, next: Db, k: TargetKey)
    requires k in db.targets && k in next.targets && next.targets[k] == db.targets[k]
    requires RunsSame(db, next)
    ensures TargetActive(next, k) == TargetActive(db, k)
  {
  }

  lemma BoundSnapshotStored(db: Db, k: TargetKey)
    requires TargetsWellBound(db) && PlansComplete(db) && FinalsMatchPlans(db)
    requires k in db.targets && !db.targets[k].Unbound()
    ensures db.targets[k].snapshot.Some?
    ensures db.targets[k].snapshot.value in db.finals && db.targets[k].snapshot.value in db.members
  {
    assert BoundToPlan(db, k);
    assert PlanComplete(db, db.targets[k].plan.value);
    assert FinalMatchesPlan(db, db.targets[k].snapshot.value);
  }

  /** A user held by a live target is excluded, so no new winner takes the user's row. */
  lemma HeldUserExcluded(db: Db, k: TargetKey, u: UserId)
    requires LedgerJoined(db) && Covered(db)
    requires k in db.targets && Holds(db, k)
    requires u in MembersOf(db, db.targets[k].snapshot.value)
    ensures u in db.ledger && db.ledger[u].target == k && Excluded(db, u)
  {
    assert RowJoined(db, u, db.ledger[u]);
  }

  lemma WroteKeepsCovered(db: Db, next: Db, c: Write)
    requires TargetsWellBound(db) && PlansComplete(db) && FinalsMatchPlans(db)
    requires LedgerJoined(db) && Covered(db)
    requires WroteTargets(db, next, c) && RunsSame(db, next)
    requires WroteFinals(db, next, c) && WroteLedger(db, next, c)
    ensures Covered(next)
  {
    forall k | k in next.targets && Holds(next, k)
      ensures forall u <- MembersOf(next, next.targets[k].snapshot.value) ::
                u in next.ledger && next.ledger[u].target == k
    {
      if k in db.targets && !db.targets[k].Unbound() {
        OldTargetStillHeld(db, next, c, k);
      } else {
        NewTargetHeld(db, next, c, k);
      }
    }
  }

  lemma OldTargetStillHeld(db: Db, next: Db, c: Write, k: TargetKey)
    requires TargetsWellBound(db) && PlansComplete(db) && FinalsMatchPlans(db)
    requires LedgerJoined(db) && Covered(db)
    requires WroteTargets(db, next, c) && RunsSame(db, next)
    requires WroteFinals(db, next, c) && WroteLedger(db, next, c)
    requires k in db.targets && !db.targets[k].Unbound()
    requires k in next.targets && Holds(next, k)
    ensures forall u <- MembersOf(next, next.targets[k].snapshot.value) ::
              u in next.ledger && next.ledger[u].target == k
  {
    WroteTargetOnce(db, next, c, k);
    ActivitySame(db, next, k);
    BoundSnapshotStored(db, k);
    forall u | u in MembersOf(next, next.targets[k].snapshot.value)
      ensures u in next.ledger && next.ledger[u].target == k
    {
      HeldUserExcluded(db, k, u);
    }
  }

  lemma NewTargetHeld(db: Db, next: Db, c: Write, k: TargetKey)
    requires WroteTargets(db, next, c)
    requires WroteFinals(db, next, c) && WroteLedger(db, next, c)
    requires k in next.targets && Holds(next, k)
    requires k in db.targets ==> db.targets[k].Unbound()
    ensures forall u <- MembersOf(next, next.targets[k].snapshot.value) ::
              u in next.ledger && next.ledger[u].target == k
  {
    assert NewFinal(next, FinalSnapshot(c.plan, k.segment), c);
    forall u | u in MembersOf(next, next.targets[k].snapshot.value)
      ensures u in next.ledger && next.ledger[u].target == k
    {
      assert u in SegmentUsers(c.w, k.segment);
    }
  }

  ghost predicate Wrote(db: Db, next: Db, c: Write) {
    && WroteTargets(db, next, c) && WrotePlan(db, next, c) && WroteFinals(db, next, c)
    && WroteLedger(db, next, c) && RunsSame(db, next)
  }

  /** A confirmation whose target rows are all bindable keeps the invariant. */
  lemma WroteKeepsInv(db: Db, next: Db, c: Write)
    requires Inv(db) && Wrote(db, next, c)
    requires AllBindable(db, c.analysis, c.segments)
    ensures Inv(next)
  {
    WroteKeepsTargets(db, next, c);
    WroteKeepsPlans(db, next, c);
    WroteKeepsFinals(db, next, c);
    WroteKeepsStates(db, next, c);
    WroteKeepsLedger(db, next, c);
    WroteKeepsCovered(db, next, c);
  }

  /** One that is not bindable breaks it: its winners' rows name a target that is not theirs. */
  lemma UnbindableBreaksInv(db: Db, next: Db, c: Write, s: SegmentId)
    requires TargetsWellBound(db) && Wrote(db, next, c)
    requires s in c.segments && !Bindable(db, c.analysis, s)
    ensures !LedgerJoined(next)
    ensures exists u <- SegmentUsers(c.w, s) :: u in next.ledger && !Joined(next, next.ledger[u])
  {
    assert NewFinal(next, FinalSnapshot(c.plan, s), c);
    var u :| u in SegmentUsers(c.w, s);
    var k := TargetKey(c.analysis, s);
    if k in db.targets {
      WroteTargetOnce(db, next, c, k);
      assert BoundToPlan(db, k);
    }
    assert u in next.ledger && !Joined(next, next.ledger[u]);
    assert !RowJoined(next, u, next.ledger[u]);
  }

  // ---------------------------------------------------------------------------
  // The commit makes exactly these writes
  // ---------------------------------------------------------------------------

  /** The exclusion test that picked the winners and the upsert guard agree: no row is refused. */
  lemma WinnersUpsertable(db: Db, ready: Db, c: Write)
    requires TargetsWellBound(db) && LedgerJoined(db)
    requires WroteTargets(db, ready, c) && RunsSame(db, ready) && ready.ledger == db.ledger
    requires forall u <- c.w :: !Excluded(db, u)
    ensures forall u <- c.w :: Upsertable(ready, u)
  {
    forall u | u in c.w && u in db.ledger
      ensures Upsertable(ready, u)
    {
      assert RowJoined(db, u, db.ledger[u]);
      WroteTargetOnce(db, ready, c, db.ledger[u].target);
      ActivitySame(db, ready, db.ledger[u].target);
    }
  }

  lemma BeforeReserveTargets(db: Db, analysis: AnalysisId, minimum: int, batch: AnalysisId,
                             sources: seq<Source>)
    ensures WroteTargets(db, BeforeReserve(db, analysis, minimum, batch, sources),
                         WriteFor(db, analysis, sources))
  {
    var c := WriteFor(db, analysis, sources);
    TargetsAfterBinding(db.targets, db.definitions, c.analysis, c.segments, c.plan);
  }

  lemma TargetsAfterBinding(targets: map<TargetKey, Target>, definitions: set<SegmentId>,
                            analysis: AnalysisId, segments: set<SegmentId>, plan: PlanId)
    ensures var next := BoundTargets(EnsuredTargets(targets, definitions, analysis, segments),
                                     analysis, segments, plan);
            && (forall k <- targets ::
                  k in next && next[k] == BoundTarget(k, targets[k], analysis, segments, plan))
            && (forall k <- next :: k !in targets ==>
                  && k.analysis == analysis && k.segment in segments && k.segment in definitions
                  && next[k] == Target(false, Some(FinalSnapshot(plan, k.segment)), Some(plan),
                                       Some(Reserved)))
            && (forall s <- segments :: s in definitions ==> TargetKey(analysis, s) in next)
  {
  }

  lemma BeforeReservePlan(db: Db, analysis: AnalysisId, minimum: int, batch: AnalysisId,
                          sources: seq<Source>)
    requires Ready(db, sources)
    ensures WrotePlan(db, BeforeReserve(db, analysis, minimum, batch, sources),
                      WriteFor(db, analysis, sources))
    ensures RunsSame(db, BeforeReserve(db, analysis, minimum, batch, sources))
  {
    PlanInserted(db, BeforeReserve(db, analysis, minimum, batch, sources),
                 WriteFor(db, analysis, sources), batch);
  }

  lemma PlanInserted(db: Db, next: Db, c: Write, batch: AnalysisId)
    requires c.plan !in db.plans && c.plan.segments == c.segments != {}
    requires c.plan.revision == db.revision && next.revision == db.revision + 1
    requires next.plans
          == db.plans[c.plan := Plan(c.analysis, batch, c.segments, next.revision, Finalized)]
    ensures WrotePlan(db, next, c)
  {
  }

  lemma BeforeReserveFinals(db: Db, analysis: AnalysisId, minimum: int, batch: AnalysisId,
                            sources: seq<Source>)
    requires FinalsMatchPlans(db) && Ready(db, sources)
    ensures WroteFinals(db, BeforeReserve(db, analysis, minimum, batch, sources),
                        WriteFor(db, analysis, sources))
  {
    var next := BeforeReserve(db, analysis, minimum, batch, sources);
    var c := WriteFor(db, analysis, sources);
    var finals := NewFinals(sources, c.segments, c.plan, c.w, minimum);
    var members := NewMembers(db, c.segments, c.plan, c.w);
    NewFinalRows(sources, c.plan, c.w, minimum);
    NewMemberRows(db, c.segments, c.plan, c.w);
    assert next.finals == db.finals + finals && next.members == db.members + members;
    forall s | s in c.segments
      ensures |SegmentUsers(c.w, s)| > 0
    {
    }
    FinalsAppended(db, next, c, finals, members);
  }

  lemma FinalsAppended(db: Db, next: Db, c: Write, finals: map<SnapshotId, FinalRow>,
                       members: map<SnapshotId, map<UserId, Fit>>)
    requires FinalsMatchPlans(db) && c.plan !in db.plans
    requires next.finals == db.finals + finals && next.members == db.members + members
    requires forall f <- finals :: f.FinalSnapshot? && f.plan == c.plan && f.segment in c.segments
    requires forall f <- members :: f.FinalSnapshot? && f.plan == c.plan && f.segment in c.segments
    requires forall s <- c.segments ::
               var f := FinalSnapshot(c.plan, s);
               && f in finals && finals[f].segment == s && finals[f].plan == c.plan
               && finals[f].source in c.plan.sources
               && finals[f].userCount == |SegmentUsers(c.w, s)| > 0
    requires forall s <- c.segments ::
               var f := FinalSnapshot(c.plan, s);
               f in members && members[f].Keys == SegmentUsers(c.w, s)
    ensures WroteFinals(db, next, c)
  {
    OldRowsStay(db, c.plan, finals, members);
    forall s | s in c.segments
      ensures NewFinal(next, FinalSnapshot(c.plan, s), c)
    {
    }
  }

  lemma OldRowsStay(db: Db, plan: PlanId, finals: map<SnapshotId, FinalRow>,
                    members: map<SnapshotId, map<UserId, Fit>>)
    requires FinalsMatchPlans(db) && plan !in db.plans
    requires forall f <- finals :: f.FinalSnapshot? && f.plan == plan
    requires forall f <- members :: f.FinalSnapshot? && f.plan == plan
    ensures finals.Keys !! db.finals.Keys && members.Keys !! db.members.Keys
  {
    forall f | f in db.finals
      ensures f !in finals
    {
      assert FinalMatchesPlan(db, f);
    }
    forall f | f in db.members
      ensures f !in members
    {
      if f.FinalSnapshot? {
        assert FinalMatchesPlan(db, f);
      }
    }
  }

  lemma NewFinalRows(sources: seq<Source>, plan: PlanId, w: map<UserId, Source>, minimum: int)
    ensures var rows := NewFinals(sources, SegmentsOf(sources), plan, w, minimum);
            && (forall f <- rows ::
                  f.FinalSnapshot? && f.plan == plan && f.segment in SegmentsOf(sources))
            && (forall s <- SegmentsOf(sources) ::
                  var f := FinalSnapshot(plan, s);
                  && f in rows && rows[f].segment == s && rows[f].plan == plan
                  && rows[f].source in SourceIds(sources)
                  && rows[f].userCount == |SegmentUsers(w, s)|)
  {
  }

  lemma NewMemberRows(db: Db, segments: set<SegmentId>, plan: PlanId, w: map<UserId, Source>)
    requires forall u <- w :: u in SourceMembers(db, w[u])
    ensures var rows := NewMembers(db, segments, plan, w);
            && (forall f <- rows :: f.FinalSnapshot? && f.plan == plan && f.segment in segments)
            && (forall s <- segments ::
                  var f := FinalSnapshot(plan, s);
                  f in rows && rows[f].Keys == SegmentUsers(w, s))
  {
  }

  lemma WinnersOfReady(db: Db, analysis: AnalysisId, sources: seq<Source>)
    requires Ready(db, sources)
    ensures var c := WriteFor(db, analysis, sources);
            && c.w != map[]
            && forall u <- c.w :: c.w[u].segment in c.segments && !Excluded(db, u)
  {
    var w := Winners(db, sources);
    var s :| s in SegmentsOf(sources);
    var u :| u in SegmentUsers(w, s);
    forall u | u in w
      ensures w[u].segment in SegmentsOf(sources) && !Excluded(db, u)
    {
      assert u in Pool(db, sources);
    }
  }

  /** On a reachable ledger the upsert refuses nobody, and the commit is exactly `Wrote`. */
  lemma CommitWrites(db: Db, analysis: AnalysisId, minimum: int, batch: AnalysisId,
                     sources: seq<Source>)
    requires Inv(db) && Ready(db, sources)
    ensures !Refused(BeforeReserve(db, analysis, minimum, batch, sources), Winners(db, sources))
    ensures Wrote(db, Commit(db, analysis, minimum, batch, sources),
                  WriteFor(db, analysis, sources))
  {
    var ready := BeforeReserve(db, analysis, minimum, batch, sources);
    var c := WriteFor(db, analysis, sources);
    BeforeReserveTargets(db, analysis, minimum, batch, sources);
    WinnersOfReady(db, analysis, sources);
    WinnersUpsertable(db, ready, c);
    UnrefusedCommitWrites(db, analysis, minimum, batch, sources);
  }

  /** On any tables, a commit that the upsert lets through is exactly `Wrote`. */
  lemma UnrefusedCommitWrites(db: Db, analysis: AnalysisId, minimum: int, batch: AnalysisId,
                              sources: seq<Source>)
    requires FinalsMatchPlans(db) && Ready(db, sources)
    requires !Refused(BeforeReserve(db, analysis, minimum, batch, sources), Winners(db, sources))
    ensures Wrote(db, Commit(db, analysis, minimum, batch, sources),
                  WriteFor(db, analysis, sources))
  {
    var ready := BeforeReserve(db, analysis, minimum, batch, sources);
    var c := WriteFor(db, analysis, sources);
    BeforeReserveTargets(db, analysis, minimum, batch, sources);
    BeforeReservePlan(db, analysis, minimum, batch, sources);
    BeforeReserveFinals(db, analysis, minimum, batch, sources);
    WinnersOfReady(db, analysis, sources);
    assert ready.ledger == db.ledger;
    ReserveWrites(db, ready, c);
  }

  lemma ReserveWrites(db: Db, ready: Db, c: Write)
    requires WroteTargets(db, ready, c) && WrotePlan(db, ready, c) && WroteFinals(db, ready, c)
    requires RunsSame(db, ready) && ready.ledger == db.ledger
    requires c.w != map[]
    requires forall u <- c.w ::
               c.w[u].segment in c.segments && !Excluded(db, u) && Upsertable(ready, u)
    ensures Wrote(db, Reserve(ready, c.analysis, c.plan, c.w), c)
  {
    var next := Reserve(ready, c.analysis, c.plan, c.w);
    OnlyLedgerMoved(db, ready, next, c);
    LedgerAfterReserve(ready, c);
  }

  lemma LedgerAfterReserve(ready: Db, c: Write)
    requires forall u <- c.w :: Upsertable(ready, u)
    ensures var next := Reserve(ready, c.analysis, c.plan, c.w);
            && next == ready.(ledger := next.ledger)
            && next.ledger.Keys == ready.ledger.Keys + c.w.Keys
            && (forall u <- c.w ::
                  next.ledger[u]
                  == ReservedRow(c.analysis, c.w[u].segment, c.plan, ready.revision))
            && (forall u <- ready.ledger :: u !in c.w ==> next.ledger[u] == ready.ledger[u])
  {
    var next := Reserve(ready, c.analysis, c.plan, c.w);
    assert next.ledger.Keys == ready.ledger.Keys + c.w.Keys;
  }

  lemma OnlyLedgerMoved(db: Db, ready: Db, next: Db, c: Write)
    requires next == ready.(ledger := next.ledger)
    requires WroteTargets(db, ready, c) && WroteFinals(db, ready, c)
    ensures WroteTargets(db, next, c) && WroteFinals(db, next, c)
    ensures WrotePlan(db, ready, c) ==> WrotePlan(db, next, c)
  {
    forall f | f in next.finals && f !in db.finals
      ensures NewFinal(next, f, c)
    {
      assert NewFinal(ready, f, c);
    }
    forall s | s in c.segments
      ensures NewFinal(next, FinalSnapshot(c.plan, s), c)
    {
      assert NewFinal(ready, FinalSnapshot(c.plan, s), c);
    }
  }

  // ---------------------------------------------------------------------------
  // Confirmation as a whole
  // ---------------------------------------------------------------------------

  /** The reservation tables: everything but the preview payloads. */
  ghost predicate SameReservations(a: Db, b: Db) {
    a == b.(previews := a.previews)
  }

  lemma PreviewsAreInert(a: Db, b: Db)
    requires SameReservations(a, b)
    ensures TargetsWellBound(a) ==> TargetsWellBound(b)
    ensures PlansComplete(a) ==> PlansComplete(b)
    ensures StatesAgree(a) ==> StatesAgree(b)
    ensures BindingsJoin(a) ==> BindingsJoin(b)
    ensures RevisionCounts(a) ==> RevisionCounts(b)
  {
    assert forall p <- b.plans :: PlanComplete(a, p) ==> PlanComplete(b, p);
  }

  lemma PreviewsAreInertToMembers(a: Db, b: Db)
    requires SameReservations(a, b)
    ensures FinalsMatchPlans(a) ==> FinalsMatchPlans(b)
    ensures Covered(a) ==> Covered(b)
  {
    assert forall f <- b.finals :: FinalMatchesPlan(a, f) ==> FinalMatchesPlan(b, f);
    assert forall k <- b.targets :: Holds(a, k) == Holds(b, k);
  }

  lemma PreviewsAreInertToLedger(a: Db, b: Db)
    requires SameReservations(a, b)
    ensures LedgerJoined(a) <==> LedgerJoined(b)
  {
    assert forall u <- b.ledger :: RowJoined(a, u, a.ledger[u]) <==> RowJoined(b, u, b.ledger[u]);
  }

  lemma InvIgnoresPreviews(a: Db, b: Db)
    requires SameReservations(a, b)
    ensures Inv(a) <==> Inv(b)
  {
    PreviewsAreInert(a, b);
    PreviewsAreInert(b, a);
    PreviewsAreInertToMembers(a, b);
    PreviewsAreInertToMembers(b, a);
    PreviewsAreInertToLedger(a, b);
  }
}
