/**
 Confirmations of one segment whose source snapshot holds one user, worked out in full: the steps
 that the concrete runs of the counterexamples are made of.
 */
module SoloConfirmations {
  import opened Wrappers
  import opened AudienceTables
  import opened WinnerSelection
  import opened AllocationProtocol
  import opened AllocationInvariant
  import opened ConfirmTheorems
  import opened ReservationRuns

  datatype Solo = Solo(analysis: AnalysisId, segment: SegmentId, snapshot: nat, user: UserId)
  {
    function Key(): TargetKey {
      TargetKey(analysis, segment)
    }

    function Audience(): map<UserId, Fit> {
      map[user := Some(1.0)]
    }

    function Source(): Source {
      AudienceTables.Source(snapshot, segment, 20, IntentMatched, 0.0, 1.0, 1)
    }

    function Request(): Request {
      AllocationProtocol.Request(analysis, [segment], 1,
                                 [SourceRow(snapshot, segment, 20, Some(IntentMatched), 0.0, 1.0, 1, true, 1)])
    }

    function Plan(db: Db): PlanId {
      PlanId({snapshot}, {segment}, db.revision)
    }

    function Final(db: Db): SnapshotId {
      FinalSnapshot(Plan(db), segment)
    }

    /** Everything but the ledger row. */
    function Prepared(db: Db): Db {
      db.(revision := db.revision + 1,
          plans := db.plans[Plan(db) := AudienceTables.Plan(analysis, 20, {segment}, db.revision + 1, Finalized)],
          targets := db.targets[Key() := Target(false, Some(Final(db)), Some(Plan(db)), Some(Reserved))],
          finals := db.finals[Final(db) := FinalRow(segment, snapshot, Plan(db), 1, true, Targetable)],
          members := db.members[Final(db) := Audience()])
    }

    function Row(db: Db): LedgerRow {
      LedgerRow(Key(), Plan(db), Final(db), Reserved, db.revision + 1)
    }

    function Confirmed(db: Db): Db {
      Prepared(db).(ledger := db.ledger[user := Row(db)], previews := db.previews[20 := []])
    }
  }

  /** The user can be allocated and nothing stored stands in the way. */
  ghost predicate Clear(db: Db, x: Solo) {
    && MembersOf(db, SourceSnapshot(x.snapshot)) == x.Audience() && !Excluded(db, x.user)
    && RetryRows(db, x.analysis, [x.Source()]) == {}
    && !ConfirmedElsewhere(db, x.analysis, [x.Source()])
    && !SegmentBusy(db, {x.segment}) && x.Plan(db) !in db.plans
  }

  lemma SoloLoads(db: Db, x: Solo)
    requires MembersOf(db, SourceSnapshot(x.snapshot)) == x.Audience()
    ensures Selected(x.Request()) == {x.segment}
    ensures LoadSources(db, {x.segment}, x.Request().rows) == Done([x.Source()])
  {
    var rows := x.Request().rows;
    ParseSucceeds(rows);
    assert ParseRow(rows[0]) == Done(x.Source());
    assert ParseRows(rows).value == [x.Source()];
    assert x.Audience().Keys == {x.user} && |x.Audience()| == |x.Audience().Keys|;
    assert (set r | r in rows :: r.segment) == {x.segment};
  }

  lemma {:induction false} ParseSucceeds(rows: seq<SourceRow>)
    requires forall row :: row in rows ==> ParseRow(row).Done?
    ensures ParseRows(rows).Done?
  {
    if rows != [] {
      ParseSucceeds(rows[..|rows| - 1]);
      assert rows[|rows| - 1] in rows;
    }
  }

  lemma SoloWins(db: Db, x: Solo)
    requires MembersOf(db, SourceSnapshot(x.snapshot)) == x.Audience() && !Excluded(db, x.user)
    ensures SegmentsOf([x.Source()]) == {x.segment} && SourceIds([x.Source()]) == {x.snapshot}
    ensures Winners(db, [x.Source()]) == map[x.user := x.Source()]
    ensures SegmentUsers(Winners(db, [x.Source()]), x.segment) == {x.user}
    ensures PlanFor(db, [x.Source()]) == x.Plan(db)
  {
    assert x.Source() in [x.Source()];
    assert SourceMembers(db, x.Source()) == x.Audience();
    assert Pool(db, [x.Source()]) == {x.user};
    assert Winners(db, [x.Source()]).Keys == {x.user};
  }

  lemma SoloIsFresh(db: Db, x: Solo)
    requires Clear(db, x)
    ensures Path(db, 3, x.Request()) == Fresh(20, [x.Source()])
  {
    SoloLoads(db, x);
    SoloUnanswered(db, x);
    assert LoadedPath(db, x.analysis, {x.segment}, [x.Source()]) == Fresh(20, [x.Source()]);
  }

  lemma SoloUnanswered(db: Db, x: Solo)
    requires Clear(db, x)
    ensures Batches([x.Source()]) == {20}
    ensures UnansweredPath(db, x.analysis, {x.segment}, [x.Source()]) == Fresh(20, [x.Source()])
  {
    SoloWins(db, x);
    assert Batches([x.Source()]) == {20};
  }

  // ---------------------------------------------------------------------------
  // The writes
  // ---------------------------------------------------------------------------

  lemma SoloTargets(db: Db, x: Solo)
    requires x.segment in db.definitions && x.Key() !in db.targets
    ensures BoundTargets(EnsuredTargets(db.targets, db.definitions, x.analysis, {x.segment}), x.analysis,
                         {x.segment}, x.Plan(db))
         == x.Prepared(db).targets
  {
    var ensured := EnsuredTargets(db.targets, db.definitions, x.analysis, {x.segment});
    assert ensured == db.targets[x.Key() := Target(false, None, None, None)];
  }

  lemma SoloFinals(db: Db, x: Solo, w: map<UserId, Source>)
    requires w == map[x.user := x.Source()] && SegmentsOf([x.Source()]) == {x.segment}
    ensures NewFinals([x.Source()], {x.segment}, x.Plan(db), w, 1)
         == map[x.Final(db) := FinalRow(x.segment, x.snapshot, x.Plan(db), 1, true, Targetable)]
  {
    assert SegmentUsers(w, x.segment) == {x.user};
    assert SourceOf([x.Source()], x.segment) == x.Source();
  }

  lemma SoloMembers(db: Db, x: Solo, w: map<UserId, Source>)
    requires MembersOf(db, SourceSnapshot(x.snapshot)) == x.Audience()
    requires w == map[x.user := x.Source()]
    ensures SourceMembers(db, x.Source()) == x.Audience()
    ensures NewMembers(db, {x.segment}, x.Plan(db), w) == map[x.Final(db) := x.Audience()]
  {
    assert SegmentUsers(w, x.segment) == {x.user};
    assert MembersFor(db, x.segment, w) == x.Audience();
  }

  lemma SoloPrepares(db: Db, x: Solo)
    requires MembersOf(db, SourceSnapshot(x.snapshot)) == x.Audience() && !Excluded(db, x.user)
    requires x.segment in db.definitions && x.Key() !in db.targets
    ensures BeforeReserve(db, x.analysis, 1, 20, [x.Source()]) == x.Prepared(db)
  {
    SoloWins(db, x);
    SoloTargets(db, x);
    SoloFinals(db, x, map[x.user := x.Source()]);
    SoloMembers(db, x, map[x.user := x.Source()]);
    OneMore(db.finals, x.Final(db), FinalRow(x.segment, x.snapshot, x.Plan(db), 1, true, Targetable));
    OneMore(db.members, x.Final(db), x.Audience());
  }

  lemma OneMore<K, V>(m: map<K, V>, k: K, v: V)
    ensures m + map[k := v] == m[k := v]
  {
  }

  lemma SoloReserves(ready: Db, x: Solo, plan: PlanId)
    requires Upsertable(ready, x.user)
    ensures Reserve(ready, x.analysis, plan, map[x.user := x.Source()])
         == ready.(ledger := ready.ledger[x.user := ReservedRow(x.analysis, x.segment, plan, ready.revision)])
    ensures !Refused(ready, map[x.user := x.Source()])
  {
  }

  lemma NothingSuggested(db: Db, limit: nat, exclude: set<SegmentId>)
    requires db.suggestions == map[]
    ensures Refresh(db, limit, 20, exclude) == Done(db.(previews := db.previews[20 := []]))
  {
    assert Candidates(db, 20, exclude) == [];
    assert CombinationsUpTo<Source>([], 0) == [];
  }

  lemma SoloCommits(db: Db, x: Solo)
    requires Clear(db, x) && x.segment in db.definitions && x.Key() !in db.targets
    requires Upsertable(x.Prepared(db), x.user) && db.suggestions == map[]
    ensures ConfirmFresh(db, 3, x.analysis, 1, 20, [x.Source()]).0 == x.Confirmed(db)
    ensures ConfirmFresh(db, 3, x.analysis, 1, 20, [x.Source()]).1.Done?
  {
    SoloWins(db, x);
    SoloPrepares(db, x);
    SoloReserves(x.Prepared(db), x, x.Plan(db));
    NothingSuggested(x.Prepared(db).(ledger := db.ledger[x.user := x.Row(db)]), 3, {x.segment});
  }

  /** The whole confirmation of a new target, and that its target row could be bound. */
  lemma SoloConfirms(db: Db, x: Solo)
    requires Clear(db, x) && x.segment in db.definitions && x.Key() !in db.targets
    requires Upsertable(x.Prepared(db), x.user) && db.suggestions == map[]
    ensures CommitsFresh(db, 3, x.Request()) && Confirm(db, 3, x.Request()).0 == x.Confirmed(db)
    ensures Binds(db, 3, ConfirmStep(x.Request()))
  {
    SoloIsFresh(db, x);
    SoloCommits(db, x);
    SoloLoads(db, x);
    FreshIsActed(db, 3, x.Request());
  }

  // ---------------------------------------------------------------------------
  // Concrete runs
  // ---------------------------------------------------------------------------

  /** The steps are a run from empty tables to these, all of whose confirmations bind their targets. */
  ghost predicate LeadsTo(steps: seq<Step>, db: Db) {
    && PermittedRun(EMPTY_DB, 3, steps) && BindingRun(EMPTY_DB, 3, steps)
    && After(EMPTY_DB, 3, steps) == db
  }

  lemma StepLeadsTo(steps: seq<Step>, before: Db, step: Step, after: Db)
    requires LeadsTo(steps, before)
    requires Permitted(before, 3, step) && Binds(before, 3, step) && Next(before, 3, step) == after
    ensures LeadsTo(steps + [step], after)
  {
    assert (steps + [step])[..|steps|] == steps;
  }
}
