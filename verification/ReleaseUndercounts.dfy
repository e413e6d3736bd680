/**
 Where a release reports the wrong number of excluded users: it subtracts every reserved row of
 the plan from the active count, although the rows of a stopped target were not counted as active.
 */
module ReleaseUndercounts {
  import opened Wrappers
  import opened AudienceTables
  import opened AllocationProtocol
  import opened AllocationInvariant
  import opened ReleaseInvariant
  import opened CoherentInvariant
  import opened ReservationRuns
  import opened SoloConfirmations

  /** Segment 1 is confirmed for user 5 and segment 2 for user 6. */
  const ONE := Solo(10, 1, 7, 5)
  const TWO := Solo(11, 2, 8, 6)

  const FIRST := PlanId({7}, {1}, 0)
  const SECOND := PlanId({8}, {2}, 1)
  const FIRST_SNAPSHOT := FinalSnapshot(FIRST, 1)
  const SECOND_SNAPSHOT := FinalSnapshot(SECOND, 2)
  const FIRST_KEY := TargetKey(10, 1)
  const SECOND_KEY := TargetKey(11, 2)

  const STORED := Db(
    map[], map[], map[], map[],
    map[SourceSnapshot(7) := ONE.Audience(), SourceSnapshot(8) := TWO.Audience()],
    map[], map[], 0, {1, 2}, map[], map[])

  /** Both are confirmed; then the first target is stopped. */
  const STOPPED_ONE := Db(
    map[5 := LedgerRow(FIRST_KEY, FIRST, FIRST_SNAPSHOT, Reserved, 1),
        6 := LedgerRow(SECOND_KEY, SECOND, SECOND_SNAPSHOT, Reserved, 2)],
    map[FIRST_KEY := Target(true, Some(FIRST_SNAPSHOT), Some(FIRST), Some(Reserved)),
        SECOND_KEY := Target(false, Some(SECOND_SNAPSHOT), Some(SECOND), Some(Reserved))],
    map[FIRST := Plan(10, 20, {1}, 1, Finalized), SECOND := Plan(11, 20, {2}, 2, Finalized)],
    map[FIRST_SNAPSHOT := FinalRow(1, 7, FIRST, 1, true, Targetable),
        SECOND_SNAPSHOT := FinalRow(2, 8, SECOND, 1, true, Targetable)],
    map[SourceSnapshot(7) := ONE.Audience(), SourceSnapshot(8) := TWO.Audience(),
        FIRST_SNAPSHOT := ONE.Audience(), SECOND_SNAPSHOT := TWO.Audience()],
    map[], map[], 2, {1, 2}, map[], map[20 := []])

  // ---------------------------------------------------------------------------
  // The state is reached
  // ---------------------------------------------------------------------------

  lemma FirstConfirms()
    ensures Confirm(STORED, 3, ONE.Request()).0 == ONE.Confirmed(STORED)
    ensures Binds(STORED, 3, ConfirmStep(ONE.Request()))
  {
    SoloConfirms(STORED, ONE);
  }

  lemma SecondIsClear()
    ensures Clear(ONE.Confirmed(STORED), TWO)
  {
    var db := ONE.Confirmed(STORED);
    assert db.finals.Keys == {FIRST_SNAPSHOT} && db.finals[FIRST_SNAPSHOT].source == 7;
    assert SourceIds([TWO.Source()]) == {8} by {
      assert TWO.Source() in [TWO.Source()];
    }
    assert TWO.Plan(db).revision == 1 && db.plans.Keys == {FIRST};
  }

  lemma SecondConfirms()
    ensures Confirm(ONE.Confirmed(STORED), 3, TWO.Request()).0 == TWO.Confirmed(ONE.Confirmed(STORED))
    ensures Binds(ONE.Confirmed(STORED), 3, ConfirmStep(TWO.Request()))
  {
    SecondIsClear();
    SoloConfirms(ONE.Confirmed(STORED), TWO);
  }

  lemma StoringIsSurrounding()
    ensures Permitted(EMPTY_DB, 3, SurroundingStep(STORED))
  {
  }

  /** All but the first target's status. */
  lemma BothConfirmed()
    ensures TWO.Confirmed(ONE.Confirmed(STORED))
         == STOPPED_ONE.(targets := STOPPED_ONE.targets[
                           FIRST_KEY := STOPPED_ONE.targets[FIRST_KEY].(stopped := false)])
  {
  }

  lemma StoppingIsSurrounding(db: Db)
    requires FIRST_KEY in db.targets && !db.targets[FIRST_KEY].stopped
    ensures var stopped := db.targets[FIRST_KEY := db.targets[FIRST_KEY].(stopped := true)];
            Surrounding(db, db.(targets := stopped))
  {
  }

  lemma BothAreReached() returns (steps: seq<Step>)
    ensures LeadsTo(steps, TWO.Confirmed(ONE.Confirmed(STORED)))
  {
    StoringIsSurrounding();
    StepLeadsTo([], EMPTY_DB, SurroundingStep(STORED), STORED);
    var stored := [] + [SurroundingStep(STORED)];
    FirstConfirms();
    StepLeadsTo(stored, STORED, ConfirmStep(ONE.Request()), ONE.Confirmed(STORED));
    var once := stored + [ConfirmStep(ONE.Request())];
    SecondConfirms();
    StepLeadsTo(once, ONE.Confirmed(STORED), ConfirmStep(TWO.Request()),
                TWO.Confirmed(ONE.Confirmed(STORED)));
    steps := once + [ConfirmStep(TWO.Request())];
  }

  lemma StoppingLeadsThere(db: Db)
    requires db == STOPPED_ONE.(targets := STOPPED_ONE.targets[
                                  FIRST_KEY := STOPPED_ONE.targets[FIRST_KEY].(stopped := false)])
    ensures Surrounding(db, STOPPED_ONE)
  {
    StoppingIsSurrounding(db);
    assert db.targets[FIRST_KEY := db.targets[FIRST_KEY].(stopped := true)] == STOPPED_ONE.targets;
  }

  /** Storing the snapshots, two confirmations and stopping the first target lead there. */
  lemma StoppedOneIsReached() returns (steps: seq<Step>)
    ensures LeadsTo(steps, STOPPED_ONE)
  {
    var twice := BothAreReached();
    BothConfirmed();
    StoppingLeadsThere(TWO.Confirmed(ONE.Confirmed(STORED)));
    StepLeadsTo(twice, TWO.Confirmed(ONE.Confirmed(STORED)), SurroundingStep(STOPPED_ONE),
                STOPPED_ONE);
    steps := twice + [SurroundingStep(STOPPED_ONE)];
  }

  lemma StoppedOneKeepsInv()
    ensures Inv(STOPPED_ONE)
  {
    var steps := StoppedOneIsReached();
    InitialInv();
    RunKeepsInv(EMPTY_DB, 3, steps);
  }

  lemma StoppedOneIsCoherent()
    ensures Coherent(STOPPED_ONE)
  {
    var steps := StoppedOneIsReached();
    InitiallyCoherent();
    RunKeepsCoherent(EMPTY_DB, 3, steps);
  }

  // ---------------------------------------------------------------------------
  // What a release then reports
  // ---------------------------------------------------------------------------

  lemma StoppedOneActive()
    ensures ActiveUsers(STOPPED_ONE) == {6}
    ensures PlanRows(STOPPED_ONE, FIRST, None, Reserved) == {5}
  {
    assert !Excluded(STOPPED_ONE, 5) && Excluded(STOPPED_ONE, 6);
    assert FIRST != SECOND by {
      assert FIRST.revision != SECOND.revision;
    }
  }

  lemma StoppedOneReleasable()
    ensures Releasable(STOPPED_ONE, FIRST_KEY, true)
  {
    assert PlanRows(STOPPED_ONE, FIRST, None, Consumed) == {};
  }

  lemma StoppedOneContext()
    requires Coherent(STOPPED_ONE)
    ensures Releasable(STOPPED_ONE, FIRST_KEY, true)
    ensures ReleaseContext(STOPPED_ONE, FIRST_KEY, true) == Context(3, 0)
    ensures Reload(AfterRelease(STOPPED_ONE, FIRST_KEY, true)) != Context(3, 0)
  {
    StoppedOneReleasable();
    StoppedOneActive();
    assert PlanRows(STOPPED_ONE, FIRST, Scope(FIRST_KEY, true), Reserved) == {5};
    ReleaseContextIff(STOPPED_ONE, FIRST_KEY, true);
  }

  /** Releasing the stopped target reports no excluded users, while a reload still counts user 6. */
  lemma ReleaseReportsTooFew()
    ensures Inv(STOPPED_ONE) && Releasable(STOPPED_ONE, FIRST_KEY, true)
    ensures ReleaseContext(STOPPED_ONE, FIRST_KEY, true) == Context(3, 0)
    ensures Reload(AfterRelease(STOPPED_ONE, FIRST_KEY, true)) != Context(3, 0)
  {
    StoppedOneKeepsInv();
    StoppedOneIsCoherent();
    StoppedOneContext();
  }
}
