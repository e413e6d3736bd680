/**
 Where saving target rows breaks the reservation guarantee: segment 1 is confirmed for user 5 and
 stopped, segment 2 is confirmed for the same user, and the first confirmation is repeated. It
 answers from its stored plan, and the save that follows revives its target.
 */
module RevivedTarget {
  import opened Wrappers
  import opened AudienceTables
  import opened WinnerSelection
  import opened AllocationProtocol
  import opened AllocationInvariant
  import opened ConfirmTheorems
  import opened CoherentInvariant
  import opened ReservationRuns
  import opened RetryTheorems
  import opened SoloConfirmations
  import opened TargetUpserts

  const ONE := Solo(10, 1, 7, 5)
  const TWO := Solo(11, 2, 8, 5)

  const FIRST := PlanId({7}, {1}, 0)
  const SECOND := PlanId({8}, {2}, 1)
  const FIRST_SNAPSHOT := FinalSnapshot(FIRST, 1)
  const SECOND_SNAPSHOT := FinalSnapshot(SECOND, 2)
  const FIRST_KEY := TargetKey(10, 1)
  const SECOND_KEY := TargetKey(11, 2)

  const STORED := Db(
    map[], map[], map[], map[],
    map[SourceSnapshot(7) := ONE.Audience(), SourceSnapshot(8) := TWO.Audience()],
    map[], map[], 0, {1, 2}, map[], map[])

  const CONFIRMED := ONE.Confirmed(STORED)

  /** The first target is stopped, so user 5 is free again. */
  const STOPPED := CONFIRMED.(targets := map[FIRST_KEY := CONFIRMED.targets[FIRST_KEY].(stopped := true)])

  const TAKEN := TWO.Confirmed(STOPPED)

  lemma StoringIsSurrounding()
    ensures Permitted(EMPTY_DB, 3, SurroundingStep(STORED))
  {
  }

  lemma FirstConfirms()
    ensures Confirm(STORED, 3, ONE.Request()).0 == CONFIRMED
    ensures Binds(STORED, 3, ConfirmStep(ONE.Request()))
  {
    SoloConfirms(STORED, ONE);
  }

  lemma StoppingIsSurrounding()
    ensures Permitted(CONFIRMED, 3, SurroundingStep(STOPPED))
  {
  }

  lemma TakingIsClear()
    ensures Clear(STOPPED, TWO) && Upsertable(TWO.Prepared(STOPPED), 5)
  {
    assert STOPPED.finals.Keys == {FIRST_SNAPSHOT} && STOPPED.finals[FIRST_SNAPSHOT].source == 7;
    assert SourceIds([TWO.Source()]) == {8} by {
      assert TWO.Source() in [TWO.Source()];
    }
    assert TWO.Plan(STOPPED).revision == 1 && STOPPED.plans.Keys == {FIRST};
    assert STOPPED.ledger[5].target == FIRST_KEY;
  }

  lemma TakingConfirms()
    ensures Confirm(STOPPED, 3, TWO.Request()).0 == TAKEN
    ensures Binds(STOPPED, 3, ConfirmStep(TWO.Request()))
  {
    TakingIsClear();
    SoloConfirms(STOPPED, TWO);
  }

  lemma ConfirmedIsReached() returns (steps: seq<Step>)
    ensures LeadsTo(steps, CONFIRMED)
  {
    StoringIsSurrounding();
    StepLeadsTo([], EMPTY_DB, SurroundingStep(STORED), STORED);
    var stored := [] + [SurroundingStep(STORED)];
    FirstConfirms();
    StepLeadsTo(stored, STORED, ConfirmStep(ONE.Request()), CONFIRMED);
    steps := stored + [ConfirmStep(ONE.Request())];
  }

  lemma StoppedIsReached() returns (steps: seq<Step>)
    ensures LeadsTo(steps, STOPPED)
  {
    var once := ConfirmedIsReached();
    StoppingIsSurrounding();
    StepLeadsTo(once, CONFIRMED, SurroundingStep(STOPPED), STOPPED);
    steps := once + [SurroundingStep(STOPPED)];
  }

  lemma TakenIsReached() returns (steps: seq<Step>)
    ensures LeadsTo(steps, TAKEN)
  {
    var stopped := StoppedIsReached();
    TakingConfirms();
    StepLeadsTo(stopped, STOPPED, ConfirmStep(TWO.Request()), TAKEN);
    steps := stopped + [ConfirmStep(TWO.Request())];
  }

  function Lifted(steps: seq<Step>): seq<ServiceStep> {
    if steps == [] then []
    else Lifted(steps[..|steps| - 1]) + [Transaction(steps[|steps| - 1])]
  }

  lemma {:induction false} TransactionsAreServiceRun(db: Db, limit: nat, steps: seq<Step>)
    requires PermittedRun(db, limit, steps)
    ensures ServiceRun(db, limit, Lifted(steps))
    ensures ServiceAfter(db, limit, Lifted(steps)) == After(db, limit, steps)
  {
    if steps != [] {
      var front := steps[..|steps| - 1];
      TransactionsAreServiceRun(db, limit, front);
      assert Lifted(steps)[..|Lifted(front)|] == Lifted(front);
    }
  }

  // ---------------------------------------------------------------------------
  // The repeated confirmation
  // ---------------------------------------------------------------------------

  /** Both plans are stored and live, the first for analysis 10 and the second for analysis 11. */
  predicate BothStored(db: Db) {
    && db.finals.Keys == {FIRST_SNAPSHOT, SECOND_SNAPSHOT}
    && FIRST in db.plans && db.plans[FIRST] == Plan(10, 20, {1}, 1, Finalized)
    && SECOND in db.plans && db.plans[SECOND].target == 11
    && db.finals[FIRST_SNAPSHOT] == FinalRow(1, 7, FIRST, 1, true, Targetable)
    && db.finals[SECOND_SNAPSHOT].plan == SECOND
    && MembersOf(db, SourceSnapshot(7)) == ONE.Audience()
  }

  /** Of the two final snapshots only the first is of analysis 10. */
  lemma OneRow(db: Db)
    requires BothStored(db)
    ensures RetryRows(db, 10, [ONE.Source()]) == {FIRST_SNAPSHOT}
    ensures RowsStored(db, {FIRST_SNAPSHOT})
  {
    assert ONE.Source() in [ONE.Source()];
    assert SourceIds([ONE.Source()]) == {7} && SegmentsOf([ONE.Source()]) == {1};
    assert RetryRow(db, FIRST_SNAPSHOT, 10, [ONE.Source()]);
    assert !RetryRow(db, SECOND_SNAPSHOT, 10, [ONE.Source()]);
  }

  lemma OneRowAnswer(db: Db)
    requires RowsStored(db, {FIRST_SNAPSHOT}) && db.finals[FIRST_SNAPSHOT].segment == 1
    ensures StoredResult(db, {FIRST_SNAPSHOT}).allocations.Keys == {1}
    ensures StoredResult(db, {FIRST_SNAPSHOT}).allocations[1].snapshot == FIRST_SNAPSHOT
  {
  }

  lemma TakenTables()
    ensures BothStored(TAKEN)
  {
  }

  /** The repeated confirmation answers with the first plan's snapshot for segment 1. */
  lemma RepeatAnswers(db: Db)
    requires BothStored(db)
    ensures var r := Confirm(db, 3, ONE.Request());
            && r.0 == db && r.1.Done? && r.1.value.allocations.Keys == {1}
            && r.1.value.allocations[1].snapshot == FIRST_SNAPSHOT
    ensures !ReachesLoad(db, 3, ONE.Request())
  {
    RepeatLoads(db);
    OneRow(db);
    OneRowAnswer(db);
    RetryPath(db, 3, ONE.Request(), [ONE.Source()], {FIRST_SNAPSHOT});
  }

  lemma RepeatLoads(db: Db)
    requires MembersOf(db, SourceSnapshot(7)) == ONE.Audience()
    ensures StillLoads(db, 3, ONE.Request(), [ONE.Source()])
  {
    SoloLoads(db, ONE);
    assert Batches([ONE.Source()]) == {20};
  }

  // ---------------------------------------------------------------------------
  // The save
  // ---------------------------------------------------------------------------

  const REVIVED := SaveTarget(TAKEN, FIRST_KEY, Some(FIRST))

  lemma RevivalHarms()
    ensures !Harmless(TAKEN, FIRST_KEY, Some(FIRST))
    ensures FIRST_KEY in REVIVED.targets && Holds(REVIVED, FIRST_KEY)
    ensures SECOND_KEY in REVIVED.targets && Holds(REVIVED, SECOND_KEY)
    ensures 5 in MembersOf(REVIVED, FIRST_SNAPSHOT) && 5 in MembersOf(REVIVED, SECOND_SNAPSHOT)
    ensures REVIVED.targets[FIRST_KEY].snapshot == Some(FIRST_SNAPSHOT)
    ensures REVIVED.targets[SECOND_KEY].snapshot == Some(SECOND_SNAPSHOT)
  {
    assert TAKEN.ledger[5].target == SECOND_KEY;
  }

  lemma SharedUserIsUnsafe()
    ensures !Safe(REVIVED)
  {
    RevivalHarms();
  }

  /**
   A run from empty tables after which two live targets have the same user, although every
   transaction of it is permitted and what it saves is the answer of its last confirmation.
   */
  lemma RevivalIsReached() returns (steps: seq<ServiceStep>)
    ensures ServiceRun(EMPTY_DB, 3, steps) && !Safe(ServiceAfter(EMPTY_DB, 3, steps))
    ensures |steps| >= 2 && steps[|steps| - 2] == Transaction(ConfirmStep(ONE.Request()))
    ensures steps[|steps| - 1] == SaveRow(FIRST_KEY, Some(FIRST))
  {
    var taken := TakenIsReached();
    TakenTables();
    RepeatAnswers(TAKEN);
    OneMoreStep(taken, TAKEN, ConfirmStep(ONE.Request()), TAKEN);
    var repeated := taken + [ConfirmStep(ONE.Request())];
    TransactionsAreServiceRun(EMPTY_DB, 3, repeated);
    assert repeated[..|taken|] == taken;
    steps := Lifted(repeated) + [SaveRow(FIRST_KEY, Some(FIRST))];
    assert steps[..|Lifted(repeated)|] == Lifted(repeated);
    FirstIsAllocated(TAKEN);
    SharedUserIsUnsafe();
  }

  lemma OneMoreStep(steps: seq<Step>, before: Db, step: Step, after: Db)
    requires LeadsTo(steps, before) && Permitted(before, 3, step) && Next(before, 3, step) == after
    ensures PermittedRun(EMPTY_DB, 3, steps + [step]) && After(EMPTY_DB, 3, steps + [step]) == after
  {
    assert (steps + [step])[..|steps|] == steps;
  }

  lemma FirstIsAllocated(db: Db)
    requires BothStored(db)
    ensures Allocated(db, FIRST_KEY, FIRST)
  {
  }
}
