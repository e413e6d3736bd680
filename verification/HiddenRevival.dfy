/**
 Where saving target rows hides users from the projection although the ledger survives it: segments 1
 and 2 are confirmed for users 5 and 6, the first target is stopped, a load projects the release of
 user 5, the first confirmation is repeated, and the save that follows revives its target. User 5 is
 excluded again by the old ledger row, against which the newer projected release wins.
 */
module HiddenRevival {
  import opened Wrappers
  import opened AudienceTables
  import opened AllocationProtocol
  import opened AllocationInvariant
  import opened ConfirmTheorems
  import opened CoherentInvariant
  import opened ReservationRuns
  import opened ProjectionProtocol
  import opened ExclusionProjection
  import opened StalledProjection
  import opened SoloConfirmations
  import opened TargetUpserts
  import opened SavedProjection
  import opened ReleaseUndercounts
  import RevivedTarget

  const CONFIRMED_ONE := ONE.Confirmed(STORED)
  const CONFIRMED_BOTH := TWO.Confirmed(CONFIRMED_ONE)

  /** The steps lead from empty stores to these, which are consistent and have only joined rows. */
  ghost predicate Reached(steps: seq<WholeStep>, s: System) {
    && WholeRun(EMPTY_SYSTEM, 3, steps) && WholeAfter(EMPTY_SYSTEM, 3, steps) == s
    && Mirrored(s) && Inv(s.db)
  }

  lemma ReachedInitially()
    ensures Reached([], EMPTY_SYSTEM)
  {
    InitiallyCoherent();
    InitialInv();
    TracksInitially();
  }

  /** One more transaction: it is not stopped by its load. */
  lemma LedgerStepReaches(steps: seq<WholeStep>, s: System, step: Step, after: Db)
    returns (more: seq<WholeStep>, next: System)
    requires Reached(steps, s) && Permitted(s.db, 3, step) && Binds(s.db, 3, step)
    requires Next(s.db, 3, step) == after
    ensures more == steps + [Move(LedgerStep(step))] && next == LoadingNext(s, 3, step)
    ensures Reached(more, next) && next.db == after
  {
    more, next := steps + [Move(LedgerStep(step))], LoadingNext(s, 3, step);
    assert more[..|steps|] == steps;
    LoadingIsTransparent(s, 3, step);
    StepKeepsInvIff(s.db, 3, step);
    SystemStepKeeps(s, 3, LedgerStep(step));
  }

  lemma LoadReaches(steps: seq<WholeStep>, s: System) returns (more: seq<WholeStep>, next: System)
    requires Reached(steps, s)
    ensures more == steps + [Move(WholeLoad)] && next == System(s.db, Load(s.db, s.p).0)
    ensures Reached(more, next)
  {
    more, next := steps + [Move(WholeLoad)], System(s.db, Load(s.db, s.p).0);
    assert more[..|steps|] == steps;
    SystemStepKeeps(s, 3, WholeLoad);
  }

  lemma ConfirmedOneIsReached() returns (steps: seq<WholeStep>, s: System)
    ensures Reached(steps, s) && s.db == CONFIRMED_ONE
  {
    ReachedInitially();
    StoringIsSurrounding();
    steps, s := LedgerStepReaches([], EMPTY_SYSTEM, SurroundingStep(STORED), STORED);
    FirstConfirms();
    steps, s := LedgerStepReaches(steps, s, ConfirmStep(ONE.Request()), CONFIRMED_ONE);
  }

  lemma SecondCommits()
    ensures CommitsFresh(CONFIRMED_ONE, 3, TWO.Request())
  {
    SecondIsClear();
    SoloConfirms(CONFIRMED_ONE, TWO);
  }

  /** The second confirmation leaves a projection that lags behind the ledger. */
  lemma ConfirmedBothIsReached() returns (steps: seq<WholeStep>, s: System)
    ensures Reached(steps, s) && s.db == CONFIRMED_BOTH && Behind(s.db, s.p)
  {
    steps, s := ConfirmedOneIsReached();
    SecondConfirms();
    SecondCommits();
    LoadReturns(s.db, s.p);
    ConfirmLeavesBehind(s, 3, TWO.Request());
    steps, s := LedgerStepReaches(steps, s, ConfirmStep(TWO.Request()), CONFIRMED_BOTH);
  }

  lemma StopIsPermitted(p: Projection)
    requires Behind(CONFIRMED_BOTH, p)
    ensures Surrounding(CONFIRMED_BOTH, STOPPED_ONE) && Behind(STOPPED_ONE, p)
  {
    BothConfirmed();
    StoppingLeadsThere(CONFIRMED_BOTH);
  }

  lemma StopReaches(steps: seq<WholeStep>, s: System, after: Db)
    returns (more: seq<WholeStep>, next: System)
    requires Reached(steps, s) && Surrounding(s.db, after)
    ensures Reached(more, next) && next == System(after, s.p)
  {
    more, next := LedgerStepReaches(steps, s, SurroundingStep(after), after);
  }

  lemma StoppedIsReached() returns (steps: seq<WholeStep>, s: System)
    ensures Reached(steps, s) && s.db == STOPPED_ONE && Behind(s.db, s.p)
  {
    var before, both := ConfirmedBothIsReached();
    StopIsPermitted(both.p);
    steps, s := StopReaches(before, both, STOPPED_ONE);
  }

  lemma StoppedUserJoins()
    ensures 5 in JoinedUsers(STOPPED_ONE) && SyncRow(STOPPED_ONE, 5) == ProjectedRow(Released, 2)
  {
    assert Joined(STOPPED_ONE, STOPPED_ONE.ledger[5]) && !TargetActive(STOPPED_ONE, FIRST_KEY);
  }

  /** A load that lags behind projects the release of user 5 at the current revision. */
  lemma LoadProjectsRelease(p: Projection)
    requires Tracks(STOPPED_ONE, p) && Behind(STOPPED_ONE, p)
    ensures Hidden(System(STOPPED_ONE, Load(STOPPED_ONE, p).0), 5)
  {
    StoppedUserJoins();
    SyncActiveIsActive(STOPPED_ONE);
    assert 5 in p.rows ==> RowTracks(STOPPED_ONE, 5, p.rows[5]);
  }

  /** Then the first confirmation is repeated: it answers from its plan and loads nothing. */
  lemma RepeatedIsReached() returns (steps: seq<WholeStep>, s: System)
    ensures Reached(steps, s) && s.db == STOPPED_ONE && Hidden(s, 5)
    ensures |steps| > 0 && steps[|steps| - 1] == Move(LedgerStep(ConfirmStep(ONE.Request())))
  {
    steps, s := StoppedIsReached();
    LoadProjectsRelease(s.p);
    steps, s := LoadReaches(steps, s);
    StoppedHasBoth();
    RevivedTarget.RepeatAnswers(STOPPED_ONE);
    OnlyLoadsCommit(STOPPED_ONE, 3, ONE.Request());
    RepeatBinds(STOPPED_ONE);
    steps, s := LedgerStepReaches(steps, s, ConfirmStep(ONE.Request()), STOPPED_ONE);
  }

  lemma StoppedHasBoth()
    ensures RevivedTarget.BothStored(STOPPED_ONE)
  {
  }

  lemma RepeatBinds(db: Db)
    requires !ReachesLoad(db, 3, ONE.Request())
    ensures Binds(db, 3, ConfirmStep(ONE.Request()))
  {
    if CommitsFresh(db, 3, ONE.Request()) {
      FreshReachesLoad(db, 3, ONE.Request());
    }
  }

  lemma RevivedUserIsExcluded()
    ensures var next := SaveTarget(STOPPED_ONE, FIRST_KEY, Some(FIRST));
            && Excluded(next, 5) && Harmless(STOPPED_ONE, FIRST_KEY, Some(FIRST))
            && next.ledger == STOPPED_ONE.ledger
    ensures 5 in Revived(STOPPED_ONE, FIRST_KEY, Some(FIRST))
  {
    assert MembersOf(STOPPED_ONE, FIRST_SNAPSHOT).Keys == {5};
    assert STOPPED_ONE.ledger[5].target == FIRST_KEY;
  }

  /**
   A run from empty stores whose last steps are a repeated confirmation and the save of its answer,
   harmless for the ledger, after which the next load returns without showing the revived user.
   */
  lemma RevivalHidesUser() returns (steps: seq<WholeStep>)
    ensures WholeRun(EMPTY_SYSTEM, 3, steps) && |steps| >= 2
    ensures steps[|steps| - 2] == Move(LedgerStep(ConfirmStep(ONE.Request())))
    ensures steps[|steps| - 1] == Save(FIRST_KEY, Some(FIRST))
    ensures Harmless(WholeAfter(EMPTY_SYSTEM, 3, steps[..|steps| - 1]).db, FIRST_KEY, Some(FIRST))
    ensures var s := WholeAfter(EMPTY_SYSTEM, 3, steps);
            && Load(s.db, s.p).1 == Loaded(Reload(s.db)) && 5 in ActiveUsers(s.db)
            && 5 !in ProjectedActive(Load(s.db, s.p).0.rows)
  {
    var before, s := RepeatedIsReached();
    StoppedHasBoth();
    RevivedTarget.FirstIsAllocated(STOPPED_ONE);
    RevivedUserIsExcluded();
    steps := before + [Save(FIRST_KEY, Some(FIRST))];
    assert steps[..|before|] == before;
    HiddenIsNotShown(System(SaveTarget(STOPPED_ONE, FIRST_KEY, Some(FIRST)), s.p), 5);
  }
}
