/**
 Every interleaving of reservations, attempts, failures and crashes on one journal. Attempts exclude
 each other by a lock, but a reservation reads the journal, writes it and only then takes the lock,
 so other processes may act in between. A process may die between any two effects; what it leaves is
 the disk.
 */
module SealedRuns {
  import opened Wrappers
  import opened SealedExecution

  /**
   Where the driver stands: the next effect it will perform. A publication has read the journal
   before its rename and writes it afterwards.
   */
  datatype Phase =
    | Preparing | Evaluating | MakingDirectory | Writing | Moving | Recording(current: Journal)

  /** The attempt that holds the lock; `resumed` took the staged result over from an earlier one. */
  datatype Process = Process(pid: nat, phase: Phase, hasOpened: bool, resumed: bool)

  /** A reservation that has read the journal and decided what to write, or that has written it. */
  datatype Reservation = Decided(read: JournalFile, decision: Journal) | Waiting(written: Journal)

  /**
   The disk, the running attempt, the reservations on their way, and logs: the processes started,
   the process of every entry into the opened status, the process of every outcome read, and the
   directory at the time it was staged.
   */
  datatype World = World(disk: Disk, process: Option<Process>, pending: map<nat, Reservation>,
                         started: set<nat>, openings: seq<nat>, readers: seq<nat>,
                         result: Option<Directory>)

  const START := World(Disk(Absent, None, None), None, map[], {}, [], [], None)

  datatype Step =
    | ReadJournal(pid: nat, req: Request, freshId: nat)
    | WriteJournal(pid: nat)
    | TornWrite(pid: nat)
    | TakeLock(pid: nat)
    | Abandon(pid: nat)
    | RemoveSome(names: set<FileName>)
    | Prepare
    | OpenOutcomes
    | ReadOutcome
    | FinishEvaluation
    | MakeDirectory
    | WriteFile(name: FileName, text: nat)
    | StageResult
    | Move
    | Record
    | Fail(cause: nat)
    | Crash

  // ---------------------------------------------------------------------------
  // Reservations
  // ---------------------------------------------------------------------------

  function Read(w: World, pid: nat, req: Request, freshId: nat): World {
    var decision := ReserveDecision(w.disk, req, freshId);
    if pid in w.started || decision.Raised? then w
    else
      w.(started := w.started + {pid},
         pending := w.pending[pid := Decided(w.disk.journal, decision.value)])
  }

  function Gone(w: World, pid: nat): World {
    w.(pending := w.pending - {pid})
  }

  /** A first journal is created exclusively; a later one replaces whatever is there by then. */
  function Write(w: World, pid: nat): World {
    if pid !in w.pending || !w.pending[pid].Decided? then w
    else if w.pending[pid].read.Absent? && !w.disk.journal.Absent? then Gone(w, pid)
    else
      var j := w.pending[pid].decision;
      w.(disk := WithJournal(w.disk, j), pending := w.pending[pid := Waiting(j)])
  }

  /** A crash in the middle of the exclusive first write. */
  function Tear(w: World, pid: nat): World {
    if pid in w.pending && w.pending[pid].Decided? && w.disk.journal.Absent? then
      Gone(w, pid).(disk := w.disk.(journal := Torn))
    else w
  }

  /** The lock does not wait: a reservation that finds it taken gives up. */
  function Lock(w: World, pid: nat): World {
    if pid !in w.pending || !w.pending[pid].Waiting? then w
    else if w.process.Some? then Gone(w, pid)
    else
      var staged := w.pending[pid].written.status == ResultStaged;
      Gone(w, pid).(process :=
        Some(Process(pid, if staged then Moving else Preparing, false, staged)))
  }

  // ---------------------------------------------------------------------------
  // The attempt
  // ---------------------------------------------------------------------------

  function Stop(w: World): World {
    w.(process := None)
  }

  /** An exception inside the guarded part of the driver is recorded in the journal. */
  function Failed(w: World, p: Process, cause: nat): World {
    if p.phase == Preparing || p.resumed then Stop(w)
    else
      var marked := FailureMark(w.disk, cause);
      Stop(if marked.Done? then w.(disk := marked.value) else w)
  }

  function InPhase(w: World, p: Process, phase: Phase): World {
    w.(process := Some(p.(phase := phase)))
  }

  function Open(w: World, p: Process): World {
    var effect := Opening(w.disk);
    if effect.Raised? then Failed(w, p, 0)
    else
      w.(disk := effect.value,
         process := Some(p.(hasOpened := true)),
         openings := if effect.value == w.disk then w.openings else w.openings + [p.pid])
  }

  function Written(w: World, p: Process, name: FileName, text: nat): World
    requires w.disk.staging.Some?
  {
    var files := w.disk.staging.value[name := Artifact(p.pid, text)];
    w.(disk := w.disk.(staging := Some(files)))
  }

  function Stage(w: World, p: Process): World {
    var effect := Staging(w.disk);
    if effect.Raised? then Failed(w, p, 0)
    else InPhase(w, p, Moving).(disk := effect.value, result := w.disk.staging)
  }

  function Publish(w: World, p: Process): World {
    var effect := PublishMove(w.disk);
    if effect.Raised? then Failed(w, p, 0)
    else InPhase(w, p, Recording(w.disk.journal.journal)).(disk := effect.value)
  }

  /** The steps up to the evaluation. */
  function EarlyNext(w: World, p: Process, step: Step): World {
    match step
    case RemoveSome(names) =>
      if p.phase == Preparing && PrepareRejection(w.disk).None? && w.disk.staging.Some? then
        w.(disk := w.disk.(staging := Some(w.disk.staging.value - names)))
      else w
    case Prepare =>
      if p.phase != Preparing then w
      else if PrepareRejection(w.disk).Some? then Stop(w)
      else InPhase(w, p, Evaluating).(disk := w.disk.(staging := None))
    case OpenOutcomes => if p.phase == Evaluating && !p.hasOpened then Open(w, p) else w
    case ReadOutcome =>
      if p.phase == Evaluating && p.hasOpened then w.(readers := w.readers + [p.pid]) else w
    case FinishEvaluation =>
      if p.phase == Evaluating then InPhase(w, p, MakingDirectory) else w
    case _ => w
  }

  /** The steps after it. */
  function LateNext(w: World, p: Process, step: Step): World {
    match step
    case MakeDirectory =>
      if p.phase != MakingDirectory then w
      else if w.disk.staging.Some? then Failed(w, p, 0)
      else InPhase(w, p, Writing).(disk := w.disk.(staging := Some(map[])))
    case WriteFile(name, text) =>
      if p.phase == Writing && w.disk.staging.Some? then Written(w, p, name, text) else w
    case StageResult => if p.phase == Writing then Stage(w, p) else w
    case Move => if p.phase == Moving then Publish(w, p) else w
    case Record =>
      if p.phase.Recording? then Stop(w.(disk := PublishRecord(w.disk, p.phase.current))) else w
    case Fail(cause) => Failed(w, p, cause)
    case Crash => Stop(w)
    case _ => w
  }

  predicate Early(step: Step) {
    step.RemoveSome? || step.Prepare? || step.OpenOutcomes? || step.ReadOutcome?
    || step.FinishEvaluation?
  }

  function Next(w: World, step: Step): World {
    match step
    case ReadJournal(pid, req, freshId) => Read(w, pid, req, freshId)
    case WriteJournal(pid) => Write(w, pid)
    case TornWrite(pid) => Tear(w, pid)
    case TakeLock(pid) => Lock(w, pid)
    case Abandon(pid) => Gone(w, pid)
    case _ =>
      if w.process.None? then w
      else if Early(step) then EarlyNext(w, w.process.value, step)
      else LateNext(w, w.process.value, step)
  }

  function After(w: World, steps: seq<Step>): World {
    if steps == [] then w
    else Next(After(w, steps[..|steps| - 1]), steps[|steps| - 1])
  }

  // ---------------------------------------------------------------------------
  // Writes that undo an opening
  // ---------------------------------------------------------------------------

  predicate StatusIs(w: World, status: Status) {
    w.disk.journal.Stored? && w.disk.journal.journal.status == status
  }

  predicate IsPastOpening(w: World) {
    w.disk.journal.Stored? && PastOpening(w.disk.journal.journal.status)
  }

  /** The write finds the outcomes opened, and will say that they are not. */
  predicate Reopens(w: World, step: Step) {
    && step.WriteJournal? && step.pid in w.pending && w.pending[step.pid].Decided?
    && w.pending[step.pid].read.Stored? && w.pending[step.pid].decision.status == Reserved
    && IsPastOpening(w)
  }

  /** No reservation of the run writes over an opening that it has not seen. */
  predicate NeverReopens(w: World, steps: seq<Step>) {
    steps == [] || (NeverReopens(w, steps[..|steps| - 1])
                    && !Reopens(After(w, steps[..|steps| - 1]), steps[|steps| - 1]))
  }

  /** The reservation writes a journal other than the one it read. */
  predicate Overwrites(w: World, step: Step) {
    && step.WriteJournal? && step.pid in w.pending && w.pending[step.pid].Decided?
    && w.pending[step.pid].read != w.disk.journal
  }

  // ---------------------------------------------------------------------------
  // The invariant
  // ---------------------------------------------------------------------------

  predicate WrittenBy(files: Directory, pid: nat) {
    forall name <- files :: files[name].attempt == pid
  }

  /** The status and the logs. */
  predicate LogsAgree(w: World) {
    && |w.openings| == (if IsPastOpening(w) then 1 else 0)
    && (forall i :: 0 <= i < |w.readers| ==> w.openings == [w.readers[i]])
    && (w.result.Some? <==> StatusIs(w, ResultStaged) || StatusIs(w, Completed))
    && (w.result.Some? ==> WrittenBy(w.result.value, w.openings[0]))
  }

  /** Where the result lies. */
  predicate ResultInOnePlace(w: World) {
    && (StatusIs(w, ResultStaged) ==>
          || (w.disk.staging == w.result && w.disk.output.None?)
          || (w.disk.output == w.result && w.disk.staging.None?))
    && (StatusIs(w, Completed) ==> w.disk.output == w.result && w.disk.staging.None?)
    && (!StatusIs(w, ResultStaged) && !StatusIs(w, Completed) ==> w.disk.output.None?)
  }

  /** What the running attempt may rely on. */
  predicate ProcessAgrees(w: World, p: Process) {
    && w.disk.journal.Stored?
    && (p.hasOpened ==> w.openings == [p.pid])
    && match p.phase
       case Preparing => !p.hasOpened && !p.resumed
       case Evaluating => AttemptAgrees(w, p) && w.disk.staging.None?
       case MakingDirectory => AttemptAgrees(w, p) && w.disk.staging.None?
       case Writing =>
         && AttemptAgrees(w, p)
         && w.disk.staging.Some? && WrittenBy(w.disk.staging.value, p.pid)
       case Moving => if p.resumed then w.result.Some? else StatusIs(w, ResultStaged)
       case Recording(_) => StatusIs(w, ResultStaged) && w.disk.staging.None?
  }

  predicate AttemptAgrees(w: World, p: Process) {
    !p.resumed && StatusIs(w, if p.hasOpened then OutcomesOpened else Reserved)
  }

  /** A decision continues what was read; a staged result stays staged or published. */
  predicate PendingAgrees(w: World, r: Reservation) {
    && match r
       case Decided(read, decision) =>
         && !read.Torn?
         && (if read.Absent? then decision.status == Reserved
             else
               && Retryable(read.journal.status)
               && decision.status == (if read.journal.status == ResultStaged then ResultStaged else Reserved))
         && (read.Stored? ==> w.disk.journal.Stored?)
         && (decision.status == ResultStaged ==> w.result.Some?)
       case Waiting(written) =>
         && w.disk.journal.Stored?
         && (written.status == ResultStaged ==> w.result.Some?)
  }

  predicate PendingsAgree(w: World) {
    forall pid <- w.pending :: PendingAgrees(w, w.pending[pid])
  }

  predicate Good(w: World) {
    && LogsAgree(w) && ResultInOnePlace(w) && PendingsAgree(w)
    && (w.process.Some? ==> ProcessAgrees(w, w.process.value))
  }

  // ---------------------------------------------------------------------------
  // Every step keeps it
  // ---------------------------------------------------------------------------

  lemma ReadKeepsGood(w: World, pid: nat, req: Request, freshId: nat)
    requires Good(w)
    ensures Good(Read(w, pid, req, freshId))
  {
    var next := Read(w, pid, req, freshId);
    forall other | other in next.pending
      ensures PendingAgrees(next, next.pending[other])
    {
      if other in w.pending {
        assert PendingAgrees(w, w.pending[other]);
      }
    }
  }

  lemma GoneKeepsGood(w: World, pid: nat)
    requires Good(w)
    ensures Good(Gone(w, pid))
  {
    var next := Gone(w, pid);
    forall other | other in next.pending
      ensures PendingAgrees(next, next.pending[other])
    {
      assert PendingAgrees(w, w.pending[other]);
    }
  }

  /** Replacing the journal leaves the other reservations' premises alone. */
  lemma PendingsStay(w: World, next: World)
    requires PendingsAgree(w)
    requires next.pending.Keys <= w.pending.Keys
    requires forall pid <- next.pending :: next.pending[pid] == w.pending[pid]
    requires w.disk.journal.Stored? ==> next.disk.journal.Stored?
    requires w.result.Some? ==> next.result.Some?
    ensures PendingsAgree(next)
  {
    forall pid | pid in next.pending
      ensures PendingAgrees(next, next.pending[pid])
    {
      assert PendingAgrees(w, w.pending[pid]);
    }
  }

  lemma WriteKeepsLogs(w: World, j: Journal)
    requires LogsAgree(w) && ResultInOnePlace(w)
    requires j.status == Reserved ==> !IsPastOpening(w)
    requires j.status == Reserved || (j.status == ResultStaged && w.result.Some?)
    ensures var next := w.(disk := WithJournal(w.disk, j)); LogsAgree(next) && ResultInOnePlace(next)
  {
  }

  lemma WriteKeepsProcess(w: World, p: Process, j: Journal)
    requires LogsAgree(w) && ProcessAgrees(w, p)
    requires j.status == Reserved ==> !IsPastOpening(w)
    requires j.status == Reserved || (j.status == ResultStaged && w.result.Some?)
    ensures ProcessAgrees(w.(disk := WithJournal(w.disk, j)), p)
  {
  }

  lemma WriteKeepsGood(w: World, pid: nat)
    requires Good(w) && !Reopens(w, WriteJournal(pid))
    ensures Good(Write(w, pid))
  {
    if pid in w.pending && w.pending[pid].Decided? {
      assert PendingAgrees(w, w.pending[pid]);
      var r := w.pending[pid];
      if r.read.Absent? && !w.disk.journal.Absent? {
        GoneKeepsGood(w, pid);
      } else {
        WriteKeepsLogs(w, r.decision);
        if w.process.Some? {
          WriteKeepsProcess(w, w.process.value, r.decision);
        }
        PendingsStay(Gone(w, pid), Gone(Write(w, pid), pid));
        WaitingAgrees(w, pid);
      }
    }
  }

  lemma WaitingAgrees(w: World, pid: nat)
    requires PendingsAgree(w) && pid in w.pending && w.pending[pid].Decided?
    requires w.disk.journal.Absent? || !w.pending[pid].read.Absent?
    requires PendingsAgree(Gone(Write(w, pid), pid))
    ensures PendingsAgree(Write(w, pid))
  {
    var next := Write(w, pid);
    assert PendingAgrees(w, w.pending[pid]);
    forall other | other in next.pending && other != pid
      ensures PendingAgrees(next, next.pending[other])
    {
      assert PendingAgrees(Gone(next, pid), Gone(next, pid).pending[other]);
    }
  }

  lemma TearKeepsGood(w: World, pid: nat)
    requires Good(w)
    ensures Good(Tear(w, pid))
  {
    PendingsStay(w, Tear(w, pid));
  }

  lemma LockKeepsGood(w: World, pid: nat)
    requires Good(w)
    ensures Good(Lock(w, pid))
  {
    if pid in w.pending {
      assert PendingAgrees(w, w.pending[pid]);
      GoneKeepsGood(w, pid);
    }
  }

  /** What a step of the attempt must give to keep the invariant. */
  predicate AttemptGood(w: World, next: World) {
    && LogsAgree(next) && ResultInOnePlace(next)
    && (next.process.Some? ==> ProcessAgrees(next, next.process.value))
    && next.pending == w.pending
    && (w.disk.journal.Stored? ==> next.disk.journal.Stored?)
    && (w.result.Some? ==> next.result.Some?)
  }

  lemma AttemptKeepsGood(w: World, next: World)
    requires Good(w) && AttemptGood(w, next)
    ensures Good(next)
  {
    PendingsStay(w, next);
  }

  lemma FailureIsGood(w: World, p: Process, cause: nat)
    requires Good(w) && w.process == Some(p)
    ensures AttemptGood(w, Failed(w, p, cause))
  {
  }

  lemma OpeningIsGood(w: World, p: Process)
    requires Good(w) && w.process == Some(p) && p.phase == Evaluating && !p.hasOpened
    ensures AttemptGood(w, Open(w, p))
  {
  }

  lemma EarlyIsGood(w: World, p: Process, step: Step)
    requires Good(w) && w.process == Some(p)
    ensures AttemptGood(w, EarlyNext(w, p, step))
  {
    if step.OpenOutcomes? && p.phase == Evaluating && !p.hasOpened {
      OpeningIsGood(w, p);
    }
  }

  lemma StageIsGood(w: World, p: Process)
    requires Good(w) && w.process == Some(p) && p.phase == Writing
    ensures AttemptGood(w, Stage(w, p))
  {
    FailureIsGood(w, p, 0);
  }

  lemma PublishIsGood(w: World, p: Process)
    requires Good(w) && w.process == Some(p) && p.phase == Moving
    ensures AttemptGood(w, Publish(w, p))
  {
    FailureIsGood(w, p, 0);
  }

  lemma RecordIsGood(w: World, p: Process)
    requires Good(w) && w.process == Some(p) && p.phase.Recording?
    ensures AttemptGood(w, Stop(w.(disk := PublishRecord(w.disk, p.phase.current))))
  {
  }

  lemma WritingIsGood(w: World, p: Process, step: Step)
    requires Good(w) && w.process == Some(p) && (step.MakeDirectory? || step.WriteFile?)
    ensures AttemptGood(w, LateNext(w, p, step))
  {
    FailureIsGood(w, p, 0);
  }

  lemma LateIsGood(w: World, p: Process, step: Step)
    requires Good(w) && w.process == Some(p)
    ensures AttemptGood(w, LateNext(w, p, step))
  {
    match step
    case MakeDirectory => WritingIsGood(w, p, step);
    case WriteFile(_, _) => WritingIsGood(w, p, step);
    case StageResult => if p.phase == Writing { StageIsGood(w, p); }
    case Move => if p.phase == Moving { PublishIsGood(w, p); }
    case Record => if p.phase.Recording? { RecordIsGood(w, p); }
    case Fail(cause) => FailureIsGood(w, p, cause);
    case _ =>
  }

  /** Every effect of every process keeps the invariant, but a write that undoes an opening. */
  lemma NextKeepsGood(w: World, step: Step)
    requires Good(w) && !Reopens(w, step)
    ensures Good(Next(w, step))
  {
    match step
    case ReadJournal(pid, req, freshId) => ReadKeepsGood(w, pid, req, freshId);
    case WriteJournal(pid) => WriteKeepsGood(w, pid);
    case TornWrite(pid) => TearKeepsGood(w, pid);
    case TakeLock(pid) => LockKeepsGood(w, pid);
    case Abandon(pid) => GoneKeepsGood(w, pid);
    case _ =>
      if w.process.Some? {
        AttemptStepKeepsGood(w, w.process.value, step);
      }
  }

  lemma AttemptStepKeepsGood(w: World, p: Process, step: Step)
    requires Good(w) && w.process == Some(p)
    ensures Good(if Early(step) then EarlyNext(w, p, step) else LateNext(w, p, step))
  {
    if Early(step) {
      EarlyIsGood(w, p, step);
      AttemptKeepsGood(w, EarlyNext(w, p, step));
    } else {
      LateIsGood(w, p, step);
      AttemptKeepsGood(w, LateNext(w, p, step));
    }
  }

  lemma {:induction false} RunsAreGood(steps: seq<Step>)
    requires NeverReopens(START, steps)
    ensures Good(After(START, steps))
  {
    if steps != [] {
      RunsAreGood(steps[..|steps| - 1]);
      NextKeepsGood(After(START, steps[..|steps| - 1]), steps[|steps| - 1]);
    }
  }

  // ---------------------------------------------------------------------------
  // Opened at most once
  // ---------------------------------------------------------------------------

  /**
   The outcomes are opened at most once, and only the attempt that opened them reads them, in every
   run in which no reservation writes over an opening that it has not seen.
   */
  lemma OutcomesOpenedAtMostOnce(steps: seq<Step>)
    requires NeverReopens(START, steps)
    ensures var w := After(START, steps);
            && |w.openings| <= 1
            && (w.openings != [] <==> IsPastOpening(w))
            && forall i :: 0 <= i < |w.readers| ==> w.openings == [w.readers[i]]
  {
    RunsAreGood(steps);
  }

  /** A decision to write the reserved status was taken on a journal that was not past opening. */
  predicate DecisionFollows(r: Reservation) {
    r.Decided? && r.read.Stored? && r.decision.status == Reserved ==>
      !PastOpening(r.read.journal.status)
  }

  lemma {:induction false} DecisionsFollow(steps: seq<Step>, pid: nat)
    ensures pid in After(START, steps).pending ==> DecisionFollows(After(START, steps).pending[pid])
  {
    if steps != [] {
      DecisionsFollow(steps[..|steps| - 1], pid);
      DecisionStays(After(START, steps[..|steps| - 1]), steps[|steps| - 1], pid);
    }
  }

  lemma DecisionStays(w: World, step: Step, pid: nat)
    requires pid in w.pending ==> DecisionFollows(w.pending[pid])
    ensures pid in Next(w, step).pending ==> DecisionFollows(Next(w, step).pending[pid])
  {
    AttemptsLeavePending(w, step);
  }

  lemma AttemptsLeavePending(w: World, step: Step)
    ensures step.ReadJournal? || step.WriteJournal? || step.TornWrite? || step.TakeLock?
            || step.Abandon? || Next(w, step).pending == w.pending
  {
  }

  /**
   If the outcomes were ever opened twice, a reservation had written the journal although it had
   changed since the reservation read it.
   */
  lemma {:induction false} OpenedTwiceMeansOverwritten(steps: seq<Step>) returns (i: nat)
    requires |After(START, steps).openings| > 1
    ensures i < |steps| && Overwrites(After(START, steps[..i]), steps[i])
  {
    if NeverReopens(START, steps) {
      OutcomesOpenedAtMostOnce(steps);
    }
    i := Reopening(steps);
    DecisionsFollow(steps[..i], steps[i].pid);
  }

  lemma {:induction false} Reopening(steps: seq<Step>) returns (i: nat)
    requires !NeverReopens(START, steps)
    ensures i < |steps| && Reopens(After(START, steps[..i]), steps[i])
  {
    var front := steps[..|steps| - 1];
    if NeverReopens(START, front) {
      i := |steps| - 1;
    } else {
      i := Reopening(front);
      assert front[..i] == steps[..i];
    }
  }

  /** No status at or after the opening ever leads back before it. */
  lemma {:induction false} NeverReopened(steps: seq<Step>, more: seq<Step>)
    requires NeverReopens(START, steps) && NeverReopens(After(START, steps), more)
    requires IsPastOpening(After(START, steps))
    ensures var w, later := After(START, steps), After(After(START, steps), more);
            && IsPastOpening(later) && later.openings == w.openings
            && (w.result.Some? ==> later.result == w.result)
            && Good(later)
  {
    RunsAreGood(steps);
    if more != [] {
      NeverReopened(steps, more[..|more| - 1]);
      var mid := After(After(START, steps), more[..|more| - 1]);
      OpeningIsKept(mid, more[|more| - 1]);
      NextKeepsGood(mid, more[|more| - 1]);
    }
  }

  /** One step never undoes an opening, and never forgets who did it. */
  lemma OpeningIsKept(w: World, step: Step)
    requires Good(w) && IsPastOpening(w) && !Reopens(w, step)
    ensures IsPastOpening(Next(w, step)) && Next(w, step).openings == w.openings
    ensures w.result.Some? ==> Next(w, step).result == w.result
  {
    NextKeepsGood(w, step);
    if step.WriteJournal? && step.pid in w.pending {
      assert PendingAgrees(w, w.pending[step.pid]);
    } else if w.process.Some? {
      AttemptKeepsOpening(w, w.process.value, step);
    }
  }

  lemma AttemptKeepsOpening(w: World, p: Process, step: Step)
    requires Good(w) && IsPastOpening(w) && w.process == Some(p)
    ensures var next := if Early(step) then EarlyNext(w, p, step) else LateNext(w, p, step);
            && IsPastOpening(next) && next.openings == w.openings
            && (w.result.Some? ==> next.result == w.result)
  {
  }

  // ---------------------------------------------------------------------------
  // Published exactly once
  // ---------------------------------------------------------------------------

  /**
   Whatever the crashes, a staged result lies in exactly one place, a completed one is in the
   output directory, and both hold exactly what the one opening attempt staged.
   */
  lemma PublishedIsWhatWasStaged(steps: seq<Step>)
    requires NeverReopens(START, steps)
    ensures var w := After(START, steps);
            && (StatusIs(w, ResultStaged) ==>
                  && w.disk.staging.Some? != w.disk.output.Some?
                  && w.result == (if w.disk.staging.Some? then w.disk.staging else w.disk.output)
                  && w.openings != [] && WrittenBy(w.result.value, w.openings[0]))
            && (StatusIs(w, Completed) ==>
                  && w.disk.output == w.result && w.result.Some? && w.disk.staging.None?
                  && w.openings != [] && WrittenBy(w.result.value, w.openings[0]))
  {
    RunsAreGood(steps);
  }

  predicate Unused(w: World, pid: nat) {
    pid !in w.started && pid !in w.pending
  }

  /** A reservation that nothing interrupts: it reads, writes and takes the lock. */
  function Reserve(w: World, pid: nat, req: Request, freshId: nat): World {
    Next(Next(Next(w, ReadJournal(pid, req, freshId)), WriteJournal(pid)), TakeLock(pid))
  }

  lemma StagedIsResumed(w: World, pid: nat, freshId: nat)
    requires w.process.None? && StatusIs(w, ResultStaged) && Unused(w, pid)
    ensures var j := w.disk.journal.journal;
            var next := Reserve(w, pid, Request(j.contract, Some(j.id)), freshId);
            && next.disk == WithJournal(w.disk, j.(attempts := j.attempts + 1))
            && next.process == Some(Process(pid, Moving, false, true))
            && next.result == w.result && next.openings == w.openings
  {
  }

  lemma MovedThenRecorded(w: World, p: Process)
    requires ResultInOnePlace(w) && StatusIs(w, ResultStaged) && w.result.Some?
    requires w.process == Some(p) && p.phase == Moving
    ensures var done := Next(Next(w, Move), Record);
            && StatusIs(done, Completed) && done.process.None?
            && done.disk.output == w.result && done.openings == w.openings
            && done.disk.journal.journal.attempts == w.disk.journal.journal.attempts
  {
  }

  /** From any staged state that no attempt holds, resuming it completes the publication. */
  lemma StagedResultCanBePublished(w: World, pid: nat, freshId: nat)
    requires Good(w) && w.process.None? && StatusIs(w, ResultStaged) && Unused(w, pid)
    ensures var j := w.disk.journal.journal;
            var done := Next(Next(Reserve(w, pid, Request(j.contract, Some(j.id)), freshId), Move), Record);
            && StatusIs(done, Completed) && done.process.None?
            && done.disk.output == w.result && done.openings == w.openings
            && done.disk.journal.journal.attempts == j.attempts + 1
  {
    var j := w.disk.journal.journal;
    StagedIsResumed(w, pid, freshId);
    MovedThenRecorded(Reserve(w, pid, Request(j.contract, Some(j.id)), freshId),
                      Process(pid, Moving, false, true));
  }

  /** A crash between the rename and the journal write loses nothing. */
  lemma CrashAfterRename(w: World, p: Process, pid: nat, freshId: nat)
    requires Good(w) && w.process == Some(p) && p.phase == Moving && StatusIs(w, ResultStaged)
    requires Unused(w, pid)
    ensures var j := w.disk.journal.journal;
            var crashed := Next(Next(w, Move), Crash);
            var done := Next(Next(Reserve(crashed, pid, Request(j.contract, Some(j.id)), freshId), Move),
                             Record);
            && StatusIs(crashed, ResultStaged) && crashed.disk.output == w.result
            && StatusIs(done, Completed) && done.disk.output == w.result
  {
    var moved := Next(w, Move);
    MoveRenames(w, p);
    NextKeepsGood(w, Move);
    NextKeepsGood(moved, Crash);
    StagedResultCanBePublished(Next(moved, Crash), pid, freshId);
  }

  lemma MoveRenames(w: World, p: Process)
    requires Good(w) && w.process == Some(p) && p.phase == Moving && StatusIs(w, ResultStaged)
    ensures var moved := Next(w, Move);
            && moved.process.Some? && moved.disk.journal == w.disk.journal
            && moved.disk.output == w.result && moved.result == w.result
            && moved.started == w.started && moved.pending == w.pending
  {
  }

  /** A resume is accepted exactly from the three retryable statuses, with the right id. */
  lemma ResumeAcceptedIff(disk: Disk, req: Request, freshId: nat)
    requires disk.journal.Stored?
    ensures var j := disk.journal.journal;
            ReserveDecision(disk, req, freshId).Done?
            <==> && req == Request(j.contract, Some(j.id))
                 && (!PastOpening(j.status) || j.status == ResultStaged)
  {
    RetryableIff(disk.journal.journal.status);
  }

  lemma RetryableIff(status: Status)
    ensures Retryable(status) <==> !PastOpening(status) || status == ResultStaged
  {
  }

  // ---------------------------------------------------------------------------
  // Why reservations must not overlap attempts
  // ---------------------------------------------------------------------------

  /**
   Reading the journal at one time and writing it when the outcomes are open undoes the opening
   exactly when the request resumes the journal that was read and that was not past opening.
   */
  lemma WriteKeepsOpeningIff(read: World, now: World, pid: nat, req: Request, freshId: nat)
    requires Unused(read, pid) && IsPastOpening(now)
    requires var after := Read(read, pid, req, freshId);
             if pid in after.pending then
               pid in now.pending && now.pending[pid] == after.pending[pid]
             else pid !in now.pending
    ensures IsPastOpening(Write(now, pid))
       <==> !(&& read.disk.journal.Stored?
              && var j := read.disk.journal.journal;
                 req == Request(j.contract, Some(j.id)) && !PastOpening(j.status))
  {
    if read.disk.journal.Stored? {
      ResumeAcceptedIff(read.disk, req, freshId);
      RetryableIff(read.disk.journal.journal.status);
    }
  }

  /** After such a write, a crash and one attempt open the outcomes again, unless they are published. */
  lemma ReopeningOpensAgain(w: World, pid: nat)
    requires Reopens(w, WriteJournal(pid)) && w.disk.output.None?
    ensures var written := Next(Next(w, WriteJournal(pid)), Crash);
            var again := Next(Next(Next(written, TakeLock(pid)), Prepare), OpenOutcomes);
            again.openings == w.openings + [pid] && StatusIs(again, OutcomesOpened)
  {
    var written := Next(Next(w, WriteJournal(pid)), Crash);
    assert written.process.None? && written.pending[pid] == Waiting(w.pending[pid].decision);
    assert StatusIs(written, Reserved) && written.openings == w.openings;
    LockedOpens(written, pid);
  }

  lemma LockedOpens(w: World, pid: nat)
    requires w.process.None? && pid in w.pending && w.pending[pid].Waiting?
    requires w.pending[pid].written.status == Reserved
    requires StatusIs(w, Reserved) && w.disk.output.None?
    ensures var again := Next(Next(Next(w, TakeLock(pid)), Prepare), OpenOutcomes);
            again.openings == w.openings + [pid] && StatusIs(again, OutcomesOpened)
  {
    var locked := Next(w, TakeLock(pid));
    assert locked.process == Some(Process(pid, Preparing, false, false));
    var prepared := Next(locked, Prepare);
    assert prepared.process == Some(Process(pid, Evaluating, false, false));
  }

  const CONTRACT := Contract(1, 2, 3, 4)

  const FRESH := Journal(9, CONTRACT, Reserved, 1, None)

  lemma Extend(steps: seq<Step>, w: World, step: Step) returns (more: seq<Step>, next: World)
    requires After(START, steps) == w
    ensures more == steps + [step] && next == Next(w, step) && After(START, more) == next
  {
    more, next := steps + [step], Next(w, step);
    assert more[..|steps|] == steps;
  }

  /** One process has reserved the test; another has read its journal and means to resume it. */
  lemma BothReserving() returns (steps: seq<Step>)
    ensures After(START, steps)
         == World(Disk(Stored(FRESH), None, None), Some(Process(0, Preparing, false, false)),
                  map[1 := Decided(Stored(FRESH), FRESH.(attempts := 2))], {0, 1}, [], [], None)
  {
    var w := START;
    steps, w := Extend([], START, ReadJournal(0, Request(CONTRACT, None), 9));
    steps, w := Extend(steps, w, WriteJournal(0));
    assert w == World(Disk(Stored(FRESH), None, None), None, map[0 := Waiting(FRESH)], {0}, [], [], None);
    steps, w := Extend(steps, w, TakeLock(0));
    assert w == World(Disk(Stored(FRESH), None, None), Some(Process(0, Preparing, false, false)),
                      map[], {0}, [], [], None);
    steps, w := Extend(steps, w, ReadJournal(1, Request(CONTRACT, Some(9)), 9));
  }

  /** The first process then opens the outcomes and reads one. */
  lemma FirstOpens() returns (steps: seq<Step>)
    ensures var w := After(START, steps);
            && w.openings == [0] && w.readers == [0] && w.disk.output.None?
            && Reopens(w, WriteJournal(1))
  {
    steps := BothReserving();
    var w := After(START, steps);
    steps, w := Extend(steps, w, Prepare);
    steps, w := Extend(steps, w, OpenOutcomes);
    steps, w := Extend(steps, w, ReadOutcome);
  }

  /**
   A run from nothing at all that opens the outcomes twice: the second reservation's write undoes the
   first opening, the first process dies, and the second one opens.
   */
  lemma OverlappingReserveReopens() returns (steps: seq<Step>)
    ensures After(START, steps).openings == [0, 1]
  {
    steps := FirstOpens();
    var w := After(START, steps);
    ReopeningOpensAgain(w, 1);
    steps, w := Extend(steps, w, WriteJournal(1));
    steps, w := Extend(steps, w, Crash);
    steps, w := Extend(steps, w, TakeLock(1));
    steps, w := Extend(steps, w, Prepare);
    steps, w := Extend(steps, w, OpenOutcomes);
  }
}
