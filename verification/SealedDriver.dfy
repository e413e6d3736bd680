/**
 The driver as a sequence of the steps: reserving, taking the lock and one attempt, when nothing else
 acts and nothing crashes, for every start and every kind of ending.
 */
module SealedDriver {
  import opened Wrappers
  import opened SealedExecution
  import opened SealedRuns

  lemma {:induction false} AfterBoth(w: World, a: seq<Step>, b: seq<Step>)
    ensures After(w, a + b) == After(After(w, a), b)
  {
    if b == [] {
      assert a + b == a;
    } else {
      AfterBoth(w, a, b[..|b| - 1]);
      assert (a + b)[..|a + b| - 1] == a + b[..|b| - 1];
    }
  }

  lemma AfterOne(w: World, step: Step)
    ensures After(w, [step]) == Next(w, step)
  {
    assert [step][..0] == [];
    assert After(w, []) == w;
  }

  lemma OneMore(w: World, steps: seq<Step>, step: Step)
    ensures After(w, steps + [step]) == Next(After(w, steps), step)
  {
    AfterBoth(w, steps, [step]);
    AfterOne(After(w, steps), step);
  }

  lemma AfterThree(w: World, a: Step, b: Step, c: Step)
    ensures After(w, [a, b, c]) == Next(Next(Next(w, a), b), c)
  {
    AfterOne(w, a);
    OneMore(w, [a], b);
    OneMore(w, [a, b], c);
    assert [a] + [b] == [a, b] && [a, b] + [c] == [a, b, c];
  }

  // ---------------------------------------------------------------------------
  // Reserving and taking the lock
  // ---------------------------------------------------------------------------

  function Reserving(pid: nat, req: Request, freshId: nat): seq<Step> {
    [ReadJournal(pid, req, freshId), WriteJournal(pid), TakeLock(pid)]
  }

  /** Nobody runs, and the process is new. */
  predicate Idle(w: World, pid: nat) {
    w.process.None? && pid !in w.started && pid !in w.pending
  }

  lemma ReservingIs(w: World, pid: nat, req: Request, freshId: nat)
    requires Idle(w, pid)
    ensures var decision := ReserveDecision(w.disk, req, freshId);
            After(w, Reserving(pid, req, freshId))
            == if decision.Raised? then w
               else w.(disk := WithJournal(w.disk, decision.value), started := w.started + {pid},
                       process := Some(Process(pid,
                                               if decision.value.status == ResultStaged then Moving
                                               else Preparing,
                                               false, decision.value.status == ResultStaged)))
  {
    AfterThree(w, ReadJournal(pid, req, freshId), WriteJournal(pid), TakeLock(pid));
    if ReserveDecision(w.disk, req, freshId).Done? {
      PendingGone(w.pending, pid, Waiting(ReserveDecision(w.disk, req, freshId).value),
                  Decided(w.disk.journal, ReserveDecision(w.disk, req, freshId).value));
    }
  }

  lemma PendingGone(pending: map<nat, Reservation>, pid: nat, a: Reservation, b: Reservation)
    requires pid !in pending
    ensures pending[pid := b][pid := a] - {pid} == pending
  {
  }

  // ---------------------------------------------------------------------------
  // The attempt
  // ---------------------------------------------------------------------------

  function Reading(n: nat): seq<Step> {
    seq(n, i => ReadOutcome)
  }

  function Again(pid: nat, n: nat): seq<nat> {
    seq(n, i => pid)
  }

  lemma {:induction false} ReadsLogged(w: World, n: nat)
    requires w.process.Some? && w.process.value.phase == Evaluating && w.process.value.hasOpened
    ensures After(w, Reading(n)) == w.(readers := w.readers + Again(w.process.value.pid, n))
  {
    if n == 0 {
      assert w.readers + Again(w.process.value.pid, 0) == w.readers;
    } else {
      ReadsLogged(w, n - 1);
      assert Reading(n) == Reading(n - 1) + [ReadOutcome];
      OneMore(w, Reading(n - 1), ReadOutcome);
      assert w.readers + Again(w.process.value.pid, n)
          == w.readers + Again(w.process.value.pid, n - 1) + [w.process.value.pid];
    }
  }

  function Writing(files: seq<(FileName, nat)>): seq<Step> {
    seq(|files|, i requires 0 <= i < |files| => WriteFile(files[i].0, files[i].1))
  }

  lemma {:induction false} FilesWritten(w: World, files: seq<(FileName, nat)>)
    requires w.process.Some? && w.process.value.phase == Phase.Writing && w.disk.staging == Some(map[])
    ensures After(w, Writing(files))
         == w.(disk := w.disk.(staging := Some(FilesBy(w.process.value.pid, files))))
  {
    if files != [] {
      var front, last := files[..|files| - 1], files[|files| - 1];
      FilesWritten(w, front);
      assert Writing(files) == Writing(front) + [WriteFile(last.0, last.1)];
      OneMore(w, Writing(front), WriteFile(last.0, last.1));
    }
  }

  /** The removal of an earlier staging directory may get through some of its files before it dies. */
  lemma RemovalInParts(w: World, pid: nat, j: Journal, names: set<FileName>)
    requires w.process == Some(Process(pid, Preparing, false, false))
    requires w.disk.journal == Stored(j) && j.status == Status.Reserved
    requires w.disk.output.None? && w.disk.staging.Some?
    ensures After(w, [RemoveSome(names), Crash])
         == w.(disk := w.disk.(staging := Some(w.disk.staging.value - names)), process := None)
  {
    AfterOne(w, RemoveSome(names));
    OneMore(w, [RemoveSome(names)], Crash);
    assert [RemoveSome(names)] + [Crash] == [RemoveSome(names), Crash];
  }

  /** Opening and reading, where anything is to be read. */
  function Evaluation(scenarios: seq<Scenario>): seq<Step> {
    if Reads(scenarios) == [] then [] else [OpenOutcomes] + Reading(|Reads(scenarios)|)
  }

  /** A process that has just got the lock and found nothing staged, on a journal that says so. */
  predicate Fresh(w: World, pid: nat, j: Journal) {
    && w.process == Some(Process(pid, Preparing, false, false))
    && w.disk.journal == Stored(j) && j.status == Status.Reserved
  }

  lemma Prepared(w: World, pid: nat, j: Journal)
    requires Fresh(w, pid, j) && w.disk.output.None?
    ensures Next(w, Prepare)
         == w.(disk := Disk(Stored(j), None, None), process := Some(Process(pid, Evaluating, false, false)))
  {
  }

  lemma Evaluated(w: World, pid: nat, j: Journal, scenarios: seq<Scenario>)
    requires w.process == Some(Process(pid, Evaluating, false, false))
    requires w.disk == Disk(Stored(j), None, None) && j.status == Status.Reserved
    ensures After(w, Evaluation(scenarios))
         == if Reads(scenarios) == [] then w
            else w.(disk := Disk(Stored(j.(status := OutcomesOpened, failure := None)), None, None),
                    process := Some(Process(pid, Evaluating, true, false)),
                    openings := w.openings + [pid],
                    readers := w.readers + Again(pid, |Reads(scenarios)|))
  {
    if Reads(scenarios) != [] {
      AfterOne(w, OpenOutcomes);
      AfterBoth(w, [OpenOutcomes], Reading(|Reads(scenarios)|));
      ReadsLogged(Next(w, OpenOutcomes), |Reads(scenarios)|);
    }
  }

  function Reporting(files: seq<(FileName, nat)>): seq<Step> {
    [FinishEvaluation, MakeDirectory] + Writing(files)
  }

  lemma Reported(w: World, pid: nat, didOpen: bool, files: seq<(FileName, nat)>)
    requires w.process == Some(Process(pid, Evaluating, didOpen, false)) && w.disk.staging.None?
    ensures After(w, Reporting(files))
         == w.(disk := w.disk.(staging := Some(FilesBy(pid, files))),
               process := Some(Process(pid, Phase.Writing, didOpen, false)))
  {
    AfterOne(w, FinishEvaluation);
    OneMore(w, [FinishEvaluation], MakeDirectory);
    assert [FinishEvaluation] + [MakeDirectory] == [FinishEvaluation, MakeDirectory];
    AfterBoth(w, [FinishEvaluation, MakeDirectory], Writing(files));
    FilesWritten(After(w, [FinishEvaluation, MakeDirectory]), files);
  }

  /** Staging, the rename and the record of the completion. */
  const PUBLISHING: seq<Step> := [StageResult, Move, Record]

  lemma MovedAndRecorded(w: World, pid: nat, j: Journal, files: Directory)
    requires w.process == Some(Process(pid, Moving, true, false))
    requires w.disk == Disk(Stored(j), Some(files), None) && j.status == ResultStaged
    ensures Next(Next(w, Move), Record)
         == w.(disk := Disk(Stored(j.(status := Completed, failure := None)), None, Some(files)),
               process := None)
  {
  }

  lemma PublishedBy(w: World, pid: nat, j: Journal, files: Directory)
    requires w.process == Some(Process(pid, Phase.Writing, true, false))
    requires w.disk == Disk(Stored(j), Some(files), None) && j.status == OutcomesOpened
    ensures After(w, PUBLISHING)
         == w.(disk := Disk(Stored(j.(status := Completed, failure := None)), None, Some(files)),
               process := None, result := Some(files))
  {
    AfterThree(w, StageResult, Move, Record);
    MovedAndRecorded(Next(w, StageResult), pid, j.(status := ResultStaged, failure := None), files);
  }

  /** Nothing was opened, so the result cannot be staged and the failure is recorded. */
  lemma NotStaged(w: World, pid: nat, j: Journal, files: Directory)
    requires w.process == Some(Process(pid, Phase.Writing, false, false))
    requires w.disk == Disk(Stored(j), Some(files), None) && j.status == Status.Reserved
    ensures After(w, PUBLISHING)
         == w.(disk := Disk(Stored(j.(status := RetryablePreOutcomeFailure, failure := Some(0))),
                            Some(files), None),
               process := None)
  {
    AfterThree(w, StageResult, Move, Record);
  }

  function Attempt(scenarios: seq<Scenario>, files: seq<(FileName, nat)>): seq<Step> {
    [Prepare] + (Evaluation(scenarios) + (Reporting(files) + PUBLISHING))
  }

  lemma AttemptIs(w: World, pid: nat, j: Journal, scenarios: seq<Scenario>,
                  files: seq<(FileName, nat)>)
    requires Fresh(w, pid, j) && w.disk.output.None?
    ensures var end, wrote := After(w, Attempt(scenarios, files)), FilesBy(pid, files);
            && end.process.None?
            && (if Reads(scenarios) == [] then
                  && end.disk == Disk(Stored(j.(status := RetryablePreOutcomeFailure,
                                                failure := Some(0))), Some(wrote), None)
                  && end.openings == w.openings && end.readers == w.readers
                else
                  && end.disk == Disk(Stored(j.(status := Completed, failure := None)), None,
                                      Some(wrote))
                  && end.openings == w.openings + [pid]
                  && end.readers == w.readers + Again(pid, |Reads(scenarios)|))
  {
    var prepared := Next(w, Prepare);
    Prepared(w, pid, j);
    AfterOne(w, Prepare);
    AfterBoth(w, [Prepare], Evaluation(scenarios) + (Reporting(files) + PUBLISHING));
    AfterBoth(prepared, Evaluation(scenarios), Reporting(files) + PUBLISHING);
    Evaluated(prepared, pid, j, scenarios);
    var evaluated := After(prepared, Evaluation(scenarios));
    AfterBoth(evaluated, Reporting(files), PUBLISHING);
    Reported(evaluated, pid, Reads(scenarios) != [], files);
    var reported := After(evaluated, Reporting(files));
    if Reads(scenarios) == [] {
      NotStaged(reported, pid, j, FilesBy(pid, files));
    } else {
      PublishedBy(reported, pid, j.(status := OutcomesOpened, failure := None), FilesBy(pid, files));
    }
  }

  // ---------------------------------------------------------------------------
  // The whole driver
  // ---------------------------------------------------------------------------

  /** The steps of a driver whose reservation the journal would grant with this decision. */
  function Driver(disk: Disk, pid: nat, req: Request, freshId: nat, scenarios: seq<Scenario>,
                  files: seq<(FileName, nat)>): seq<Step>
  {
    var decision := ReserveDecision(disk, req, freshId);
    Reserving(pid, req, freshId)
    + (if decision.Raised? then []
       else if decision.value.status == ResultStaged then [Move, Record]
       else if disk.output.Some? then [Prepare]
       else Attempt(scenarios, files))
  }

  lemma ResumedIs(w: World, pid: nat, j: Journal)
    requires w.process == Some(Process(pid, Moving, false, true))
    requires w.disk.journal == Stored(j) && j.status == ResultStaged
    ensures var end := After(w, [Move, Record]);
            && end.process.None? && end.openings == w.openings && end.readers == w.readers
            && end.disk == if Publication(w.disk).Done? then Publication(w.disk).value else w.disk
  {
    AfterOne(w, Move);
    OneMore(w, [Move], Record);
    assert [Move] + [Record] == [Move, Record];
  }

  /**
   Undisturbed, the steps lead from every disk to the disk that the driver leaves, with the opening and
   the reads of its own process and no others.
   */
  lemma DriverIsARun(w: World, pid: nat, req: Request, freshId: nat, scenarios: seq<Scenario>,
                     files: seq<(FileName, nat)>)
    requires Idle(w, pid)
    ensures var end := After(w, Driver(w.disk, pid, req, freshId, scenarios, files));
            var decision := ReserveDecision(w.disk, req, freshId);
            && end.process.None?
            && (if decision.Raised? then end == w
                else
                  var j, wrote := decision.value, FilesBy(pid, files);
                  var reserved := WithJournal(w.disk, j);
                  if j.status == ResultStaged then
                    && end.openings == w.openings && end.readers == w.readers
                    && end.disk == if Publication(reserved).Done? then Publication(reserved).value
                                   else reserved
                  else if w.disk.output.Some? then
                    end.openings == w.openings && end.readers == w.readers && end.disk == reserved
                  else if Reads(scenarios) == [] then
                    && end.openings == w.openings && end.readers == w.readers
                    && end.disk == Disk(Stored(j.(status := RetryablePreOutcomeFailure,
                                                  failure := Some(0))), Some(wrote), None)
                  else
                    && end.openings == w.openings + [pid]
                    && end.readers == w.readers + Again(pid, |Reads(scenarios)|)
                    && end.disk == Disk(Stored(j.(status := Completed, failure := None)), None,
                                        Some(wrote)))
  {
    var decision := ReserveDecision(w.disk, req, freshId);
    var reserving := Reserving(pid, req, freshId);
    ReservingIs(w, pid, req, freshId);
    var mid := After(w, reserving);
    if decision.Raised? {
      assert reserving + [] == reserving;
    } else if decision.value.status == ResultStaged {
      AfterBoth(w, reserving, [Move, Record]);
      ResumedIs(mid, pid, decision.value);
    } else if w.disk.output.Some? {
      AfterBoth(w, reserving, [Prepare]);
      AfterOne(mid, Prepare);
    } else {
      AfterBoth(w, reserving, Attempt(scenarios, files));
      AttemptIs(mid, pid, decision.value, scenarios, files);
    }
  }
}
