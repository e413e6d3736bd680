/** The journal and the two directories of one sealed final test, and each effect on them. */
module SealedExecution {
  import opened Wrappers

  datatype Status =
    | Reserved | RetryablePreOutcomeFailure | OutcomesOpened | FailedAfterOutcomes
    | ResultStaged | Completed

  /** What a request and the journal must agree on: manifest, integrity, commit, output path. */
  datatype Contract = Contract(manifest: nat, integrity: nat, commit: nat, outputPath: nat)

  datatype Journal = Journal(id: nat, contract: Contract, status: Status, attempts: nat,
                             failure: Option<nat>)

  /** `Torn` is a first write that a crash cut short: the file exists and is not valid JSON. */
  datatype JournalFile = Absent | Torn | Stored(journal: Journal)

  type FileName = nat

  /** Which attempt wrote a file, and what it put there. */
  datatype Artifact = Artifact(attempt: nat, text: nat)
  type Directory = map<FileName, Artifact>

  datatype Disk = Disk(journal: JournalFile, staging: Option<Directory>, output: Option<Directory>)

  datatype SealedError =
    | NothingToResume | OutputExists | InvalidJournal | ContractMismatch | ResumeIdRequired
    | WrongResumeId | NotRetryable | NotReserved | NotOpened | StagingMissing | NotStaged
    | BothDirectories | ResultDisappeared | StagingExists

  datatype Request = Request(contract: Contract, resume: Option<nat>)

  predicate Retryable(status: Status) {
    status in {Reserved, RetryablePreOutcomeFailure, ResultStaged}
  }

  /** The statuses at or after the opening of the outcomes. */
  predicate PastOpening(status: Status) {
    status in {OutcomesOpened, FailedAfterOutcomes, ResultStaged, Completed}
  }

  function WithJournal(disk: Disk, j: Journal): Disk {
    disk.(journal := Stored(j))
  }

  function LoadJournal(disk: Disk): Outcome<Journal, SealedError> {
    if disk.journal.Stored? then Done(disk.journal.journal) else Raised(InvalidJournal)
  }

  /** The journal that `reserve_sealed_execution` is about to write, from the one it read. */
  function ReserveDecision(disk: Disk, req: Request, freshId: nat): Outcome<Journal, SealedError> {
    match disk.journal
    case Absent =>
      if req.resume.Some? then Raised(NothingToResume)
      else if disk.output.Some? then Raised(OutputExists)
      else Done(Journal(freshId, req.contract, Reserved, 1, None))
    case Torn => Raised(InvalidJournal)
    case Stored(j) =>
      if j.contract != req.contract then Raised(ContractMismatch)
      else if req.resume.None? then Raised(ResumeIdRequired)
      else if req.resume.value != j.id then Raised(WrongResumeId)
      else if !Retryable(j.status) then Raised(NotRetryable)
      else
        var status := if j.status == RetryablePreOutcomeFailure then Reserved else j.status;
        Done(j.(status := status, attempts := j.attempts + 1,
                failure := if status == Reserved then None else j.failure))
  }

  /** The checks of `prepare_staging_output`; a pass is followed by the removal of staging. */
  function PrepareRejection(disk: Disk): Option<SealedError> {
    if !disk.journal.Stored? then Some(InvalidJournal)
    else if disk.journal.journal.status != Reserved then Some(NotReserved)
    else if disk.output.Some? then Some(OutputExists)
    else None
  }

  function Opening(disk: Disk): Outcome<Disk, SealedError> {
    var loaded := LoadJournal(disk);
    if loaded.Raised? then Raised(loaded.error)
    else if loaded.value.status == OutcomesOpened then Done(disk)
    else if loaded.value.status != Reserved then Raised(NotReserved)
    else Done(WithJournal(disk, loaded.value.(status := OutcomesOpened, failure := None)))
  }

  function FailureMark(disk: Disk, cause: nat): Outcome<Disk, SealedError> {
    var loaded := LoadJournal(disk);
    if loaded.Raised? then Raised(loaded.error)
    else
      var j := loaded.value;
      match j.status
      case Reserved =>
        Done(WithJournal(disk, j.(status := RetryablePreOutcomeFailure, failure := Some(cause))))
      case OutcomesOpened =>
        Done(WithJournal(disk, j.(status := FailedAfterOutcomes, failure := Some(cause))))
      case ResultStaged => Done(WithJournal(disk, j.(failure := Some(cause))))
      case _ => Done(disk)
  }

  function Staging(disk: Disk): Outcome<Disk, SealedError> {
    var loaded := LoadJournal(disk);
    if loaded.Raised? then Raised(loaded.error)
    else if loaded.value.status != OutcomesOpened then Raised(NotOpened)
    else if disk.staging.None? then Raised(StagingMissing)
    else Done(WithJournal(disk, loaded.value.(status := ResultStaged, failure := None)))
  }

  /** The first effect of a publication: the rename, skipped when it already happened. */
  function PublishMove(disk: Disk): Outcome<Disk, SealedError> {
    var loaded := LoadJournal(disk);
    if loaded.Raised? then Raised(loaded.error)
    else if loaded.value.status != ResultStaged then Raised(NotStaged)
    else if disk.staging.Some? && disk.output.Some? then Raised(BothDirectories)
    else if disk.staging.Some? then Done(disk.(staging := None, output := disk.staging))
    else if disk.output.None? then Raised(ResultDisappeared)
    else Done(disk)
  }

  /** Its second effect: the journal says completed. */
  function PublishRecord(disk: Disk, j: Journal): Disk {
    WithJournal(disk, j.(status := Completed, failure := None))
  }

  function Publication(disk: Disk): Outcome<Disk, SealedError> {
    var moved := PublishMove(disk);
    if moved.Raised? then moved else Done(PublishRecord(moved.value, disk.journal.journal))
  }

  /** A scenario without enough profiles or candidates is skipped before any outcome is read. */
  datatype Scenario = TooFewProfiles | NoCandidates | Evaluable

  datatype Event = OpenedOutcomes | ReadOutcomes(scenario: nat)

  function Reads(scenarios: seq<Scenario>): seq<Event> {
    if scenarios == [] then []
    else
      var front, last := scenarios[..|scenarios| - 1], |scenarios| - 1;
      Reads(front) + (if scenarios[last] == Evaluable then [ReadOutcomes(last)] else [])
  }

  /** One opening in front of all reads, and none at all when nothing is read. */
  function EventsOf(scenarios: seq<Scenario>): seq<Event> {
    if Reads(scenarios) == [] then [] else [OpenedOutcomes] + Reads(scenarios)
  }

  /** The directory that one attempt leaves after writing its files in order. */
  function FilesBy(attempt: nat, files: seq<(FileName, nat)>): Directory {
    if files == [] then map[]
    else
      var front, last := files[..|files| - 1], files[|files| - 1];
      FilesBy(attempt, front)[last.0 := Artifact(attempt, last.1)]
  }

  class SealedDisk {
    var journal: JournalFile
    var staging: Option<Directory>
    var output: Option<Directory>

    function State(): Disk
      reads this
    {
      Disk(journal, staging, output)
    }

    constructor (existing: Option<Directory>)
      ensures State() == Disk(Absent, None, existing)
    {
      journal, staging, output := Absent, None, existing;
    }

    method Reserve(req: Request, freshId: nat) returns (r: Outcome<Journal, SealedError>)
      modifies this`journal
      ensures r == ReserveDecision(old(State()), req, freshId)
      ensures State() == if r.Done? then WithJournal(old(State()), r.value) else old(State())
    {
      if journal.Absent? {
        if req.resume.Some? {
          return Raised(NothingToResume);
        }
        if output.Some? {
          return Raised(OutputExists);
        }
        journal := Stored(Journal(freshId, req.contract, Reserved, 1, None));
        return Done(journal.journal);
      }
      if journal.Torn? {
        return Raised(InvalidJournal);
      }
      var j := journal.journal;
      if j.contract != req.contract {
        return Raised(ContractMismatch);
      }
      if req.resume.None? {
        return Raised(ResumeIdRequired);
      }
      if req.resume.value != j.id {
        return Raised(WrongResumeId);
      }
      if !Retryable(j.status) {
        return Raised(NotRetryable);
      }
      if j.status == RetryablePreOutcomeFailure {
        j := j.(status := Reserved);
      }
      j := j.(attempts := j.attempts + 1);
      if j.status == Reserved {
        j := j.(failure := None);
      }
      journal := Stored(j);
      r := Done(j);
    }

    method PrepareStagingOutput() returns (r: Outcome<(), SealedError>)
      modifies this`staging
      ensures var rejection := PrepareRejection(old(State()));
              if rejection.Some? then r == Raised(rejection.value) && State() == old(State())
              else r == Done(()) && State() == old(State()).(staging := None)
    {
      var rejection := PrepareRejection(State());
      if rejection.Some? {
        return Raised(rejection.value);
      }
      if staging.Some? {
        RemoveTree();
      }
      r := Done(());
    }

    /** Files go one by one; the directory itself goes last. */
    method RemoveTree()
      requires staging.Some?
      modifies this`staging
      ensures State() == old(State()).(staging := None)
    {
      while staging.value != map[]
        invariant staging.Some?
        decreases |staging.value|
      {
        var name :| name in staging.value;
        OneFileLess(staging.value, name);
        staging := Some(staging.value - {name});
      }
      staging := None;
    }

    method MarkOutcomesOpened() returns (r: Outcome<(), SealedError>)
      modifies this`journal
      ensures var effect := Opening(old(State()));
              if effect.Done? then r == Done(()) && State() == effect.value
              else r == Raised(effect.error) && State() == old(State())
    {
      if !journal.Stored? {
        return Raised(InvalidJournal);
      }
      var current := journal.journal;
      if current.status != OutcomesOpened {
        if current.status != Reserved {
          return Raised(NotReserved);
        }
        journal := Stored(current.(status := OutcomesOpened, failure := None));
      }
      r := Done(());
    }

    method MarkExecutionFailure(cause: nat)
      modifies this`journal
      ensures var effect := FailureMark(old(State()), cause);
              State() == if effect.Done? then effect.value else old(State())
    {
      if journal.Stored? {
        var current := journal.journal;
        if current.status == Reserved {
          journal := Stored(current.(status := RetryablePreOutcomeFailure, failure := Some(cause)));
        } else if current.status == OutcomesOpened {
          journal := Stored(current.(status := FailedAfterOutcomes, failure := Some(cause)));
        } else if current.status == ResultStaged {
          journal := Stored(current.(failure := Some(cause)));
        }
      }
    }

    method MarkResultStaged() returns (r: Outcome<(), SealedError>)
      modifies this`journal
      ensures var effect := Staging(old(State()));
              if effect.Done? then r == Done(()) && State() == effect.value
              else r == Raised(effect.error) && State() == old(State())
    {
      if !journal.Stored? {
        return Raised(InvalidJournal);
      }
      if journal.journal.status != OutcomesOpened {
        return Raised(NotOpened);
      }
      if staging.None? {
        return Raised(StagingMissing);
      }
      journal := Stored(journal.journal.(status := ResultStaged, failure := None));
      r := Done(());
    }

    method PublishStagedResult() returns (r: Outcome<(), SealedError>)
      modifies this
      ensures var effect := Publication(old(State()));
              if effect.Done? then r == Done(()) && State() == effect.value
              else r == Raised(effect.error) && State() == old(State())
    {
      if !journal.Stored? {
        return Raised(InvalidJournal);
      }
      var current := journal.journal;
      if current.status != ResultStaged {
        return Raised(NotStaged);
      }
      if staging.Some? && output.Some? {
        return Raised(BothDirectories);
      }
      if staging.Some? {
        staging, output := None, staging;
      } else if output.None? {
        return Raised(ResultDisappeared);
      }
      journal := Stored(current.(status := Completed, failure := None));
      r := Done(());
    }

    /** The evaluation loop: the callback runs once, before the first read of any outcome. */
    method RunScenarios(scenarios: seq<Scenario>)
      returns (r: Outcome<(), SealedError>, events: seq<Event>)
      modifies this`journal
      ensures var effect := Opening(old(State()));
              if Reads(scenarios) == [] then
                r == Done(()) && events == [] && State() == old(State())
              else if effect.Done? then
                r == Done(()) && events == EventsOf(scenarios) && State() == effect.value
              else
                r == Raised(effect.error) && events == [] && State() == old(State())
    {
      events := [];
      var outcomesOpened := false;
      for i := 0 to |scenarios|
        invariant events == EventsOf(scenarios[..i])
        invariant outcomesOpened <==> Reads(scenarios[..i]) != []
        invariant outcomesOpened ==>
                    Opening(old(State())).Done? && State() == Opening(old(State())).value
        invariant !outcomesOpened ==> State() == old(State())
      {
        ReadsSplit(scenarios, i);
        if scenarios[i] != Evaluable {
          continue;
        }
        if !outcomesOpened {
          var marked := MarkOutcomesOpened();
          if marked.Raised? {
            ReadsNonEmpty(scenarios, i);
            return Raised(marked.error), [];
          }
          outcomesOpened := true;
          events := events + [OpenedOutcomes];
        }
        events := events + [ReadOutcomes(i)];
      }
      assert scenarios[..|scenarios|] == scenarios;
      r := Done(());
    }

    /** Makes the staging directory and writes the report files into it. */
    method WriteArtifacts(attempt: nat, files: seq<(FileName, nat)>)
      returns (r: Outcome<(), SealedError>)
      modifies this`staging
      ensures if old(staging).Some? then r == Raised(StagingExists) && staging == old(staging)
              else r == Done(()) && staging == Some(FilesBy(attempt, files))
    {
      if staging.Some? {
        return Raised(StagingExists);
      }
      staging := Some(map[]);
      for i := 0 to |files|
        invariant staging == Some(FilesBy(attempt, files[..i]))
      {
        assert files[..i + 1][..i] == files[..i];
        staging := Some(staging.value[files[i].0 := Artifact(attempt, files[i].1)]);
      }
      assert files[..|files|] == files;
      r := Done(());
    }

    /** The guarded part of the driver: evaluate, write, stage, publish. */
    method EvaluateAndPublish(attempt: nat, scenarios: seq<Scenario>, files: seq<(FileName, nat)>)
      returns (r: Outcome<(), SealedError>)
      requires journal.Stored? && journal.journal.status == Reserved
      requires staging.None? && output.None?
      modifies this
      ensures var j, wrote := old(journal.journal), FilesBy(attempt, files);
              if Reads(scenarios) == [] then
                && r == Raised(NotOpened)
                && State() == Disk(old(journal), Some(wrote), None)
              else
                && r == Done(())
                && State() == Disk(Stored(j.(status := Completed, failure := None)), None,
                                   Some(wrote))
    {
      var run, _ := RunScenarios(scenarios);
      if run.Raised? {
        return run;
      }
      var written := WriteArtifacts(attempt, files);
      var staged := MarkResultStaged();
      if staged.Raised? {
        return staged;
      }
      r := PublishStagedResult();
    }

    /** The whole driver, when nothing crashes. */
    method ExecuteFinalTest(req: Request, freshId: nat, scenarios: seq<Scenario>,
                            files: seq<(FileName, nat)>) returns (r: Outcome<(), SealedError>)
      modifies this
      ensures var before, decision := old(State()), ReserveDecision(old(State()), req, freshId);
              if decision.Raised? then r == Raised(decision.error) && State() == before
              else
                var j := decision.value;
                var reserved := WithJournal(before, j);
                if j.status == ResultStaged then
                  var published := Publication(reserved);
                  if published.Done? then r == Done(()) && State() == published.value
                  else r == Raised(published.error) && State() == reserved
                else if before.output.Some? then
                  r == Raised(OutputExists) && State() == reserved
                else
                  var wrote := FilesBy(j.attempts, files);
                  if Reads(scenarios) == [] then
                    && r == Raised(NotOpened)
                    && State() == Disk(Stored(j.(status := RetryablePreOutcomeFailure,
                                                 failure := Some(0))), Some(wrote), None)
                  else
                    && r == Done(())
                    && State() == Disk(Stored(j.(status := Completed, failure := None)), None,
                                       Some(wrote))
    {
      var reserved := Reserve(req, freshId);
      if reserved.Raised? {
        return Raised(reserved.error);
      }
      if reserved.value.status == ResultStaged {
        r := PublishStagedResult();
        return;
      }
      var prepared := PrepareStagingOutput();
      if prepared.Raised? {
        return prepared;
      }
      r := EvaluateAndPublish(reserved.value.attempts, scenarios, files);
      if r.Raised? {
        MarkExecutionFailure(0);
      }
    }
  }

  lemma OneFileLess(files: Directory, name: FileName)
    requires name in files
    ensures |files - {name}| < |files|
  {
    assert (files - {name}).Keys == files.Keys - {name};
    assert |files - {name}| == |(files - {name}).Keys| && |files| == |files.Keys|;
  }

  lemma ReadsSplit(scenarios: seq<Scenario>, i: nat)
    requires i < |scenarios|
    ensures Reads(scenarios[..i + 1])
         == Reads(scenarios[..i]) + (if scenarios[i] == Evaluable then [ReadOutcomes(i)] else [])
  {
    assert scenarios[..i + 1][..i] == scenarios[..i];
  }

  lemma {:induction false} ReadsNonEmpty(scenarios: seq<Scenario>, i: nat)
    requires i < |scenarios| && scenarios[i] == Evaluable
    ensures Reads(scenarios) != []
  {
    if i < |scenarios| - 1 {
      ReadsNonEmpty(scenarios[..|scenarios| - 1], i);
    }
  }

  /** The events of a run: every evaluable scenario is read once, in order, after one opening. */
  lemma {:induction false} ReadsAreEvaluable(scenarios: seq<Scenario>, i: nat)
    ensures ReadOutcomes(i) in Reads(scenarios)
       <==> i < |scenarios| && scenarios[i] == Evaluable
    ensures OpenedOutcomes !in Reads(scenarios)
    ensures |Reads(scenarios)| <= |scenarios|
  {
    if scenarios != [] {
      ReadsAreEvaluable(scenarios[..|scenarios| - 1], i);
    }
  }
}
