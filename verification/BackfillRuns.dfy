/**
 The partitioned backfill: a frozen plan, one insert command a partition, one checkpoint row a
 partition, and resumption from what the plan, the checkpoint file and the inserted rows say. A run
 may die between any two effects and inside the plan and checkpoint writes. Runs do not overlap.

 The source query must return every remainder below the partition count, so the expected counts
 are a sequence indexed by remainder.
 */
module BackfillRuns {
  import opened Wrappers
  import opened AppendOnlyLog
  import opened Sorting

  datatype Counts = Counts(events: nat, users: nat)
  datatype Partition = Partition(count: nat, remainder: int)
  datatype Mark = Mark(planned: Counts, succeeded: bool)

  type CheckpointLine = Line<Partition, Mark>

  datatype BackfillError =
    | UnreadableCheckpoint
    | IncompleteStatus
    | DuplicateCheckpoint
    | UnknownPartition
    | CompletedDiffers
    | UncheckpointedRows

  // ---------------------------------------------------------------------------
  // Reading the checkpoint file
  // ---------------------------------------------------------------------------

  function Completed(lines: seq<CheckpointLine>): Outcome<set<int>, BackfillError> {
    if lines == [] then Done({})
    else
      match Completed(lines[..|lines| - 1])
      case Raised(e) => Raised(e)
      case Done(found) => CompletedLine(found, lines[|lines| - 1])
  }

  function CompletedLine(found: set<int>, line: CheckpointLine): Outcome<set<int>, BackfillError> {
    match line
    case Malformed => Raised(UnreadableCheckpoint)
    case Row(identity, mark) =>
      if !mark.succeeded then Raised(IncompleteStatus)
      else if identity.remainder in found then Raised(DuplicateCheckpoint)
      else Done(found + {identity.remainder})
  }

  /** `completed_partitions`. */
  method CompletedPartitions(lines: seq<CheckpointLine>) returns (r: Outcome<set<int>, BackfillError>)
    ensures r == Completed(lines)
  {
    var result: set<int> := {};
    for i := 0 to |lines|
      invariant Completed(lines[..i]) == Done(result)
    {
      assert lines[..i + 1][..i] == lines[..i];
      var step := CompletedLine(result, lines[i]);
      if step.Raised? {
        CompletedRaises(lines, i + 1);
        return step;
      }
      result := step.value;
    }
    assert lines[..|lines|] == lines;
    r := Done(result);
  }

  lemma {:induction false} CompletedRaises(lines: seq<CheckpointLine>, n: nat)
    requires n <= |lines| && Completed(lines[..n]).Raised?
    ensures Completed(lines) == Completed(lines[..n])
    decreases |lines|
  {
    if n == |lines| {
      assert lines[..n] == lines;
    } else {
      assert lines[..|lines| - 1][..n] == lines[..n];
      CompletedRaises(lines[..|lines| - 1], n);
    }
  }

  /** The partitions that some row of the file names. */
  function Named(lines: seq<CheckpointLine>): set<int> {
    set line | line in lines && line.Row? :: line.identity.remainder
  }

  /** A file that is accepted has no broken line, and what it completes is what its rows name. */
  lemma {:induction false} CompletedIsNamed(lines: seq<CheckpointLine>)
    requires Completed(lines).Done?
    ensures Malformed !in lines && Completed(lines).value == Named(lines)
  {
    if lines != [] {
      var front, last := lines[..|lines| - 1], lines[|lines| - 1];
      CompletedIsNamed(front);
      assert lines == front + [last];
      assert last in lines;
      assert forall line :: line in lines <==> line in front || line == last;
      assert Named(lines) == Named(front) + {last.identity.remainder};
    }
  }

  // ---------------------------------------------------------------------------
  // Planning
  // ---------------------------------------------------------------------------

  type Rows = map<int, Counts>

  predicate Known(expected: seq<Counts>, actual: Rows) {
    forall k :: k in actual ==> 0 <= k < |expected|
  }

  /** What is wrong with one planned partition, if anything. */
  function Fault(expected: seq<Counts>, actual: Rows, completed: set<int>, i: nat): Option<BackfillError>
    requires i < |expected|
  {
    if i in completed then
      if i in actual && actual[i] == expected[i] then None else Some(CompletedDiffers)
    else if i in actual then Some(UncheckpointedRows)
    else None
  }

  /** The pending partitions below `n`, in order, or the first fault. */
  function PendingBelow(expected: seq<Counts>, actual: Rows, completed: set<int>, n: nat)
    : Outcome<seq<int>, BackfillError>
    requires n <= |expected|
  {
    if n == 0 then Done([])
    else
      match PendingBelow(expected, actual, completed, n - 1)
      case Raised(e) => Raised(e)
      case Done(pending) =>
        var fault := Fault(expected, actual, completed, n - 1);
        if fault.Some? then Raised(fault.value)
        else if n - 1 in completed then Done(pending)
        else Done(pending + [n - 1])
  }

  function PlanResume(expected: seq<Counts>, actual: Rows, completed: set<int>)
    : Outcome<seq<int>, BackfillError>
  {
    if !Known(expected, actual) then Raised(UnknownPartition)
    else PendingBelow(expected, actual, completed, |expected|)
  }

  /** `plan_resume_actions`. */
  method PlanResumeActions(expected: seq<Counts>, actual: Rows, completed: set<int>)
    returns (r: Outcome<seq<int>, BackfillError>)
    ensures r == PlanResume(expected, actual, completed)
  {
    if !Known(expected, actual) {
      return Raised(UnknownPartition);
    }
    var pending: seq<int> := [];
    for i := 0 to |expected|
      invariant PendingBelow(expected, actual, completed, i) == Done(pending)
    {
      if i in completed {
        if i !in actual || actual[i] != expected[i] {
          FaultStays(expected, actual, completed, i + 1);
          return Raised(CompletedDiffers);
        }
      } else {
        if i in actual {
          FaultStays(expected, actual, completed, i + 1);
          return Raised(UncheckpointedRows);
        }
        pending := pending + [i];
      }
    }
    r := Done(pending);
  }

  lemma {:induction false} FaultStays(expected: seq<Counts>, actual: Rows, completed: set<int>, n: nat)
    requires n <= |expected| && PendingBelow(expected, actual, completed, n).Raised?
    ensures (PendingBelow(expected, actual, completed, |expected|)
             == PendingBelow(expected, actual, completed, n))
    decreases |expected| - n
  {
    if n < |expected| {
      FaultStays(expected, actual, completed, n + 1);
    }
  }

  lemma {:induction false} PendingIs(expected: seq<Counts>, actual: Rows, completed: set<int>, n: nat)
    requires n <= |expected|
    ensures var r := PendingBelow(expected, actual, completed, n);
            && (r.Done? <==> forall i :: 0 <= i < n ==> Fault(expected, actual, completed, i).None?)
            && (r.Done? ==> && Increasing(r.value)
                            && forall x :: x in r.value <==> 0 <= x < n && x !in completed)
            && (r.Raised? ==> exists i :: 0 <= i < n && Fault(expected, actual, completed, i) == Some(r.error)
                                    && forall j :: 0 <= j < i ==> Fault(expected, actual, completed, j).None?)
  {
    if n > 0 {
      PendingIs(expected, actual, completed, n - 1);
      var before := PendingBelow(expected, actual, completed, n - 1);
      if before.Done? {
        forall k | 0 <= k < |before.value| ensures before.value[k] < n - 1 {
          assert before.value[k] in before.value;
        }
      }
    }
  }

  /**
   A run may resume exactly when every row belongs to the plan and each planned partition is
   either checkpointed with exactly its planned counts or has neither checkpoint nor rows; the
   partitions left to insert are then precisely those without a checkpoint, in order.
   */
  lemma ResumableIff(expected: seq<Counts>, actual: Rows, completed: set<int>)
    ensures var r := PlanResume(expected, actual, completed);
            && (r.Done? <==>
                && Known(expected, actual)
                && forall i :: 0 <= i < |expected| ==>
                     if i in completed then i in actual && actual[i] == expected[i] else i !in actual)
            && (r.Done? ==> && Increasing(r.value)
                            && forall x :: x in r.value <==> 0 <= x < |expected| && x !in completed)
  {
    PendingIs(expected, actual, completed, |expected|);
    forall i | 0 <= i < |expected|
      ensures (Fault(expected, actual, completed, i).None?
               <==> if i in completed then i in actual && actual[i] == expected[i] else i !in actual)
    {
    }
  }

  // ---------------------------------------------------------------------------
  // Runs
  // ---------------------------------------------------------------------------

  datatype PlanFile = NoPlan | TornPlan | Frozen(expected: seq<Counts>)

  /** A run in its loop; `inserted` says that actions[next] has been inserted and not checkpointed. */
  datatype Process = Process(expected: seq<Counts>, actions: seq<int>, next: nat, inserted: bool)

  /** One insert command, with what the partition already had when it was issued. */
  datatype Insertion = Insertion(remainder: int, hadRows: bool, hadMark: bool)

  /** `marked` are the partitions for which a whole checkpoint row was ever written. */
  datatype World = World(plan: PlanFile, log: File<Partition, Mark>, rows: Rows,
                         process: Option<Process>, marked: set<int>, inserts: seq<Insertion>)

  function Fresh(rows: Rows): World {
    World(NoPlan, File([], true), rows, None, {}, [])
  }

  datatype Step =
    | Begin(expected: seq<Counts>, planOnly: bool)
    | TearPlan
    | Insert(after: Option<Counts>, ok: bool)
    | Append
    | TearAppend(tear: Tear)
    | Finish
    | Crash

  function Stop(w: World): World {
    w.(process := None)
  }

  /** `write_or_verify_plan` and the first planning of `main`. */
  function Begun(w: World, expected: seq<Counts>, planOnly: bool): World {
    if w.plan != NoPlan && w.plan != Frozen(expected) then w
    else
      var planned := w.(plan := Frozen(expected));
      match Completed(w.log.lines)
      case Raised(_) => planned
      case Done(completed) =>
        match PlanResume(expected, w.rows, completed)
        case Raised(_) => planned
        case Done(actions) =>
          if planOnly then planned else planned.(process := Some(Process(expected, actions, 0, false)))
  }

  /** `run_partition`: it may add rows whether or not it succeeds, and never removes any. */
  function Inserted(w: World, p: Process, after: Option<Counts>, ok: bool): World
    requires p.next < |p.actions|
  {
    var remainder := p.actions[p.next];
    w.(rows := if after.Some? then w.rows[remainder := after.value] else w.rows,
       inserts := w.inserts + [Insertion(remainder, remainder in w.rows, remainder in w.marked)],
       process := if ok then Some(p.(inserted := true)) else None)
  }

  predicate InPlan(p: Process) {
    && p.next <= |p.actions|
    && (p.inserted ==> p.next < |p.actions|)
    && forall x :: x in p.actions ==> 0 <= x < |p.expected|
  }

  function CheckpointRecord(p: Process): Record<Partition, Mark>
    requires InPlan(p) && p.inserted
  {
    var remainder := p.actions[p.next];
    assert remainder in p.actions;
    Identified(Partition(|p.expected|, remainder), Mark(p.expected[remainder], true))
  }

  /** The rows that the append of one checkpoint decides to write. */
  function Decided(w: World, p: Process): Outcome<seq<CheckpointLine>, LogError>
    requires InPlan(p) && p.inserted
  {
    match Load(w.log.lines)
    case Raised(e) => Raised(e)
    case Done(known) =>
      match Scan(known, [CheckpointRecord(p)])
      case Raised(e) => Raised(e)
      case Done(batch) => Done(batch.pending)
  }

  function Appended(w: World, p: Process): World
    requires InPlan(p) && p.inserted && w.log.WellFormed()
  {
    match Decided(w, p)
    case Raised(_) => Stop(w)
    case Done(pending) =>
      w.(log := Write(w.log, pending),
         marked := w.marked + {p.actions[p.next]},
         process := Some(p.(next := p.next + 1, inserted := false)))
  }

  function AppendTorn(w: World, p: Process, tear: Tear): World
    requires InPlan(p) && p.inserted && w.log.WellFormed()
  {
    match Decided(w, p)
    case Raised(_) => Stop(w)
    case Done(pending) =>
      if pending == [] then Stop(w)
      else
        var whole := tear == NewlineMissing && w.log.terminated;
        Stop(w.(log := Torn(w.log, pending[0], tear),
                marked := if whole then w.marked + {p.actions[p.next]} else w.marked))
  }

  /** The last check of `main`: nothing is left to insert. */
  predicate ReportsComplete(w: World, expected: seq<Counts>) {
    && Completed(w.log.lines).Done?
    && PlanResume(expected, w.rows, Completed(w.log.lines).value) == Done([])
  }

  /** A step that is not possible where the run stands changes nothing. */
  ghost function Next(w: World, step: Step): World
    requires w.log.WellFormed() && (w.process.Some? ==> InPlan(w.process.value))
  {
    match w.process
    case None =>
      (match step
       case Begin(expected, planOnly) => Begun(w, expected, planOnly)
       case TearPlan => if w.plan == NoPlan then w.(plan := TornPlan) else w
       case _ => w)
    case Some(p) =>
      (match step
       case Insert(after, ok) => if p.next < |p.actions| && !p.inserted then Inserted(w, p, after, ok) else w
       case Append => if p.inserted then Appended(w, p) else w
       case TearAppend(tear) => if p.inserted then AppendTorn(w, p, tear) else w
       case Finish => if p.next == |p.actions| && !p.inserted then Stop(w) else w
       case Crash => Stop(w)
       case _ => w)
  }

  // ---------------------------------------------------------------------------
  // The invariant
  // ---------------------------------------------------------------------------

  /** The partitions a process has still to insert. */
  function Pending(p: Process): set<int>
    requires InPlan(p)
  {
    var from := if p.inserted then p.next + 1 else p.next;
    set i | from <= i < |p.actions| :: p.actions[i]
  }

  /** Every checkpoint written is still in the file, unless the file is broken for good. */
  ghost predicate MarksKept(w: World) {
    Malformed in w.log.lines || w.marked <= Named(w.log.lines)
  }

  ghost predicate ProcessFits(w: World, p: Process) {
    && InPlan(p) && Increasing(p.actions)
    && w.plan == Frozen(p.expected)
    && forall x :: x in Pending(p) ==> x !in w.rows && x !in w.marked
  }

  ghost predicate Inv(w: World) {
    && w.log.WellFormed()
    && MarksKept(w)
    && (w.process.Some? ==> ProcessFits(w, w.process.value))
    && forall i :: 0 <= i < |w.inserts| ==> !w.inserts[i].hadRows && !w.inserts[i].hadMark
  }

  lemma BegunKeepsInv(w: World, expected: seq<Counts>, planOnly: bool)
    requires Inv(w) && w.process.None?
    ensures Inv(Begun(w, expected, planOnly))
  {
    if Completed(w.log.lines).Done? {
      CompletedIsNamed(w.log.lines);
      ResumableIff(expected, w.rows, Completed(w.log.lines).value);
    }
  }

  lemma InsertedKeepsInv(w: World, p: Process, after: Option<Counts>, ok: bool)
    requires Inv(w) && w.process == Some(p) && p.next < |p.actions| && !p.inserted
    ensures Inv(Inserted(w, p, after, ok))
  {
    assert p.actions[p.next] in Pending(p);
    assert Pending(p.(inserted := true)) <= Pending(p);
  }

  lemma PendingShrinks(p: Process)
    requires InPlan(p) && p.inserted && Increasing(p.actions)
    ensures Pending(p.(next := p.next + 1, inserted := false)) == Pending(p)
    ensures p.actions[p.next] !in Pending(p)
  {
  }

  lemma WriteKeepsNames(file: File<Partition, Mark>, row: CheckpointLine)
    requires file.WellFormed() && row.Row?
    ensures (Malformed in Write(file, [row]).lines
             || Named(Write(file, [row]).lines) >= Named(file.lines) + {row.identity.remainder})
  {
    var lines := Write(file, [row]).lines;
    if file.terminated {
      assert row in lines;
      assert forall line :: line in file.lines ==> line in lines;
    } else {
      assert lines[|file.lines| - 1] == Malformed;
    }
  }

  lemma TornKeepsNames(file: File<Partition, Mark>, row: CheckpointLine, tear: Tear)
    requires file.WellFormed() && row.Row?
    ensures (Malformed in Torn(file, row, tear).lines
             || (&& Named(Torn(file, row, tear).lines) >= Named(file.lines)
                 && (tear == NewlineMissing && file.terminated ==>
                       row.identity.remainder in Named(Torn(file, row, tear).lines))))
  {
    var lines := Torn(file, row, tear).lines;
    if tear == NewlineMissing && file.terminated {
      assert row in lines;
      assert forall line :: line in file.lines ==> line in lines;
    } else if tear != NothingWritten {
      assert lines[|lines| - 1] == Malformed;
    }
  }

  /** What the append of one checkpoint writes: its row, unless an identical one is there. */
  lemma DecidedRow(w: World, p: Process)
    requires InPlan(p) && p.inserted && Decided(w, p).Done?
    ensures Load(w.log.lines).Done?
    ensures var record := CheckpointRecord(p);
            && (Decided(w, p).value == [] || Decided(w, p).value == [Row(record.identity, record.body)])
            && (Decided(w, p).value == [] ==> record.identity in Load(w.log.lines).value)
  {
    var record, known := CheckpointRecord(p), Load(w.log.lines).value;
    assert [record][..0] == [];
    assert Scan(known, []) == Done(Batch([], 0, known));
  }

  lemma {:induction false} LoadedIsNamed(lines: seq<CheckpointLine>, id: Partition)
    requires Load(lines).Done? && id in Load(lines).value
    ensures id.remainder in Named(lines)
  {
    var front, last := lines[..|lines| - 1], lines[|lines| - 1];
    assert last in lines;
    if id in Load(front).value {
      LoadedIsNamed(front, id);
      assert forall line :: line in front ==> line in lines;
    }
  }

  lemma AppendedKeepsInv(w: World, p: Process)
    requires Inv(w) && w.process == Some(p) && p.inserted
    ensures Inv(Appended(w, p))
  {
    if Decided(w, p).Done? {
      DecidedRow(w, p);
      PendingShrinks(p);
      AppendedKeepsMarks(w, p);
    }
  }

  lemma AppendedKeepsMarks(w: World, p: Process)
    requires Inv(w) && p.inserted && InPlan(p) && Decided(w, p).Done?
    ensures MarksKept(Appended(w, p))
  {
    DecidedRow(w, p);
    var pending := Decided(w, p).value;
    if pending == [] {
      LoadedIsNamed(w.log.lines, CheckpointRecord(p).identity);
    } else {
      BrokenOrNamed(w, pending[0]);
    }
  }

  lemma BrokenOrNamed(w: World, row: CheckpointLine)
    requires w.log.WellFormed() && MarksKept(w) && row.Row?
    ensures (Malformed in Write(w.log, [row]).lines
             || w.marked + {row.identity.remainder} <= Named(Write(w.log, [row]).lines))
  {
    WriteKeepsNames(w.log, row);
    if Malformed in w.log.lines {
      BrokenStaysBroken(w.log, [row], row, NothingWritten);
    }
  }

  lemma TornKeepsInv(w: World, p: Process, tear: Tear)
    requires Inv(w) && w.process == Some(p) && p.inserted
    ensures Inv(AppendTorn(w, p, tear))
  {
    if Decided(w, p).Done? && Decided(w, p).value != [] {
      DecidedRow(w, p);
      var row := Decided(w, p).value[0];
      TornKeepsNames(w.log, row, tear);
      if Malformed in w.log.lines {
        BrokenStaysBroken(w.log, [], row, tear);
      }
    }
  }

  lemma StepKeepsInv(w: World, step: Step)
    requires Inv(w)
    ensures Inv(Next(w, step))
  {
    match w.process {
      case None =>
        if step.Begin? {
          BegunKeepsInv(w, step.expected, step.planOnly);
        }
      case Some(p) =>
        if step.Insert? && p.next < |p.actions| && !p.inserted {
          InsertedKeepsInv(w, p, step.after, step.ok);
        } else if step.Append? && p.inserted {
          AppendedKeepsInv(w, p);
        } else if step.TearAppend? && p.inserted {
          TornKeepsInv(w, p, step.tear);
        }
    }
  }

  /** Every world reached from fresh files by any number of runs, with crashes anywhere. */
  ghost function Run(rows: Rows, steps: seq<Step>): (w: World)
    ensures Inv(w)
  {
    if steps == [] then Fresh(rows)
    else
      var before := Run(rows, steps[..|steps| - 1]);
      StepKeepsInv(before, steps[|steps| - 1]);
      Next(before, steps[|steps| - 1])
  }

  // ---------------------------------------------------------------------------
  // The theorems
  // ---------------------------------------------------------------------------

  /**
   Over any number of runs, the partition whose insert command comes next has no row and never had
   a checkpoint written.
   */
  lemma InsertsOnlyFresh(rows: Rows, steps: seq<Step>)
    requires var w := Run(rows, steps);
             w.process.Some? && !w.process.value.inserted && w.process.value.next < |w.process.value.actions|
    ensures var w := Run(rows, steps);
            var remainder := w.process.value.actions[w.process.value.next];
            remainder !in w.rows && remainder !in w.marked
  {
    var p := Run(rows, steps).process.value;
    assert p.actions[p.next] in Pending(p);
  }

  /** Rows and written checkpoints are never taken back, so a partition once shut out stays out. */
  lemma StepOnlyAdds(w: World, step: Step)
    requires Inv(w)
    ensures w.rows.Keys <= Next(w, step).rows.Keys
    ensures w.marked <= Next(w, step).marked
    ensures w.inserts <= Next(w, step).inserts
  {
    match w.process {
      case None =>
      case Some(p) => if step.TearAppend? && p.inserted && Decided(w, p).Done? {
        DecidedRow(w, p);
      }
    }
  }

  /** A run that reports completion has inserted exactly the frozen plan, no more and no less. */
  lemma CompleteMeansFrozenPlan(rows: Rows, steps: seq<Step>)
    requires var w := Run(rows, steps);
             w.process.Some? && ReportsComplete(w, w.process.value.expected)
    ensures var w := Run(rows, steps);
            var expected := w.process.value.expected;
            && w.plan == Frozen(expected)
            && w.rows == map i | 0 <= i < |expected| :: expected[i]
  {
    var w := Run(rows, steps);
    var expected := w.process.value.expected;
    var completed := Completed(w.log.lines).value;
    ResumableIff(expected, w.rows, completed);
    assert forall i :: 0 <= i < |expected| ==> i in completed;
  }

  /** When exactly a run with this plan gets past planning and into its loop. */
  lemma BeginsIff(w: World, expected: seq<Counts>)
    requires w.process.None?
    ensures (Begun(w, expected, false).process.Some?
             <==> && (w.plan == NoPlan || w.plan == Frozen(expected))
                  && Completed(w.log.lines).Done?
                  && Known(expected, w.rows)
                  && forall i :: 0 <= i < |expected| ==>
                       if i in Named(w.log.lines) then i in w.rows && w.rows[i] == expected[i]
                       else i !in w.rows)
  {
    if Completed(w.log.lines).Done? {
      CompletedIsNamed(w.log.lines);
      ResumableIff(expected, w.rows, Completed(w.log.lines).value);
    }
  }

  lemma RunExtends(rows: Rows, steps: seq<Step>, step: Step)
    ensures Run(rows, steps + [step]) == Next(Run(rows, steps), step)
  {
    assert (steps + [step])[..|steps|] == steps;
  }

  /**
   A crash between an insert that added rows and its checkpoint is never repaired: with the plan
   frozen no step of any later run changes anything, until somebody removes the rows.
   */
  lemma UncheckpointedRowsBlock(w: World, expected: seq<Counts>, i: nat)
    requires Inv(w) && w.process.None? && i < |expected| && w.plan == Frozen(expected)
    requires i in w.rows && i !in Named(w.log.lines)
    ensures forall step :: Next(w, step) == w
  {
    forall step ensures Next(w, step) == w {
      if step.Begin? && step.expected == expected {
        BeginsIff(w, expected);
      }
    }
  }

  // ---------------------------------------------------------------------------
  // A broken checkpoint file
  // ---------------------------------------------------------------------------

  /** The insert commands that the running process can still issue before it must append. */
  function OneMoreInsert(w: World): nat {
    if w.process.Some? && w.process.value.next < |w.process.value.actions|
       && !w.process.value.inserted then 1
    else 0
  }

  lemma BrokenIsNotRead(lines: seq<CheckpointLine>)
    requires Malformed in lines
    ensures Completed(lines).Raised? && Load(lines).Raised?
  {
    MalformedIsUnreadable(lines);
    if Completed(lines).Done? {
      CompletedIsNamed(lines);
    }
  }

  /** No run has begun in between, and at most the one under way has issued another command. */
  ghost predicate NothingBegun(w: World, later: World) {
    && later.log == w.log
    && (w.process.None? ==>
          later.process.None? && later.rows == w.rows && later.inserts == w.inserts)
    && |later.inserts| + OneMoreInsert(later) <= |w.inserts| + OneMoreInsert(w)
  }

  lemma BrokenStep(w: World, step: Step)
    requires Inv(w) && Malformed in w.log.lines
    ensures NothingBegun(w, Next(w, step))
  {
    BrokenIsNotRead(w.log.lines);
  }

  lemma NothingBegunTransitive(a: World, b: World, c: World)
    requires NothingBegun(a, b) && NothingBegun(b, c)
    ensures NothingBegun(a, c)
  {
  }

  /**
   Once a line of the checkpoint file is broken no run ever gets past planning again, and the run
   that is under way issues at most one more insert command, whose rows nothing will account for.
   */
  lemma {:induction false} BrokenLogStopsBackfill(rows: Rows, steps: seq<Step>, more: seq<Step>)
    requires Malformed in Run(rows, steps).log.lines
    ensures NothingBegun(Run(rows, steps), Run(rows, steps + more))
  {
    if more == [] {
      assert steps + more == steps;
    } else {
      var front, last := more[..|more| - 1], more[|more| - 1];
      BrokenLogStopsBackfill(rows, steps, front);
      assert steps + more == (steps + front) + [last];
      RunExtends(rows, steps + front, last);
      var mid := Run(rows, steps + front);
      BrokenStep(mid, last);
      NothingBegunTransitive(Run(rows, steps), mid, Next(mid, last));
    }
  }

  /** An append to a file whose last row lost its newline breaks the file. */
  lemma AppendAfterTearBreaks(w: World, p: Process)
    requires Inv(w) && w.process == Some(p) && p.inserted && !w.log.terminated
    requires Decided(w, p).Done? && Decided(w, p).value != []
    ensures Malformed in Next(w, Append).log.lines
  {
    DecidedRow(w, p);
    UnterminatedRowPoisons(w.log, Load(w.log.lines).value, [CheckpointRecord(p)]);
  }

  const ONE := Counts(1, 1)
  const BOTH: seq<Counts> := [ONE, ONE]
  const FIRST_ROW: CheckpointLine := Row(Partition(2, 0), Mark(ONE, true))

  lemma ExtendedBy(rows: Rows, steps: seq<Step>, w: World, step: Step) returns (more: seq<Step>)
    requires Run(rows, steps) == w
    ensures Inv(w) && more == steps + [step] && Run(rows, more) == Next(w, step)
  {
    RunExtends(rows, steps, step);
    more := steps + [step];
  }

  lemma TwoPending(actual: Rows, completed: set<int>)
    requires Fault(BOTH, actual, completed, 0).None? && Fault(BOTH, actual, completed, 1).None?
    requires Known(BOTH, actual) && 1 !in completed
    ensures PlanResume(BOTH, actual, completed) == Done(if 0 in completed then [1] else [0, 1])
  {
    assert PendingBelow(BOTH, actual, completed, 0) == Done([]);
    var one := PendingBelow(BOTH, actual, completed, 1);
    assert one.Done? && one.value == if 0 in completed then [] else [0];
    var two := PendingBelow(BOTH, actual, completed, 2);
    assert two.Done? && two.value == if 0 in completed then [1] else [0, 1];
  }

  lemma OneRecord(known: map<Partition, Mark>, id: Partition, body: Mark)
    requires id !in known
    ensures Scan(known, [Identified(id, body)])
         == Done(Batch([Row(id, body)], 0, known[id := body]))
  {
    var records := [Identified(id, body)];
    assert records[..0] == [];
    assert Scan(known, records[..0]) == Done(Batch([], 0, known));
    assert Scan(known, records).value.pending == [Row(id, body)];
  }

  lemma OneRowRead()
    ensures Load([FIRST_ROW]) == Done(map[Partition(2, 0) := Mark(ONE, true)])
    ensures Completed([FIRST_ROW]) == Done({0})
  {
    assert [FIRST_ROW][..0] == [];
    assert Completed([FIRST_ROW][..0]) == Done({});
    assert Completed([FIRST_ROW]).value == {0};
  }

  lemma FirstRunBegins() returns (steps: seq<Step>)
    ensures Run(map[], steps)
         == World(Frozen(BOTH), File([], true), map[], Some(Process(BOTH, [0, 1], 0, false)), {}, [])
  {
    TwoPending(map[], {});
    steps := ExtendedBy(map[], [], Fresh(map[]), Begin(BOTH, false));
  }

  lemma FirstRunInserts() returns (steps: seq<Step>)
    ensures Run(map[], steps)
         == World(Frozen(BOTH), File([], true), map[0 := ONE], Some(Process(BOTH, [0, 1], 0, true)),
                  {}, [Insertion(0, false, false)])
  {
    steps := FirstRunBegins();
    steps := ExtendedBy(map[], steps, Run(map[], steps), Insert(Some(ONE), true));
  }

  /** The first run dies inside its first checkpoint, before the newline. */
  lemma TornFirstCheckpoint() returns (steps: seq<Step>)
    ensures Run(map[], steps)
         == World(Frozen(BOTH), File([FIRST_ROW], false), map[0 := ONE], None, {0},
                  [Insertion(0, false, false)])
  {
    steps := FirstRunInserts();
    var w := Run(map[], steps);
    FirstRowDecided(w, w.process.value);
    TearWrites(w, w.process.value);
    steps := ExtendedBy(map[], steps, w, TearAppend(NewlineMissing));
  }

  lemma TearWrites(w: World, p: Process)
    requires w.process == Some(p) && InPlan(p) && p.inserted && w.log == File([], true)
    requires Decided(w, p) == Done([FIRST_ROW])
    ensures Next(w, TearAppend(NewlineMissing))
         == w.(log := File([FIRST_ROW], false), process := None,
               marked := w.marked + {p.actions[p.next]})
  {
    assert [] + [FIRST_ROW] == [FIRST_ROW];
  }

  lemma FirstRowDecided(w: World, p: Process)
    requires w.log == File([], true) && p == Process(BOTH, [0, 1], 0, true)
    ensures InPlan(p) && Decided(w, p) == Done([FIRST_ROW])
  {
    OneRecord(map[], Partition(2, 0), Mark(ONE, true));
  }

  const SECOND_ROW: CheckpointLine := Row(Partition(2, 1), Mark(ONE, true))

  lemma SecondRowDecided(w: World, p: Process)
    requires w.log == File([FIRST_ROW], false) && p == Process(BOTH, [1], 0, true)
    ensures InPlan(p) && Decided(w, p) == Done([SECOND_ROW])
  {
    OneRowRead();
    OneRecord(map[Partition(2, 0) := Mark(ONE, true)], Partition(2, 1), Mark(ONE, true));
  }

  lemma SecondRunBegins() returns (steps: seq<Step>)
    ensures var w := Run(map[], steps);
            && w.log == File([FIRST_ROW], false) && w.plan == Frozen(BOTH)
            && w.rows == map[0 := ONE] && w.process == Some(Process(BOTH, [1], 0, false))
  {
    steps := TornFirstCheckpoint();
    var w := Run(map[], steps);
    OneRowRead();
    TwoPending(w.rows, {0});
    steps := ExtendedBy(map[], steps, w, Begin(BOTH, false));
  }

  lemma SecondRunInserts() returns (steps: seq<Step>)
    ensures var w := Run(map[], steps);
            && w.log == File([FIRST_ROW], false) && w.plan == Frozen(BOTH)
            && w.rows == map[0 := ONE, 1 := ONE] && w.process == Some(Process(BOTH, [1], 0, true))
  {
    steps := SecondRunBegins();
    steps := ExtendedBy(map[], steps, Run(map[], steps), Insert(Some(ONE), true));
  }

  /** The second run inserts the other partition, and its checkpoint joins the torn row. */
  lemma SecondRunBreaks() returns (steps: seq<Step>)
    ensures var w := Run(map[], steps);
            && Malformed in w.log.lines && w.process.None?
            && w.plan == Frozen(BOTH) && w.rows == map[0 := ONE, 1 := ONE]
  {
    steps := SecondRunInserts();
    var w := Run(map[], steps);
    SecondRowDecided(w, w.process.value);
    AppendAfterTearBreaks(w, w.process.value);
    AppendGoesOn(w, w.process.value);
    steps := ExtendedBy(map[], steps, w, Append);
    steps := ExtendedBy(map[], steps, Run(map[], steps), Crash);
  }

  lemma AppendGoesOn(w: World, p: Process)
    requires Inv(w) && w.process == Some(p) && InPlan(p) && p.inserted && Decided(w, p).Done?
    ensures var next := Next(w, Append);
            && next.process.Some? && next.plan == w.plan && next.rows == w.rows
  {
  }

  /**
   A crash that costs one newline stops the backfill for good: there is a run from nothing after
   which every planned row is inserted exactly as planned, and still no later run gets past planning.
   */
  lemma TornNewlineStopsBackfill() returns (steps: seq<Step>)
    ensures Run(map[], steps).rows == map i | 0 <= i < |BOTH| :: BOTH[i]
    ensures forall more :: Run(map[], steps + more).process.None?
  {
    steps := SecondRunBreaks();
    forall more
      ensures Run(map[], steps + more).process.None?
    {
      BrokenLogStopsBackfill(map[], steps, more);
    }
  }

  // ---------------------------------------------------------------------------
  // The script
  // ---------------------------------------------------------------------------

  /** The contract of the log's append, for one record. */
  predicate AppendOutcome(log: File<Partition, Mark>, record: Record<Partition, Mark>,
                          result: Outcome<AppendResult, LogError>, file: File<Partition, Mark>)
    requires log.WellFormed()
  {
    match Load(log.lines)
    case Raised(e) => result == Raised(e) && file == log
    case Done(existing) =>
      match Scan(existing, [record])
      case Raised(e) => result == Raised(e) && file == log
      case Done(batch) => result.Done? && file == Write(log, batch.pending)
  }

  /** It is the append step. */
  lemma AppendDecides(w: World, p: Process, result: Outcome<AppendResult, LogError>, file: File<Partition, Mark>)
    requires Inv(w) && w.process == Some(p) && p.inserted
    requires AppendOutcome(w.log, CheckpointRecord(p), result, file)
    ensures var next := Next(w, Append);
            && next.log == file && next.plan == w.plan && next.rows == w.rows
            && next.process == if result.Done? then Some(p.(next := p.next + 1, inserted := false)) else None
  {
  }

  /** What a write that is cut short leaves: the first line that the append would have written, torn. */
  predicate TornOutcome(log: File<Partition, Mark>, record: Record<Partition, Mark>, tear: Tear,
                        file: File<Partition, Mark>)
    requires log.WellFormed()
  {
    match Load(log.lines)
    case Raised(_) => file == log
    case Done(existing) =>
      match Scan(existing, [record])
      case Raised(_) => file == log
      case Done(batch) =>
        file == if batch.pending == [] then log else Torn(log, batch.pending[0], tear)
  }

  /** It is the torn append step. */
  lemma TearDecides(w: World, p: Process, tear: Tear, file: File<Partition, Mark>)
    requires Inv(w) && w.process == Some(p) && p.inserted
    requires TornOutcome(w.log, CheckpointRecord(p), tear, file)
    ensures var next := Next(w, TearAppend(tear));
            && next.log == file && next.plan == w.plan && next.rows == w.rows && next.process.None?
  {
  }

  datatype Report = Planned(actions: seq<int>) | Complete | Stopped

  /**
   How a run dies, if it does: inside the write of a new plan, or after so many effects of its loop.
   A death just before an append may also cut the append short.
   */
  datatype Fate = Fate(insidePlan: bool, lifetime: nat, tear: Option<Tear>)

  /** What the insert command of one partition does: the rows it leaves and whether it succeeds. */
  datatype InsertResult = InsertResult(after: Option<Counts>, ok: bool)

  class Backfill {
    var plan: PlanFile
    var log: File<Partition, Mark>
    var rows: Rows
    /** The rows before the first run, and every step since. */
    ghost var initial: Rows
    ghost var steps: seq<Step>

    /** The files and the rows are what the steps so far make of fresh files. */
    ghost predicate Valid()
      reads this
    {
      var w := Run(initial, steps);
      plan == w.plan && log == w.log && rows == w.rows
    }

    ghost predicate Working(p: Process)
      reads this
    {
      Valid() && Run(initial, steps).process == Some(p)
    }

    ghost predicate Idle()
      reads this
    {
      Valid() && Run(initial, steps).process.None?
    }

    constructor (rows: Rows)
      ensures Idle() && this.rows == rows && initial == rows && steps == []
    {
      plan, log, this.rows := NoPlan, File([], true), rows;
      initial, steps := rows, [];
    }

    ghost method Take(step: Step)
      modifies this`steps
      ensures steps == old(steps) + [step]
      ensures Run(initial, steps) == Next(Run(initial, old(steps)), step)
    {
      RunExtends(initial, steps, step);
      steps := steps + [step];
    }

    /** `main`: every run of it, however it dies, is a sequence of steps. */
    method BackfillOnce(expected: seq<Counts>, planOnly: bool, results: seq<InsertResult>, fate: Fate)
      returns (r: Outcome<Report, BackfillError>)
      requires Idle()
      modifies this
      ensures Idle() && initial == old(initial)
      ensures r == Done(Complete) ==> plan == Frozen(expected) && rows == map i | 0 <= i < |expected| :: expected[i]
    {
      if plan != NoPlan && plan != Frozen(expected) {
        return Done(Stopped);
      }
      if plan == NoPlan && fate.insidePlan {
        Take(TearPlan);
        plan := TornPlan;
        return Done(Stopped);
      }
      Take(Begin(expected, planOnly));
      plan := Frozen(expected);
      var completed := CompletedPartitions(log.lines);
      if completed.Raised? {
        return Raised(completed.error);
      }
      var actions := PlanResumeActions(expected, rows, completed.value);
      if actions.Raised? {
        return Raised(actions.error);
      }
      if planOnly {
        return Done(Planned(actions.value));
      }
      var finished := RunPartitions(expected, actions.value, results, fate);
      if !finished {
        return Done(Stopped);
      }
      r := Validate(expected, actions.value);
    }

    /** The loop of `main`. */
    method RunPartitions(expected: seq<Counts>, actions: seq<int>, results: seq<InsertResult>, fate: Fate)
      returns (finished: bool)
      requires Working(Process(expected, actions, 0, false))
      modifies this
      ensures initial == old(initial)
      ensures if finished then Working(Process(expected, actions, |actions|, false)) else Idle()
    {
      for n := 0 to |actions|
        invariant Working(Process(expected, actions, n, false)) && initial == old(initial)
      {
        var goesOn := OnePartition(expected, actions, n, results, fate);
        if !goesOn {
          return false;
        }
      }
      finished := true;
    }

    /** The loop body: two effects, with a crash possible before each of them. */
    method OnePartition(expected: seq<Counts>, actions: seq<int>, n: nat, results: seq<InsertResult>, fate: Fate)
      returns (goesOn: bool)
      requires n < |actions| && Working(Process(expected, actions, n, false))
      modifies this
      ensures initial == old(initial)
      ensures if goesOn then Working(Process(expected, actions, n + 1, false)) else Idle()
    {
      if fate.lifetime <= 2 * n || n >= |results| {
        Die(Process(expected, actions, n, false));
        return false;
      }
      var inserted := RunPartition(expected, actions, n, results[n]);
      if !inserted {
        return false;
      }
      if fate.lifetime <= 2 * n + 1 {
        if fate.tear.Some? {
          DieInsideAppend(expected, actions, n, fate.tear.value);
        } else {
          Die(Process(expected, actions, n, true));
        }
        return false;
      }
      goesOn := AppendCheckpoint(expected, actions, n);
    }

    ghost method Die(p: Process)
      requires Working(p)
      modifies this`steps
      ensures Idle()
    {
      Take(Crash);
    }

    /** The append has decided what to write when the process dies in the middle of the write. */
    method DieInsideAppend(expected: seq<Counts>, actions: seq<int>, n: nat, tear: Tear)
      requires n < |actions| && Working(Process(expected, actions, n, true))
      modifies this
      ensures Idle() && initial == old(initial)
    {
      ghost var w, p := Run(initial, steps), Process(expected, actions, n, true);
      var record := CheckpointRecord(Process(expected, actions, n, true));
      var torn := TearRecord(log, record, tear);
      TearDecides(w, p, tear, torn);
      Take(TearAppend(tear));
      log := torn;
    }

    static method TearRecord(log: File<Partition, Mark>, record: Record<Partition, Mark>, tear: Tear)
      returns (file: File<Partition, Mark>)
      requires log.WellFormed()
      ensures TornOutcome(log, record, tear, file)
    {
      file := log;
      var existing := Load(log.lines);
      if existing.Done? {
        var batch := Scan(existing.value, [record]);
        if batch.Done? && batch.value.pending != [] {
          file := Torn(log, batch.value.pending[0], tear);
        }
      }
    }

    method RunPartition(expected: seq<Counts>, actions: seq<int>, n: nat, result: InsertResult)
      returns (ok: bool)
      requires n < |actions| && Working(Process(expected, actions, n, false))
      modifies this
      ensures initial == old(initial)
      ensures if ok then Working(Process(expected, actions, n, true)) else Idle()
    {
      Take(Insert(result.after, result.ok));
      if result.after.Some? {
        rows := rows[actions[n] := result.after.value];
      }
      ok := result.ok;
    }

    method AppendCheckpoint(expected: seq<Counts>, actions: seq<int>, n: nat) returns (ok: bool)
      requires n < |actions| && Working(Process(expected, actions, n, true))
      modifies this
      ensures initial == old(initial)
      ensures if ok then Working(Process(expected, actions, n + 1, false)) else Idle()
    {
      ghost var w, p := Run(initial, steps), Process(expected, actions, n, true);
      var record := CheckpointRecord(Process(expected, actions, n, true));
      var result, file := AppendTo(log, record);
      AppendDecides(w, p, result, file);
      Take(Append);
      log := file;
      ok := result.Done?;
    }

    static method AppendTo(log: File<Partition, Mark>, record: Record<Partition, Mark>)
      returns (result: Outcome<AppendResult, LogError>, file: File<Partition, Mark>)
      requires log.WellFormed()
      ensures AppendOutcome(log, record, result, file)
    {
      var checkpoint := new JsonlLog<Partition, Mark>(log);
      result := checkpoint.Append([record]);
      file := checkpoint.file;
    }

    /** The re-planning after the loop. */
    method Validate(expected: seq<Counts>, actions: seq<int>) returns (r: Outcome<Report, BackfillError>)
      requires Working(Process(expected, actions, |actions|, false))
      modifies this
      ensures Idle() && initial == old(initial)
      ensures r == Done(Complete) ==> plan == Frozen(expected) && rows == map i | 0 <= i < |expected| :: expected[i]
    {
      ghost var before := steps;
      var completed := CompletedPartitions(log.lines);
      if completed.Done? {
        var remaining := PlanResumeActions(expected, rows, completed.value);
        if remaining == Done([]) {
          CompleteMeansFrozenPlan(initial, before);
          r := Done(Complete);
        } else {
          r := if remaining.Raised? then Raised(remaining.error) else Done(Stopped);
        }
      } else {
        r := Raised(completed.error);
      }
      Take(Finish);
    }
  }
}
