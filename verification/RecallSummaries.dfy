/** The recall of a summary and its Wilson bound: the least over the runs of one benchmark cell. */
module RecallSummaries {
  import opened Wrappers
  import opened PolicyGates
  import opened RecallGate

  /** One run's counts, and the square root its Wilson bound takes. */
  datatype Run = Run(intersection: nat, positives: nat, margin: real)

  predicate Counted(run: Run, zSquared: real) {
    && zSquared >= 0.0 && run.intersection <= run.positives
    && (run.positives > 0 ==>
          IsMargin(Recall(run.intersection, run.positives), zSquared / run.positives as real,
                   run.margin))
  }

  /** Without exact members the recall is one and its bound zero. */
  function RecallOf(run: Run): real {
    if run.positives == 0 then 1.0 else Recall(run.intersection, run.positives)
  }

  function LowerOf(run: Run, zSquared: real): real
    requires zSquared >= 0.0
  {
    if run.positives == 0 then 0.0
    else WilsonLower(RecallOf(run), zSquared / run.positives as real, run.margin)
  }

  function LeastRecall(runs: seq<Run>): real
    requires runs != []
  {
    var last := RecallOf(runs[|runs| - 1]);
    if |runs| == 1 || last < LeastRecall(runs[..|runs| - 1]) then last
    else LeastRecall(runs[..|runs| - 1])
  }

  function LeastLower(runs: seq<Run>, zSquared: real): real
    requires runs != [] && zSquared >= 0.0
  {
    var last := LowerOf(runs[|runs| - 1], zSquared);
    if |runs| == 1 || last < LeastLower(runs[..|runs| - 1], zSquared) then last
    else LeastLower(runs[..|runs| - 1], zSquared)
  }

  /** What `summarize_observations` records about recall. */
  predicate Summarises(s: Summary, runs: seq<Run>, zSquared: real) {
    && runs != [] && (forall i :: 0 <= i < |runs| ==> Counted(runs[i], zSquared))
    && zSquared >= 0.0
    && s.recall == LeastRecall(runs) && s.recallLower == LeastLower(runs, zSquared)
  }

  lemma RunBounds(run: Run, zSquared: real)
    requires Counted(run, zSquared)
    ensures 0.0 <= LowerOf(run, zSquared) <= RecallOf(run) <= 1.0
  {
    if run.positives > 0 {
      RecallOrder(run.intersection, run.positives, run.positives);
      QuotientOrder(0.0, zSquared, run.positives as real);
      WilsonBetweenZeroAndProportion(RecallOf(run), zSquared / run.positives as real, run.margin);
    }
  }

  /** The least bound is at most the least recall, though different runs may attain them. */
  lemma {:induction false} LeastBounds(runs: seq<Run>, zSquared: real)
    requires runs != [] && zSquared >= 0.0
    requires forall i :: 0 <= i < |runs| ==> Counted(runs[i], zSquared)
    ensures 0.0 <= LeastLower(runs, zSquared) <= LeastRecall(runs) <= 1.0
  {
    RunBounds(runs[|runs| - 1], zSquared);
    if |runs| > 1 {
      LeastBounds(runs[..|runs| - 1], zSquared);
    }
  }

  lemma CompleteRun(run: Run, zSquared: real)
    requires Counted(run, zSquared)
    ensures RecallOf(run) == 1.0 <==> run.intersection == run.positives
    ensures run.positives == 0 ==> LowerOf(run, zSquared) == 0.0
  {
    if run.positives > 0 {
      var n := run.positives as real;
      QuotientAtLeast(run.intersection as real, n, 1.0);
      RecallOrder(run.intersection, run.positives, run.positives);
    }
  }

  lemma {:induction false} LeastRecallIsOneIff(runs: seq<Run>, zSquared: real)
    requires runs != [] && zSquared >= 0.0
    requires forall i :: 0 <= i < |runs| ==> Counted(runs[i], zSquared)
    ensures LeastRecall(runs) == 1.0
       <==> forall i :: 0 <= i < |runs| ==> runs[i].intersection == runs[i].positives
    ensures (exists i :: 0 <= i < |runs| && runs[i].positives == 0) ==> LeastLower(runs, zSquared) == 0.0
  {
    var last := |runs| - 1;
    CompleteRun(runs[last], zSquared);
    RunBounds(runs[last], zSquared);
    if last > 0 {
      var front := runs[..last];
      assert forall i :: 0 <= i < last ==> front[i] == runs[i];
      LeastRecallIsOneIff(front, zSquared);
      LeastBounds(front, zSquared);
    }
  }

  /**
   The recorded recall is one exactly when every run found all exact members, and the recorded bound is
   zero as soon as some run had none to find.
   */
  lemma RecordedRecall(s: Summary, runs: seq<Run>, zSquared: real)
    requires Summarises(s, runs, zSquared)
    ensures s.recall == 1.0
       <==> forall i :: 0 <= i < |runs| ==> runs[i].intersection == runs[i].positives
    ensures (exists i :: 0 <= i < |runs| && runs[i].positives == 0) ==> s.recallLower == 0.0
  {
    LeastRecallIsOneIff(runs, zSquared);
  }
}
