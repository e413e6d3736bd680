/** What a committed confirmation has written and returned, column by column. */
module CommittedColumns {
  import opened Wrappers
  import opened AudienceTables
  import opened WinnerSelection
  import opened WinnerRanking
  import opened AllocationProtocol
  import opened AllocationInvariant
  import opened ConfirmTheorems
  import opened RetryTheorems
  import opened OfferedSources
  import opened ConfirmationChecks

  /** The plan of the call: its sources, its segments and the revision it was made at. */
  function PlanOf(db: Db, req: Request): PlanId {
    PlanId(set row | row in req.rows :: row.snapshot, set row | row in req.rows :: row.segment,
           db.revision)
  }

  /** The users of a row, with their fits. */
  ghost predicate IsAudience(db: Db, req: Request, row: SourceRow, audience: map<UserId, Fit>)
    requires row in req.rows && AllReadable(req)
  {
    && (forall u :: u in audience <==> GoesTo(db, req, row, u))
    && forall u <- audience :: audience[u] == FitIn(db, AsSource(row), u)
  }

  /** The stored count, whether it reaches the minimum, and the status that follows. */
  predicate CountColumns(n: nat, minimum: int, meets: bool, status: AudienceStatus) {
    && meets == (n >= minimum)
    && status == if n == 0 then NoEligibleAudience
                 else if n < minimum then InsufficientSample else Targetable
  }

  ghost predicate FinalWritten(db: Db, next: Db, req: Request, row: SourceRow)
    requires row in req.rows && AllReadable(req)
  {
    var f := FinalSnapshot(PlanOf(db, req), row.segment);
    && f in next.finals && f in next.members
    && IsAudience(db, req, row, next.members[f])
    && next.finals[f].segment == row.segment && next.finals[f].source == row.snapshot
    && next.finals[f].plan == PlanOf(db, req)
    && next.finals[f].userCount == |next.members[f]|
    && CountColumns(next.finals[f].userCount, req.minimum, next.finals[f].meetsMinimum,
                    next.finals[f].status)
  }

  ghost predicate UserWritten(db: Db, next: Db, req: Request, u: UserId)
    requires AllReadable(req)
  {
    var plan := PlanOf(db, req);
    && (forall row :: row in req.rows && GoesTo(db, req, row, u) ==>
          && u in next.ledger
          && next.ledger[u] == LedgerRow(TargetKey(req.analysis, row.segment), plan,
                                         FinalSnapshot(plan, row.segment), Reserved,
                                         db.revision + 1))
    && ((forall row :: row in req.rows ==> !GoesTo(db, req, row, u)) ==>
          && (u in next.ledger <==> u in db.ledger)
          && (u in db.ledger ==> next.ledger[u] == db.ledger[u]))
  }

  /** A missing row of a known segment and an untouched one are bound; any other stays as it was. */
  ghost predicate TargetWritten(db: Db, next: Db, req: Request, k: TargetKey) {
    var plan := PlanOf(db, req);
    var free := Target(k in db.targets && db.targets[k].stopped, None, None, None);
    var selected := k.analysis == req.analysis && k.segment in req.segments;
    if selected && (if k in db.targets then db.targets[k] == free else k.segment in db.definitions) then
      && k in next.targets
      && next.targets[k] == Target(free.stopped, Some(FinalSnapshot(plan, k.segment)), Some(plan),
                                   Some(Reserved))
    else
      && (k in next.targets <==> k in db.targets)
      && (k in db.targets ==> next.targets[k] == db.targets[k])
  }

  ghost predicate PlanWritten(db: Db, next: Db, req: Request, batch: AnalysisId) {
    && (forall row :: row in req.rows ==> row.analysis == batch)
    && next.plans == db.plans[PlanOf(db, req) :=
                                Plan(req.analysis, batch, set row | row in req.rows :: row.segment,
                                     db.revision + 1, Finalized)]
    && next.revision == db.revision + 1
  }

  /** The answer repeats the plan, its batch, its revision and the columns of the final snapshots. */
  ghost predicate Answered(db: Db, next: Db, req: Request, batch: AnalysisId, answer: Confirmed) {
    var plan := PlanOf(db, req);
    && answer.batch == batch && answer.plan == plan && answer.revision == db.revision + 1
    && (forall s :: s in answer.allocations <==> exists row :: row in req.rows && row.segment == s)
    && forall s <- answer.allocations ::
         var f := FinalSnapshot(plan, s);
         && f in next.finals
         && answer.allocations[s] == Allocation(next.finals[f].source, f, next.finals[f].userCount,
                                                next.finals[f].meetsMinimum, next.finals[f].status)
  }

  /** Rows of other plans, bindings, runs and what the batch suggests are not touched. */
  ghost predicate RestKept(db: Db, next: Db, req: Request) {
    && (forall f :: f in next.finals && f !in db.finals ==>
          f.FinalSnapshot? && f.plan == PlanOf(db, req) && f.segment in req.segments)
    && (forall f :: f in next.members && f !in db.members ==> f in next.finals && f !in db.finals)
    && (forall f <- db.finals :: f in next.finals && next.finals[f] == db.finals[f])
    && (forall f <- db.members :: f in next.members && next.members[f] == db.members[f])
    && next.bindings == db.bindings && next.runs == db.runs
    && next.definitions == db.definitions && next.suggestions == db.suggestions
  }

  ghost predicate Committed(db: Db, next: Db, req: Request, answer: Confirmed)
    requires AllReadable(req)
  {
    && (exists batch :: PlanWritten(db, next, req, batch) && Answered(db, next, req, batch, answer))
    && (forall row :: row in req.rows ==> FinalWritten(db, next, req, row))
    && (forall u :: UserWritten(db, next, req, u))
    && (forall k :: TargetWritten(db, next, req, k))
    && RestKept(db, next, req)
  }

  // ---------------------------------------------------------------------------
  // The commit has written exactly these columns
  // ---------------------------------------------------------------------------

  /** What a fresh path knows about the rows of its request. */
  ghost predicate Fits(db: Db, req: Request, sources: seq<Source>) {
    && AllReadable(req) && SourcesAre(req.rows, sources)
    && Distinct(sources) && SegmentsOf(sources) == Selected(req)
    && SegmentsOf(sources) == (set row | row in req.rows :: row.segment)
    && SourceIds(sources) == (set row | row in req.rows :: row.snapshot)
    && forall s :: s in sources <==> exists row :: row in req.rows && Readable(row) && s == AsSource(row)
  }

  lemma FreshFits(db: Db, limit: nat, req: Request)
    requires Path(db, limit, req).Fresh?
    ensures Fits(db, req, Path(db, limit, req).sources)
    ensures PlanFor(db, Path(db, limit, req).sources) == PlanOf(db, req)
  {
    var sources := Path(db, limit, req).sources;
    FreshSources(db, limit, req);
    FreshPathReady(db, limit, req);
    ParsedAre(req.rows);
    ParsesIff(req.rows);
    SourcesOfRows(req, sources);
  }

  lemma RowIsSource(db: Db, req: Request, sources: seq<Source>, row: SourceRow)
    requires Fits(db, req, sources) && row in req.rows
    ensures AsSource(row) in sources && row.segment in SegmentsOf(sources)
    ensures SourceOf(sources, row.segment) == AsSource(row)
  {
    assert Readable(row);
    SameSegmentSameSource(sources, SourceOf(sources, row.segment), AsSource(row));
  }

  /** The users that a row wins are its audience. */
  lemma AudienceWon(db: Db, req: Request, sources: seq<Source>, row: SourceRow, u: UserId)
    requires Fits(db, req, sources) && row in req.rows
    ensures u in SegmentUsers(Winners(db, sources), row.segment) <==> GoesTo(db, req, row, u)
    ensures GoesTo(db, req, row, u) ==> Winners(db, sources)[u] == AsSource(row)
  {
    WinnerIff(db, req, sources, row, u);
    RowIsSource(db, req, sources, row);
    if GoesTo(db, req, row, u) {
      SameSegmentSameSource(sources, Winners(db, sources)[u], AsSource(row));
    }
  }

  lemma MembersAre(db: Db, req: Request, sources: seq<Source>, row: SourceRow)
    requires Fits(db, req, sources) && row in req.rows
    ensures IsAudience(db, req, row, MembersFor(db, row.segment, Winners(db, sources)))
  {
    var w := Winners(db, sources);
    forall u
      ensures u in MembersFor(db, row.segment, w) <==> GoesTo(db, req, row, u)
      ensures GoesTo(db, req, row, u) ==>
                MembersFor(db, row.segment, w)[u] == FitIn(db, AsSource(row), u)
    {
      AudienceWon(db, req, sources, row, u);
    }
  }

  lemma FinalRowsOf(db: Db, analysis: AnalysisId, minimum: int, batch: AnalysisId,
                    sources: seq<Source>, s: SegmentId)
    requires s in SegmentsOf(sources)
    ensures var next, plan, w := Commit(db, analysis, minimum, batch, sources), PlanFor(db, sources),
                                 Winners(db, sources);
            var f := FinalSnapshot(plan, s);
            && f in next.finals && next.finals[f] == FinalFor(SourceOf(sources, s), plan, w, minimum)
            && f in next.members && next.members[f] == MembersFor(db, s, w)
  {
    var plan, w := PlanFor(db, sources), Winners(db, sources);
    assert FinalSnapshot(plan, s) in NewFinals(sources, SegmentsOf(sources), plan, w, minimum);
    assert FinalSnapshot(plan, s) in NewMembers(db, SegmentsOf(sources), plan, w);
  }

  lemma FinalByParts(db: Db, next: Db, req: Request, row: SourceRow, w: map<UserId, Source>)
    requires row in req.rows && AllReadable(req)
    requires forall u <- w :: u in SourceMembers(db, w[u])
    requires IsAudience(db, req, row, MembersFor(db, row.segment, w))
    requires var f := FinalSnapshot(PlanOf(db, req), row.segment);
             && f in next.finals
             && next.finals[f] == FinalFor(AsSource(row), PlanOf(db, req), w, req.minimum)
             && f in next.members && next.members[f] == MembersFor(db, row.segment, w)
    ensures FinalWritten(db, next, req, row)
  {
    var members := MembersFor(db, row.segment, w);
    assert members.Keys == SegmentUsers(w, row.segment);
    assert |members| == |members.Keys|;
  }

  lemma FinalIsWritten(db: Db, req: Request, batch: AnalysisId, sources: seq<Source>, row: SourceRow)
    requires Fits(db, req, sources) && PlanFor(db, sources) == PlanOf(db, req) && row in req.rows
    ensures FinalWritten(db, Commit(db, req.analysis, req.minimum, batch, sources), req, row)
  {
    RowIsSource(db, req, sources, row);
    FinalRowsOf(db, req.analysis, req.minimum, batch, sources, row.segment);
    MembersAre(db, req, sources, row);
    FinalByParts(db, Commit(db, req.analysis, req.minimum, batch, sources), req, row,
                 Winners(db, sources));
  }

  lemma UserIsWritten(db: Db, next: Db, c: Write, req: Request, sources: seq<Source>, u: UserId)
    requires Fits(db, req, sources) && PlanFor(db, sources) == PlanOf(db, req)
    requires c == WriteFor(db, req.analysis, sources) && WroteLedger(db, next, c)
    requires next.revision == db.revision + 1
    ensures UserWritten(db, next, req, u)
  {
    forall row | row in req.rows
      ensures u in SegmentUsers(c.w, row.segment) <==> GoesTo(db, req, row, u)
    {
      AudienceWon(db, req, sources, row, u);
    }
    if u in c.w {
      var row :| row in req.rows && Readable(row) && c.w[u] == AsSource(row);
      assert GoesTo(db, req, row, u);
    }
  }

  lemma TargetIsWritten(db: Db, next: Db, c: Write, req: Request, sources: seq<Source>, k: TargetKey)
    requires Fits(db, req, sources) && PlanFor(db, sources) == PlanOf(db, req)
    requires c == WriteFor(db, req.analysis, sources) && WroteTargets(db, next, c)
    ensures TargetWritten(db, next, req, k)
  {
    assert k.segment in c.segments <==> k.segment in req.segments;
  }

  lemma PlanIsWritten(db: Db, req: Request, batch: AnalysisId, sources: seq<Source>)
    requires Fits(db, req, sources) && PlanFor(db, sources) == PlanOf(db, req)
    requires Batches(sources) == {batch}
    ensures PlanWritten(db, Commit(db, req.analysis, req.minimum, batch, sources), req, batch)
  {
    forall row | row in req.rows
      ensures row.analysis == batch
    {
      AnalysisIn(req, sources, row);
    }
  }

  lemma AnswerByColumns(next: Db, db: Db, req: Request, batch: AnalysisId, answer: Confirmed,
                        sources: seq<Source>, w: map<UserId, Source>)
    requires SegmentsOf(sources) == set row | row in req.rows :: row.segment
    requires answer.batch == batch && answer.plan == PlanOf(db, req)
    requires answer.revision == db.revision + 1 && answer.allocations.Keys == SegmentsOf(sources)
    requires forall s <- SegmentsOf(sources) ::
               var f, n := FinalSnapshot(PlanOf(db, req), s), |SegmentUsers(w, s)|;
               && f in next.finals
               && next.finals[f] == FinalFor(SourceOf(sources, s), PlanOf(db, req), w, req.minimum)
               && answer.allocations[s]
                  == Allocation(SourceOf(sources, s).snapshot, f, n, n >= req.minimum,
                                StatusFor(n, req.minimum))
    ensures Answered(db, next, req, batch, answer)
  {
    forall s | s in answer.allocations
      ensures exists row :: row in req.rows && row.segment == s
    {
    }
    forall row | row in req.rows
      ensures row.segment in answer.allocations
    {
    }
  }

  lemma IsAnswered(db: Db, req: Request, batch: AnalysisId, sources: seq<Source>)
    requires Fits(db, req, sources) && PlanFor(db, sources) == PlanOf(db, req)
    ensures Answered(db, Commit(db, req.analysis, req.minimum, batch, sources), req, batch,
                     CommitResult(db, req.minimum, batch, sources))
  {
    var next := Commit(db, req.analysis, req.minimum, batch, sources);
    CommitResultRows(db, req.minimum, batch, sources);
    forall s | s in SegmentsOf(sources)
      ensures var f := FinalSnapshot(PlanOf(db, req), s);
              && f in next.finals
              && next.finals[f] == FinalFor(SourceOf(sources, s), PlanOf(db, req),
                                            Winners(db, sources), req.minimum)
    {
      FinalRowsOf(db, req.analysis, req.minimum, batch, sources, s);
    }
    AnswerByColumns(next, db, req, batch, CommitResult(db, req.minimum, batch, sources), sources,
                    Winners(db, sources));
  }

  lemma RestIsKept(db: Db, next: Db, c: Write, req: Request)
    requires FinalsMatchPlans(db) && WroteFinals(db, next, c) && c.plan == PlanOf(db, req)
    requires c.segments == Selected(req) && RunsSame(db, next)
    requires next.definitions == db.definitions && next.suggestions == db.suggestions
    ensures RestKept(db, next, req)
  {
    forall f | f in next.members && f !in db.members
      ensures f in next.finals && f !in db.finals
    {
      assert NewFinal(next, f, c);
      assert f in db.finals ==> FinalMatchesPlan(db, f);
    }
    forall f | f in next.finals && f !in db.finals
      ensures f.FinalSnapshot? && f.plan == PlanOf(db, req) && f.segment in req.segments
    {
      assert NewFinal(next, f, c);
    }
  }

  lemma CommitKeepsRest(db: Db, analysis: AnalysisId, minimum: int, batch: AnalysisId,
                        sources: seq<Source>)
    ensures var next := Commit(db, analysis, minimum, batch, sources);
            && next.definitions == db.definitions && next.suggestions == db.suggestions
            && next.revision == db.revision + 1
  {
  }

  lemma CommittedByParts(db: Db, next: Db, req: Request, batch: AnalysisId, sources: seq<Source>)
    requires Fits(db, req, sources) && PlanFor(db, sources) == PlanOf(db, req)
    requires FinalsMatchPlans(db) && Batches(sources) == {batch}
    requires next == Commit(db, req.analysis, req.minimum, batch, sources)
    requires Wrote(db, next, WriteFor(db, req.analysis, sources))
    ensures Committed(db, next, req, CommitResult(db, req.minimum, batch, sources))
  {
    var c := WriteFor(db, req.analysis, sources);
    PlanIsWritten(db, req, batch, sources);
    IsAnswered(db, req, batch, sources);
    CommitKeepsRest(db, req.analysis, req.minimum, batch, sources);
    RestIsKept(db, next, c, req);
    forall row | row in req.rows
      ensures FinalWritten(db, next, req, row)
    {
      FinalIsWritten(db, req, batch, sources, row);
    }
    forall u
      ensures UserWritten(db, next, req, u)
    {
      UserIsWritten(db, next, c, req, sources, u);
    }
    forall k
      ensures TargetWritten(db, next, req, k)
    {
      TargetIsWritten(db, next, c, req, sources, k);
    }
  }

  lemma CommittedIgnoresPreviews(db: Db, a: Db, b: Db, req: Request, answer: Confirmed)
    requires AllReadable(req) && SameReservations(a, b) && Committed(db, a, req, answer)
    ensures Committed(db, b, req, answer)
  {
    var batch :| PlanWritten(db, a, req, batch) && Answered(db, a, req, batch, answer);
    assert PlanWritten(db, b, req, batch) && Answered(db, b, req, batch, answer);
    forall row | row in req.rows
      ensures FinalWritten(db, b, req, row)
    {
      assert FinalWritten(db, a, req, row);
    }
    forall u
      ensures UserWritten(db, b, req, u)
    {
      assert UserWritten(db, a, req, u);
    }
    forall k
      ensures TargetWritten(db, b, req, k)
    {
      assert TargetWritten(db, a, req, k);
    }
  }

  /** A commit has written and returned exactly these columns. */
  lemma CommitWroteColumns(db: Db, limit: nat, req: Request)
    requires FinalsMatchPlans(db) && CommitsFresh(db, limit, req)
    ensures AllReadable(req)
    ensures Committed(db, Confirm(db, limit, req).0, req, Confirm(db, limit, req).1.value)
  {
    var path, next := Path(db, limit, req), Confirm(db, limit, req).0;
    FreshCommitWrites(db, limit, req);
    FreshFits(db, limit, req);
    OnlyBatch(db, limit, req);
    var mid := Commit(db, req.analysis, req.minimum, path.batch, path.sources);
    CommittedByParts(db, mid, req, path.batch, path.sources);
    CommittedIgnoresPreviews(db, mid, next, req,
                             CommitResult(db, req.minimum, path.batch, path.sources));
  }

  lemma OnlyBatch(db: Db, limit: nat, req: Request)
    requires Path(db, limit, req).Fresh?
    ensures Batches(Path(db, limit, req).sources) == {Path(db, limit, req).batch}
  {
    FreshSources(db, limit, req);
    OneBatchLeft(db, limit, req);
    OneElement(Batches(Path(db, limit, req).sources), Path(db, limit, req).batch);
  }

  lemma OneBatchLeft(db: Db, limit: nat, req: Request)
    requires Path(db, limit, req).Fresh?
    ensures |Batches(Path(db, limit, req).sources)| == 1
  {
  }
}
