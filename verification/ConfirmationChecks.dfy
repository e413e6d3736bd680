/**
 What a confirmation checks before it writes, in the columns of the request and the tables and in the
 order in which the first failing check decides.
 */
module ConfirmationChecks {
  import opened Wrappers
  import opened AudienceTables
  import opened WinnerSelection
  import opened WinnerRanking
  import opened AllocationProtocol
  import opened AllocationInvariant
  import opened ConfirmTheorems
  import opened SegmentGuard

  // ---------------------------------------------------------------------------
  // The checks
  // ---------------------------------------------------------------------------

  predicate NoneOrTooMany(limit: nat, req: Request) {
    var n := |set s | s in req.segments|;
    n == 0 || n > limit
  }

  /** There is a source row of exactly the selected segments. */
  predicate RowsMatch(req: Request) {
    && (forall row :: row in req.rows ==> row.segment in req.segments)
    && (forall s :: s in req.segments ==> exists row :: row in req.rows && row.segment == s)
  }

  predicate Readable(row: SourceRow) {
    row.template.Some? && row.margin > 0.0
  }

  /** The snapshot is complete and has as many members as it says. */
  predicate Consistent(db: Db, row: SourceRow) {
    && row.complete
    && row.userCount
       == if SourceSnapshot(row.snapshot) in db.members then |db.members[SourceSnapshot(row.snapshot)]|
          else 0
  }

  predicate OneBatch(req: Request) {
    forall a, b :: a in req.rows && b in req.rows ==> a.analysis == b.analysis
  }

  predicate SegmentsOnce(req: Request) {
    forall i, j :: 0 <= i < j < |req.rows| ==> req.rows[i].segment != req.rows[j].segment
  }

  /** A final snapshot of one of the sources, of a plan that is not released. */
  predicate UsesSource(db: Db, req: Request, f: SnapshotId) {
    && f in db.finals && db.finals[f].plan in db.plans
    && db.plans[db.finals[f].plan].status in {Finalized, Locked}
    && exists row :: row in req.rows && row.snapshot == db.finals[f].source
  }

  /** The final snapshots of this confirmation's own plans of the same selection. */
  ghost function OwnFinals(db: Db, req: Request): set<SnapshotId> {
    set f | f in db.finals && UsesSource(db, req, f)
            && db.plans[db.finals[f].plan].target == req.analysis
            && SegmentsOnce(req)
            && db.plans[db.finals[f].plan].segments == set row | row in req.rows :: row.segment
  }

  ghost predicate ConfirmedByAnother(db: Db, req: Request) {
    exists f <- db.finals ::
      UsesSource(db, req, f) && db.plans[db.finals[f].plan].target != req.analysis
  }

  function AsSource(row: SourceRow): Source
    requires Readable(row)
  {
    Source(row.snapshot, row.segment, row.analysis, row.template.value, row.threshold, row.margin,
           row.minSample)
  }

  ghost predicate AllReadable(req: Request) {
    forall row :: row in req.rows ==> Readable(row)
  }

  /** The user is allocated to the row: not kept out, and nothing the user is in goes before it. */
  ghost predicate GoesTo(db: Db, req: Request, row: SourceRow, u: UserId)
    requires row in req.rows && AllReadable(req)
  {
    && Lists(db, AsSource(row), u) && !KeptOut(db, u)
    && forall other :: other in req.rows && other.segment != row.segment && Lists(db, AsSource(other), u) ==>
         GoesBefore(AsSource(row), FitIn(db, AsSource(row), u),
                    AsSource(other), FitIn(db, AsSource(other), u))
  }

  ghost predicate SomeRowEmpty(db: Db, req: Request)
    requires AllReadable(req)
  {
    exists row :: row in req.rows && forall u :: !GoesTo(db, req, row, u)
  }

  datatype Verdict = Refuses(error: Error) | AnswersFromStore | GoesOn

  /** The first check that fails decides. */
  ghost function FirstVerdict(db: Db, limit: nat, req: Request): Verdict {
    if NoneOrTooMany(limit, req) then Refuses(BindingInvalid)
    else if !RowsMatch(req) then Refuses(SnapshotBindingRequired)
    else if !AllReadable(req) then Refuses(BindingInvalid)
    else if exists row :: row in req.rows && !Consistent(db, row) then Refuses(BindingInvalid)
    else SourcesVerdict(db, req)
  }

  /** The checks on sound rows, up to the stored answer. */
  ghost function SourcesVerdict(db: Db, req: Request): Verdict
    requires AllReadable(req)
  {
    if !OneBatch(req) then Refuses(SourceBatchMismatch)
    else if OwnFinals(db, req) == {} then LaterVerdict(db, req)
    else if |OwnFinals(db, req)| == |req.rows| then AnswersFromStore
    else Refuses(BindingInvalid)
  }

  /** The checks after it. */
  ghost function LaterVerdict(db: Db, req: Request): Verdict
    requires AllReadable(req)
  {
    if ConfirmedByAnother(db, req) then Refuses(SourceAlreadyConfirmed)
    else if SelectionInUse(db, set s | s in req.segments) then Refuses(SegmentAlreadyConfirmed)
    else if !SegmentsOnce(req) then Refuses(DuplicateKey)
    else if SomeRowEmpty(db, req) then Refuses(AllocationEmpty)
    else GoesOn
  }

  // ---------------------------------------------------------------------------
  // The rows as sources
  // ---------------------------------------------------------------------------

  lemma {:induction false} ParsesIff(rows: seq<SourceRow>)
    ensures ParseRows(rows).Done? <==> forall row :: row in rows ==> Readable(row)
    ensures ParseRows(rows).Raised? ==> ParseRows(rows).error == BindingInvalid
  {
    if rows != [] {
      var front, last := rows[..|rows| - 1], rows[|rows| - 1];
      ParsesIff(front);
      assert rows == front + [last];
      assert ParseRow(last).Done? <==> Readable(last);
      assert forall row :: row in rows <==> row in front || row == last;
    }
  }

  ghost predicate SourcesAre(rows: seq<SourceRow>, sources: seq<Source>) {
    && |sources| == |rows|
    && forall i :: 0 <= i < |rows| ==> Readable(rows[i]) && sources[i] == AsSource(rows[i])
  }

  lemma ParsedAre(rows: seq<SourceRow>)
    requires ParseRows(rows).Done?
    ensures SourcesAre(rows, ParseRows(rows).value)
  {
    ParsesIff(rows);
    var sources := ParseRows(rows).value;
    forall i | 0 <= i < |rows|
      ensures Readable(rows[i]) && sources[i] == AsSource(rows[i])
    {
      assert rows[i] in rows;
      assert ParseRow(rows[i]) == Done(sources[i]);
    }
  }

  lemma RowsMatchIff(req: Request)
    ensures (set row | row in req.rows :: row.segment) == Selected(req) <==> RowsMatch(req)
  {
    var segments := set row | row in req.rows :: row.segment;
    if segments == Selected(req) {
      forall row | row in req.rows
        ensures row.segment in req.segments
      {
        assert row.segment in segments;
      }
      forall s | s in req.segments
        ensures exists row :: row in req.rows && row.segment == s
      {
        assert s in segments;
      }
    }
  }

  lemma LoadsIff(db: Db, req: Request)
    ensures LoadSources(db, Selected(req), req.rows)
         == if !RowsMatch(req) then Raised(SnapshotBindingRequired)
            else if !AllReadable(req) || exists row :: row in req.rows && !Consistent(db, row) then
              Raised(BindingInvalid)
            else ParseRows(req.rows)
  {
    RowsMatchIff(req);
    ParsesIff(req.rows);
    forall row
      ensures Consistent(db, row)
         <==> row.complete && |MembersOf(db, SourceSnapshot(row.snapshot))| == row.userCount
    {
    }
  }

  /** What is collected from the sources is collected from the rows. */
  lemma SourcesOfRows(req: Request, sources: seq<Source>)
    requires SourcesAre(req.rows, sources)
    ensures SegmentsOf(sources) == set row | row in req.rows :: row.segment
    ensures SourceIds(sources) == set row | row in req.rows :: row.snapshot
    ensures Distinct(sources) <==> SegmentsOnce(req)
    ensures forall s :: s in sources <==> exists row :: row in req.rows && Readable(row) && s == AsSource(row)
  {
    forall s | s in sources
      ensures exists row :: row in req.rows && Readable(row) && s == AsSource(row)
    {
      var i :| 0 <= i < |sources| && sources[i] == s;
      assert req.rows[i] in req.rows;
    }
    forall row | row in req.rows
      ensures Readable(row) && AsSource(row) in sources
    {
      var i :| 0 <= i < |req.rows| && req.rows[i] == row;
      assert sources[i] == AsSource(row);
    }
    ColumnsOfRows(req, sources);
  }

  lemma ColumnsOfRows(req: Request, sources: seq<Source>)
    requires SourcesAre(req.rows, sources)
    requires forall s :: s in sources <==> exists row :: row in req.rows && Readable(row) && s == AsSource(row)
    ensures SegmentsOf(sources) == set row | row in req.rows :: row.segment
    ensures SourceIds(sources) == set row | row in req.rows :: row.snapshot
  {
    forall row | row in req.rows
      ensures Readable(row) && AsSource(row) in sources
    {
      var i :| 0 <= i < |req.rows| && req.rows[i] == row;
      assert sources[i] == AsSource(row);
    }
  }

  lemma BatchesIff(req: Request, sources: seq<Source>)
    requires SourcesAre(req.rows, sources) && req.rows != []
    ensures |Batches(sources)| == 1 <==> OneBatch(req)
  {
    var first := req.rows[0].analysis;
    assert sources[0] in sources && first in Batches(sources);
    if OneBatch(req) {
      forall s | s in sources
        ensures s.analysis == first
      {
        var i :| 0 <= i < |sources| && sources[i] == s;
        assert req.rows[i] in req.rows && req.rows[0] in req.rows;
      }
      assert Batches(sources) == {first};
    } else if |Batches(sources)| == 1 {
      OneElement(Batches(sources), first);
      var a, b :| a in req.rows && b in req.rows && a.analysis != b.analysis;
      AnalysisIn(req, sources, a);
      AnalysisIn(req, sources, b);
    }
  }

  lemma AnalysisIn(req: Request, sources: seq<Source>, row: SourceRow)
    requires SourcesAre(req.rows, sources) && row in req.rows
    ensures row.analysis in Batches(sources)
  {
    var i :| 0 <= i < |req.rows| && req.rows[i] == row;
    assert sources[i] in sources;
  }

  lemma OneElement<T>(s: set<T>, x: T)
    requires |s| == 1 && x in s
    ensures s == {x}
  {
    assert |s - {x}| == 0;
  }

  lemma StoredIff(db: Db, req: Request, sources: seq<Source>)
    requires SourcesAre(req.rows, sources)
    ensures RetryRows(db, req.analysis, sources) == OwnFinals(db, req)
    ensures ConfirmedElsewhere(db, req.analysis, sources) <==> ConfirmedByAnother(db, req)
  {
    SourcesOfRows(req, sources);
    forall f | f in db.finals && db.finals[f].plan in db.plans
      ensures UsesSource(db, req, f)
         <==> Live(db.plans[db.finals[f].plan]) && db.finals[f].source in SourceIds(sources)
    {
    }
  }

  lemma EmptyIff(db: Db, req: Request, sources: seq<Source>)
    requires SourcesAre(req.rows, sources) && Distinct(sources) && AllReadable(req)
    requires SegmentsOf(sources) == Selected(req)
    ensures SomeEmpty(Winners(db, sources), Selected(req)) <==> SomeRowEmpty(db, req)
  {
    SourcesOfRows(req, sources);
    forall row | row in req.rows
      ensures SegmentUsers(Winners(db, sources), row.segment) == {}
         <==> forall u :: !GoesTo(db, req, row, u)
    {
      forall u
        ensures u in SegmentUsers(Winners(db, sources), row.segment) <==> GoesTo(db, req, row, u)
      {
        WinnerIff(db, req, sources, row, u);
      }
    }
    forall s | s in Selected(req)
      ensures exists row :: row in req.rows && row.segment == s
    {
    }
  }

  lemma WinnerIff(db: Db, req: Request, sources: seq<Source>, row: SourceRow, u: UserId)
    requires SourcesAre(req.rows, sources) && Distinct(sources) && AllReadable(req)
    requires row in req.rows
    requires forall s :: s in sources <==> exists row :: row in req.rows && Readable(row) && s == AsSource(row)
    ensures u in SegmentUsers(Winners(db, sources), row.segment) <==> GoesTo(db, req, row, u)
  {
    var w := AsSource(row);
    AllocatedIff(db, sources, u, w);
    if u in Winners(db, sources) && Winners(db, sources)[u].segment == row.segment {
      SameSegmentSameSource(sources, Winners(db, sources)[u], w);
    }
    if Lists(db, w, u) {
      OthersIff(db, req, sources, row, u);
    }
  }

  lemma OthersIff(db: Db, req: Request, sources: seq<Source>, row: SourceRow, u: UserId)
    requires SourcesAre(req.rows, sources) && Distinct(sources) && AllReadable(req)
    requires row in req.rows && Lists(db, AsSource(row), u)
    requires forall s :: s in sources <==> exists row :: row in req.rows && Readable(row) && s == AsSource(row)
    ensures (forall s :: s in sources && s != AsSource(row) && Lists(db, s, u) ==>
               GoesBefore(AsSource(row), FitIn(db, AsSource(row), u), s, FitIn(db, s, u)))
       <==> forall other :: other in req.rows && other.segment != row.segment && Lists(db, AsSource(other), u) ==>
              GoesBefore(AsSource(row), FitIn(db, AsSource(row), u),
                         AsSource(other), FitIn(db, AsSource(other), u))
  {
    forall s | s in sources
      ensures s != AsSource(row) <==> s.segment != row.segment
    {
      if s.segment == row.segment {
        SameSegmentSameSource(sources, s, AsSource(row));
      }
    }
  }

  // ---------------------------------------------------------------------------
  // The first failing check decides
  // ---------------------------------------------------------------------------

  /** The plan id of the call holds the present revision, which no stored plan has. */
  lemma PlanIdIsNew(db: Db, sources: seq<Source>)
    requires PlansNumbered(db)
    ensures PlanFor(db, sources) !in db.plans
  {
  }

  lemma RejectsBeforeSources(db: Db, limit: nat, req: Request)
    ensures Path(db, limit, req)
         == if Selected(req) == {} || |Selected(req)| > limit then Rejected(BindingInvalid)
            else
              var loaded := LoadSources(db, Selected(req), req.rows);
              if loaded.Raised? then Rejected(loaded.error)
              else LoadedPath(db, req.analysis, Selected(req), loaded.value)
  {
  }

  lemma NoneOrTooManyIff(limit: nat, req: Request)
    ensures Selected(req) == {} || |Selected(req)| > limit <==> NoneOrTooMany(limit, req)
  {
    assert Selected(req) == set s | s in req.segments;
  }

  /** How a verdict shows on the path. */
  ghost predicate Shows(path: ConfirmPath, verdict: Verdict) {
    match verdict
    case Refuses(e) => path == Rejected(e)
    case AnswersFromStore => path.Retry?
    case GoesOn => path.Fresh?
  }

  lemma UnansweredDecide(db: Db, req: Request, sources: seq<Source>)
    requires TargetsWellBound(db) && PlansNumbered(db) && AllReadable(req) && SourcesAre(req.rows, sources)
    requires SegmentsOf(sources) == Selected(req) && Batches(sources) != {}
    ensures Shows(UnansweredPath(db, req.analysis, Selected(req), sources), LaterVerdict(db, req))
  {
    StoredIff(db, req, sources);
    SourcesOfRows(req, sources);
    GuardIff(db, Selected(req));
    assert Selected(req) == set s | s in req.segments;
    PlanIdIsNew(db, sources);
    if Distinct(sources) {
      EmptyIff(db, req, sources);
    }
  }

  lemma SourcesDecide(db: Db, req: Request, sources: seq<Source>)
    requires TargetsWellBound(db) && PlansNumbered(db) && AllReadable(req)
    requires SourcesAre(req.rows, sources) && req.rows != [] && SegmentsOf(sources) == Selected(req)
    ensures Shows(LoadedPath(db, req.analysis, Selected(req), sources), SourcesVerdict(db, req))
  {
    BatchesIff(req, sources);
    StoredIff(db, req, sources);
    assert sources[0] in sources && sources[0].analysis in Batches(sources);
    UnansweredDecide(db, req, sources);
  }

  lemma SoundRowsDecide(db: Db, req: Request)
    requires TargetsWellBound(db) && PlansNumbered(db)
    requires Selected(req) != {} && RowsMatch(req) && ParseRows(req.rows).Done?
    ensures AllReadable(req)
    ensures Shows(LoadedPath(db, req.analysis, Selected(req), ParseRows(req.rows).value),
                  SourcesVerdict(db, req))
  {
    ParsesIff(req.rows);
    ParsedAre(req.rows);
    RowsMatchIff(req);
    SourcesOfRows(req, ParseRows(req.rows).value);
    var s :| s in Selected(req);
    assert req.rows != [];
    SourcesDecide(db, req, ParseRows(req.rows).value);
  }

  /** On reachable tables the first failing check decides what the confirmation does. */
  lemma ChecksDecide(db: Db, limit: nat, req: Request)
    requires Coherent(db)
    ensures Shows(Path(db, limit, req), FirstVerdict(db, limit, req))
    ensures match FirstVerdict(db, limit, req)
            case Refuses(e) => Confirm(db, limit, req) == (db, Raised(e))
            case AnswersFromStore => Confirm(db, limit, req).0 == db && Confirm(db, limit, req).1.Done?
            case GoesOn => Path(db, limit, req).Fresh?
  {
    PathShows(db, limit, req);
  }

  lemma PathShows(db: Db, limit: nat, req: Request)
    requires TargetsWellBound(db) && PlansNumbered(db)
    ensures Shows(Path(db, limit, req), FirstVerdict(db, limit, req))
  {
    NoneOrTooManyIff(limit, req);
    RejectsBeforeSources(db, limit, req);
    LoadsIff(db, req);
    ParsesIff(req.rows);
    if !NoneOrTooMany(limit, req) && LoadSources(db, Selected(req), req.rows).Done? {
      SoundRowsDecide(db, req);
    }
  }
}
