/**
 The allocation repository over its tables: each public method is one transaction, writes its
 rows in the order the code does and rolls everything back when it raises. A confirmation and a
 release load the exclusion context on their way, from a reader over the second store.
 */
module AudienceStore {
  import opened Wrappers
  import opened AudienceTables
  import opened SetSizes
  import opened WinnerSelection
  import opened AllocationProtocol
  import opened AllocationInvariant
  import opened BindInvariant
  import opened ReleaseInvariant
  import opened ConfirmTheorems
  import opened CoherentInvariant
  import opened RetryOrder
  import opened ProjectionProtocol

  class Store {
    const limit: nat
    var ledger: map<UserId, LedgerRow>
    var targets: map<TargetKey, Target>
    var plans: map<PlanId, Plan>
    var finals: map<SnapshotId, FinalRow>
    var members: map<SnapshotId, map<UserId, Fit>>
    var bindings: map<TargetKey, Binding>
    var runs: map<RunId, RunStatus>
    var revision: nat
    var definitions: set<SegmentId>
    var suggestions: map<AnalysisId, seq<Source>>
    var previews: map<AnalysisId, seq<Preview>>

    function State(): Db
      reads this
    {
      Db(ledger, targets, plans, finals, members, bindings, runs, revision, definitions,
         suggestions, previews)
    }

    constructor (candidateLimit: nat)
      ensures State() == EMPTY_DB && limit == candidateLimit
    {
      limit := candidateLimit;
      ledger, targets, plans, finals, members := map[], map[], map[], map[], map[];
      bindings, runs, revision, definitions := map[], map[], 0, {};
      suggestions, previews := map[], map[];
    }

    method Rollback(saved: Db)
      modifies this
      ensures State() == saved
    {
      ledger, targets, plans, finals := saved.ledger, saved.targets, saved.plans, saved.finals;
      members, bindings, runs, revision := saved.members, saved.bindings, saved.runs, saved.revision;
      definitions, suggestions, previews := saved.definitions, saved.suggestions, saved.previews;
    }

    // -------------------------------------------------------------------------
    // Previews
    // -------------------------------------------------------------------------

    /** Winners are recomputed for one candidate subset after another, sizes ascending. */
    method RefreshPreviews(batch: AnalysisId, exclude: set<SegmentId>)
      returns (r: Outcome<(), Error>)
      modifies this`previews
      ensures var spec := Refresh(old(State()), limit, batch, exclude);
              if spec.Done? then r == Done(()) && State() == spec.value
              else r == Raised(spec.error) && State() == old(State())
    {
      var db := State();
      var candidates := Candidates(db, batch, exclude);
      if |candidates| > limit {
        return Raised(CandidateLimitExceeded);
      }
      if !Distinct(candidates) {
        return Raised(DuplicateKey);
      }
      var listed: seq<Preview> := [];
      var size := 0;
      while size < |candidates|
        invariant size <= |candidates| && State() == db
        invariant listed == PreviewsFor(db, CombinationsUpTo(candidates, size))
      {
        size := size + 1;
        var more := PreviewCombinations(db, Combinations(candidates, size));
        PreviewsOfBoth(db, CombinationsUpTo(candidates, size - 1), Combinations(candidates, size));
        listed := listed + more;
      }
      previews := previews[batch := listed];
      r := Done(());
    }

    /** The inner loop: the previews of the combinations of one size. */
    static method PreviewCombinations(db: Db, combinations: seq<seq<Source>>) returns (listed: seq<Preview>)
      ensures listed == PreviewsFor(db, combinations)
    {
      listed := [];
      for i := 0 to |combinations|
        invariant |listed| == i
        invariant forall j :: 0 <= j < i ==> listed[j] == PreviewFor(db, combinations[j])
      {
        var preview := PreviewFor(db, combinations[i]);
        listed := listed + [preview];
      }
    }

    // -------------------------------------------------------------------------
    // Confirmation
    // -------------------------------------------------------------------------

    method FindIdempotentResult(analysis: AnalysisId, sources: seq<Source>)
      returns (r: Outcome<Option<Confirmed>, Error>)
      requires Coherent(State())
      ensures var rows := RetryRows(State(), analysis, sources);
              r == if rows == {} then Done(None)
                   else if |rows| != |sources| then Raised(BindingInvalid)
                   else Done(Some(StoredResult(State(), rows)))
    {
      var rows := RetryRows(State(), analysis, sources);
      if rows == {} {
        return Done(None);
      }
      if |rows| != |sources| {
        return Raised(BindingInvalid);
      }
      RetryRowsOrdered(State(), analysis, sources);
      var answer := AnswerFrom(State(), rows);
      r := Done(Some(answer));
    }

    /** The answer built from the ordered rows. */
    static method AnswerFrom(db: Db, rows: set<SnapshotId>) returns (answer: Confirmed)
      requires rows != {} && RowsOrdered(db, rows)
      ensures answer == StoredResult(db, rows)
    {
      var allocations := CollectAllocations(db, rows);
      var first := TakeFirst(db, rows);
      FirstRowIsFirst(db, rows, first);
      var plan := db.finals[first].plan;
      answer := Confirmed(db.plans[plan].batch, plan, db.plans[plan].revision, allocations);
    }

    static method TakeFirst(db: Db, rows: set<SnapshotId>) returns (first: SnapshotId)
      requires rows != {} && RowsOrdered(db, rows)
      ensures IsFirstRow(db, rows, first)
    {
      ghost var least := FirstRowExists(db, rows);
      first :| first in rows && IsFirstRow(db, rows, first);
    }

    /** The dictionary comprehension: in order, a later row of a segment replaces an earlier one. */
    static method CollectAllocations(db: Db, rows: set<SnapshotId>)
      returns (allocations: map<SegmentId, Allocation>)
      requires RowsOrdered(db, rows)
      ensures allocations == AllocationsOf(db, rows)
    {
      allocations := map[];
      var left := rows;
      ghost var taken: set<SnapshotId> := {};
      while left != {}
        invariant taken + left == rows && taken !! left
        invariant forall g <- taken, f <- left :: RowBefore(db, g, f)
        invariant allocations == AllocationsOf(db, taken)
        decreases left
      {
        var f := TakeFirst(db, left);
        SubsetOrdered(db, taken + {f}, rows);
        LaterRowOverwrites(db, taken, f);
        allocations := allocations[db.finals[f].segment := AllocationFrom(db, f)];
        taken, left := taken + {f}, left - {f};
      }
      assert taken == rows;
    }

    method EnsureTargetRows(analysis: AnalysisId, segments: set<SegmentId>)
      modifies this`targets
      ensures targets == EnsuredTargets(old(targets), definitions, analysis, segments)
    {
      targets := (map s | s in segments && s in definitions ::
                    TargetKey(analysis, s) := Target(false, None, None, None)) + targets;
    }

    /** One segment's final snapshot, its members and its target row. */
    method WriteAllocation(analysis: AnalysisId, minimum: int, plan: PlanId, s: Source,
                           w: map<UserId, Source>, source: Db)
      requires forall u <- w :: u in SourceMembers(source, w[u])
      modifies this`finals, this`members, this`targets
      ensures finals == old(finals)[FinalSnapshot(plan, s.segment) := FinalFor(s, plan, w, minimum)]
      ensures members == old(members)[FinalSnapshot(plan, s.segment) :=
                                        MembersFor(source, s.segment, w)]
      ensures targets == BoundTargets(old(targets), analysis, {s.segment}, plan)
    {
      var f := FinalSnapshot(plan, s.segment);
      finals := finals[f := FinalFor(s, plan, w, minimum)];
      members := members[f := MembersFor(source, s.segment, w)];
      var k := TargetKey(analysis, s.segment);
      if k in targets && targets[k].Unbound() {
        targets := targets[k := targets[k].(snapshot := Some(f), plan := Some(plan),
                                            state := Some(Reserved))];
      }
    }

    method WriteAllocations(analysis: AnalysisId, minimum: int, plan: PlanId, sources: seq<Source>,
                            w: map<UserId, Source>, source: Db)
      requires Distinct(sources)
      requires forall u <- w :: u in SourceMembers(source, w[u])
      modifies this`finals, this`members, this`targets
      ensures finals == old(finals) + NewFinals(sources, SegmentsOf(sources), plan, w, minimum)
      ensures members == old(members) + NewMembers(source, SegmentsOf(sources), plan, w)
      ensures targets == BoundTargets(old(targets), analysis, SegmentsOf(sources), plan)
    {
      ghost var f0, m0, t0 := finals, members, targets;
      NothingWritten(source, sources, f0, m0, t0, analysis, plan, w, minimum);
      for i := 0 to |sources|
        invariant SegmentsOf(sources[..i]) <= SegmentsOf(sources)
        invariant finals == f0 + NewFinals(sources, SegmentsOf(sources[..i]), plan, w, minimum)
        invariant members == m0 + NewMembers(source, SegmentsOf(sources[..i]), plan, w)
        invariant targets == BoundTargets(t0, analysis, SegmentsOf(sources[..i]), plan)
      {
        WriteAllocation(analysis, minimum, plan, sources[i], w, source);
        PrefixStep(sources, i);
        FinalsStep(f0, sources, i, plan, w, minimum);
        MembersStep(m0, source, sources, i, plan, w);
        TargetsStep(t0, analysis, sources, i, plan);
      }
      assert sources[..|sources|] == sources;
    }

    /** The upsert and the check of its returned row count. */
    method ReserveFinalMembers(analysis: AnalysisId, plan: PlanId, w: map<UserId, Source>)
      returns (complete: bool)
      modifies this`ledger
      ensures State() == Reserve(old(State()), analysis, plan, w)
      ensures complete <==> !Refused(old(State()), w)
    {
      var accepted := set u | u in w && Upsertable(State(), u);
      UpsertCount(State(), w, accepted);
      complete := |accepted| == |w|;
      ledger := ledger + map u | u in w && Upsertable(State(), u) ::
                           ReservedRow(analysis, w[u].segment, plan, revision);
    }

    /** None when the process died while it was synchronising the projection. */
    method ConfirmSelection(req: Request, reader: ProjectionStore, budget: nat)
      returns (r: Option<Outcome<Confirmed, Error>>)
      requires Coherent(State())
      modifies this, reader
      ensures r.Some? ==>
                (State(), reader.Value(), r.value)
                == ConfirmLoading(old(State()), old(reader.Value()), limit, req)
      ensures r.None? ==>
                State() == old(State()) && PartlySynced(State(), old(reader.Value()), reader.Value())
      ensures budget > |JoinedUsers(old(State()))| ==> r.Some?
    {
      UnloadedIsConfirm(State(), reader.Value(), limit, req);
      var selected := Selected(req);
      if selected == {} || |selected| > limit {
        return Some(Raised(BindingInvalid));
      }
      var loaded := LoadSources(State(), selected, req.rows);
      if loaded.Raised? {
        return Some(Raised(loaded.error));
      }
      if |Batches(loaded.value)| != 1 {
        SeveralBatches(State(), reader.Value(), limit, req, loaded.value);
        return Some(Raised(SourceBatchMismatch));
      }
      r := ConfirmLoaded(req, loaded.value, reader, budget);
    }

    /** The confirmation of sources that were read and parsed. */
    method ConfirmLoaded(req: Request, sources: seq<Source>, reader: ProjectionStore, budget: nat)
      returns (r: Option<Outcome<Confirmed, Error>>)
      requires Coherent(State()) && LoadsSources(State(), limit, req, sources)
      requires |Batches(sources)| == 1
      modifies this, reader
      ensures r.Some? ==>
                (State(), reader.Value(), r.value)
                == ConfirmLoading(old(State()), old(reader.Value()), limit, req)
      ensures r.None? ==>
                State() == old(State()) && PartlySynced(State(), old(reader.Value()), reader.Value())
      ensures budget > |JoinedUsers(old(State()))| ==> r.Some?
    {
      var answered := AnswerOrReject(req.analysis, Selected(req), sources);
      if answered.Some? {
        SettledIsConfirm(State(), reader.Value(), limit, req, sources);
        return Some(answered.value);
      }
      UnsettledReachesLoad(State(), limit, req, sources);
      r := LoadAndConfirm(req, sources, reader, budget);
    }

    /** The load of the exclusion context and the rest of the confirmation. */
    method LoadAndConfirm(req: Request, sources: seq<Source>, reader: ProjectionStore, budget: nat)
      returns (r: Option<Outcome<Confirmed, Error>>)
      requires |Batches(sources)| == 1 && ReachesLoad(State(), limit, req)
      requires Confirm(State(), limit, req)
            == Act(State(), limit, req.analysis, req.minimum,
                   UnansweredPath(State(), req.analysis, Selected(req), sources))
      requires !ConfirmedElsewhere(State(), req.analysis, sources)
      requires !SegmentBusy(State(), Selected(req))
      modifies this, reader
      ensures r.Some? ==>
                (State(), reader.Value(), r.value)
                == ConfirmLoading(old(State()), old(reader.Value()), limit, req)
      ensures r.None? ==>
                State() == old(State()) && PartlySynced(State(), old(reader.Value()), reader.Value())
      ensures budget > |JoinedUsers(old(State()))| ==> r.Some?
    {
      LoadedIsConfirm(State(), reader.Value(), limit, req);
      var context := reader.LoadActiveExclusionContext(State(), budget);
      if context == Died {
        return None;
      }
      if context == NotReady {
        return Some(Raised(ProjectionNotReady));
      }
      var outcome := ConfirmUnanswered(req.analysis, req.minimum, Selected(req), sources);
      r := Some(outcome);
    }

    /** The stored answer or a rejection by what is already confirmed, before the context is loaded. */
    method AnswerOrReject(analysis: AnalysisId, selected: set<SegmentId>, sources: seq<Source>)
      returns (r: Option<Outcome<Confirmed, Error>>)
      requires Coherent(State()) && |Batches(sources)| == 1
      ensures r == Settled(State(), analysis, selected, sources)
    {
      var retry := FindIdempotentResult(analysis, sources);
      if retry.Raised? {
        return Some(Raised(retry.error));
      }
      if retry.value.Some? {
        return Some(Done(retry.value.value));
      }
      if ConfirmedElsewhere(State(), analysis, sources) {
        return Some(Raised(SourceAlreadyConfirmed));
      }
      if SegmentBusy(State(), selected) {
        return Some(Raised(SegmentAlreadyConfirmed));
      }
      r := None;
    }

    method ConfirmUnanswered(analysis: AnalysisId, minimum: int, selected: set<SegmentId>,
                             sources: seq<Source>) returns (r: Outcome<Confirmed, Error>)
      requires |Batches(sources)| == 1
      requires !ConfirmedElsewhere(State(), analysis, sources) && !SegmentBusy(State(), selected)
      modifies this
      ensures (State(), r) == Act(old(State()), limit, analysis, minimum,
                                  UnansweredPath(old(State()), analysis, selected, sources))
    {
      if !Distinct(sources) {
        return Raised(DuplicateKey);
      }
      if SomeEmpty(Winners(State(), sources), selected) {
        return Raised(AllocationEmpty);
      }
      if PlanFor(State(), sources) in plans {
        return Raised(DuplicateKey);
      }
      var batch :| batch in Batches(sources);
      OneBatch(sources, batch);
      r := CommitSelection(analysis, minimum, batch, sources);
    }

    /** The writes of a confirmation, in order, and the rollback when one of them raises. */
    method CommitSelection(analysis: AnalysisId, minimum: int, batch: AnalysisId,
                           sources: seq<Source>) returns (r: Outcome<Confirmed, Error>)
      requires Distinct(sources)
      modifies this
      ensures (State(), r) == ConfirmFresh(old(State()), limit, analysis, minimum, batch, sources)
    {
      var saved := State();
      WriteBeforeReserve(analysis, minimum, batch, sources);
      ghost var ready := State();
      var plan, w := PlanFor(saved, sources), Winners(saved, sources);
      var complete := ReserveFinalMembers(analysis, plan, w);
      if !complete {
        Rollback(saved);
        return Raised(ExclusionConflict);
      }
      ghost var committed := State();
      assert committed == Commit(saved, analysis, minimum, batch, sources);
      var refreshed := RefreshPreviews(batch, SegmentsOf(sources));
      if refreshed.Raised? {
        Rollback(saved);
        return Raised(refreshed.error);
      }
      r := Done(CommitResult(saved, minimum, batch, sources));
    }

    method WriteBeforeReserve(analysis: AnalysisId, minimum: int, batch: AnalysisId,
                              sources: seq<Source>)
      requires Distinct(sources)
      modifies this
      ensures State() == BeforeReserve(old(State()), analysis, minimum, batch, sources)
    {
      var saved := State();
      var segments, plan, w := SegmentsOf(sources), PlanFor(saved, sources), Winners(saved, sources);
      EnsureTargetRows(analysis, segments);
      revision := revision + 1;
      plans := plans[plan := Plan(analysis, batch, segments, revision, Finalized)];
      WriteAllocations(analysis, minimum, plan, sources, w, saved);
      WrittenBeforeReserve(saved, State(), analysis, minimum, batch, sources);
    }

    // -------------------------------------------------------------------------
    // Release
    // -------------------------------------------------------------------------

    method ReleaseReservedTarget(k: TargetKey, entire: bool, reader: ProjectionStore, budget: nat)
      returns (r: Option<Outcome<Context, Error>>)
      modifies this, reader
      ensures r.Some? ==>
                (State(), reader.Value(), r.value)
                == ReleaseLoading(old(State()), old(reader.Value()), limit, k, entire)
      ensures r.None? ==>
                State() == old(State()) && PartlySynced(State(), old(reader.Value()), reader.Value())
      ensures budget > |JoinedUsers(old(State()))| ==> r.Some?
    {
      var rejection := ReleaseRejection(State(), k, entire);
      if rejection.Some? {
        return Some(Raised(rejection.value));
      }
      var context := reader.LoadActiveExclusionContext(State(), budget);
      if context == Died {
        return None;
      }
      if context == NotReady {
        return Some(Raised(ProjectionNotReady));
      }
      var outcome := ReleaseUnlocked(k, entire);
      r := Some(outcome);
    }

    /** The release once its checks are passed, with the rollback. */
    method ReleaseUnlocked(k: TargetKey, entire: bool) returns (r: Outcome<Context, Error>)
      requires Releasable(State(), k, entire)
      modifies this
      ensures (State(), r) == Release(old(State()), limit, k, entire)
    {
      var saved, batch := State(), plans[targets[k].plan.value].batch;
      WriteRelease(k, entire);
      var refreshed := RefreshPreviews(batch, {});
      if refreshed.Raised? {
        Rollback(saved);
        return Raised(refreshed.error);
      }
      r := Done(ReleaseContext(saved, k, entire));
    }

    /** The ledger, target and plan updates of a release. */
    method WriteRelease(k: TargetKey, entire: bool)
      requires k in targets && targets[k].plan.Some? && targets[k].plan.value in plans
      modifies this
      ensures State() == AfterRelease(old(State()), k, entire)
    {
      var plan := targets[k].plan.value;
      revision := revision + 1;
      ledger := map u | u in ledger :: ReleasedRow(ledger[u], plan, Scope(k, entire), revision);
      targets := map key | key in targets :: ReleasedTarget(key, targets[key], k, plan, entire);
      if plans[plan].status == Finalized {
        plans := plans[plan := plans[plan].(status := PlanReleased)];
      }
    }

    // -------------------------------------------------------------------------
    // Binding a run
    // -------------------------------------------------------------------------

    /** Validates every item before the first write and keeps those not bound yet. */
    method ValidateItems(run: RunId, items: seq<BindItem>) returns (r: Option<seq<BindItem>>)
      ensures r == if exists item :: item in items && !ItemAccepted(State(), run, item) then None
                   else Some(PendingItems(State(), items))
    {
      var pending: seq<BindItem> := [];
      for i := 0 to |items|
        invariant pending == PendingItems(State(), items[..i])
        invariant forall j :: 0 <= j < i ==> ItemAccepted(State(), run, items[j])
      {
        if !ItemAccepted(State(), run, items[i]) {
          return None;
        }
        assert items[..i + 1][..i] == items[..i];
        if items[i].target !in bindings {
          pending := pending + [items[i]];
        }
      }
      assert items[..|items|] == items;
      r := Some(pending);
    }

    method ConsumeReservation(run: RunId, item: BindItem)
      modifies this
      ensures State() == ConsumeOne(old(State()), run, item)
    {
      ledger := map u | u in ledger :: ConsumedRow(ledger[u], item, revision);
      targets := map k | k in targets :: ConsumedTarget(k, targets[k], item);
      bindings := bindings[item.target := Binding(run, item.plan, item.snapshot)];
      if item.plan in plans && plans[item.plan].status == Finalized {
        plans := plans[item.plan := plans[item.plan].(status := Locked)];
      }
    }

    method ConsumeReservations(run: RunId, pending: seq<BindItem>)
      modifies this
      ensures State() == ConsumeAll(old(State()), run, pending)
    {
      for i := 0 to |pending|
        invariant State() == ConsumeAll(old(State()), run, pending[..i])
      {
        assert pending[..i + 1][..i] == pending[..i];
        ConsumeReservation(run, pending[i]);
      }
      assert pending[..|pending|] == pending;
    }

    method BindRunTargets(run: RunId, items: seq<BindItem>) returns (r: Outcome<(), Error>)
      modifies this
      ensures (State(), r) == BindRun(old(State()), run, items)
    {
      if items == [] || !DistinctItems(items) {
        return Raised(RunBindingRejected);
      }
      var validated := ValidateItems(run, items);
      if validated.None? {
        return Raised(RunBindingRejected);
      }
      var saved := State();
      if validated.value != [] {
        revision := revision + 1;
        ConsumeReservations(run, validated.value);
      }
      assert State() == BindWrites(saved, run, items);
      if !RunSetValid(State(), run, set item | item in items :: item.target.segment) {
        Rollback(saved);
        return Raised(RunBindingRejected);
      }
      r := Done(());
    }
  }

  lemma OneBatch(sources: seq<Source>, batch: AnalysisId)
    requires |Batches(sources)| == 1 && batch in Batches(sources)
    ensures Batches(sources) == {batch}
  {
    SubsetSize({batch}, Batches(sources));
  }

  /** How the checks before the load settle a confirmation, if they do. */
  ghost function Settled(db: Db, analysis: AnalysisId, selected: set<SegmentId>, sources: seq<Source>)
    : Option<Outcome<Confirmed, Error>>
  {
    var rows := RetryRows(db, analysis, sources);
    if rows != {} then
      Some(if |rows| != |sources| then Raised(BindingInvalid) else Done(StoredResult(db, rows)))
    else if ConfirmedElsewhere(db, analysis, sources) then Some(Raised(SourceAlreadyConfirmed))
    else if SegmentBusy(db, selected) then Some(Raised(SegmentAlreadyConfirmed))
    else None
  }

  predicate LoadsSources(db: Db, limit: nat, req: Request, sources: seq<Source>) {
    && Selected(req) != {} && |Selected(req)| <= limit
    && LoadSources(db, Selected(req), req.rows) == Done(sources)
  }

  lemma UnloadedIsConfirm(db: Db, p: Projection, limit: nat, req: Request)
    ensures Selected(req) == {} || |Selected(req)| > limit ==>
              ConfirmLoading(db, p, limit, req) == (db, p, Raised(BindingInvalid))
    ensures var loaded := LoadSources(db, Selected(req), req.rows);
            Selected(req) != {} && |Selected(req)| <= limit && loaded.Raised? ==>
              ConfirmLoading(db, p, limit, req) == (db, p, Raised(loaded.error))
  {
  }

  lemma LoadedIsActed(db: Db, limit: nat, req: Request, sources: seq<Source>)
    requires LoadsSources(db, limit, req, sources)
    ensures Confirm(db, limit, req)
         == Act(db, limit, req.analysis, req.minimum,
                LoadedPath(db, req.analysis, Selected(req), sources))
  {
  }

  lemma SettledPath(db: Db, limit: nat, analysis: AnalysisId, minimum: int,
                    selected: set<SegmentId>, sources: seq<Source>)
    requires |Batches(sources)| == 1
    ensures var settled := Settled(db, analysis, selected, sources);
            Act(db, limit, analysis, minimum, LoadedPath(db, analysis, selected, sources))
            == if settled.Some? then (db, settled.value)
               else Act(db, limit, analysis, minimum, UnansweredPath(db, analysis, selected, sources))
  {
  }

  lemma SeveralBatches(db: Db, p: Projection, limit: nat, req: Request, sources: seq<Source>)
    requires LoadsSources(db, limit, req, sources) && |Batches(sources)| != 1
    ensures ConfirmLoading(db, p, limit, req) == (db, p, Raised(SourceBatchMismatch))
  {
    LoadedIsActed(db, limit, req, sources);
  }

  lemma SettledIsConfirm(db: Db, p: Projection, limit: nat, req: Request, sources: seq<Source>)
    requires LoadsSources(db, limit, req, sources) && |Batches(sources)| == 1
    requires Settled(db, req.analysis, Selected(req), sources).Some?
    ensures ConfirmLoading(db, p, limit, req)
         == (db, p, Settled(db, req.analysis, Selected(req), sources).value)
  {
    LoadedIsActed(db, limit, req, sources);
    SettledPath(db, limit, req.analysis, req.minimum, Selected(req), sources);
  }

  lemma UnsettledReachesLoad(db: Db, limit: nat, req: Request, sources: seq<Source>)
    requires LoadsSources(db, limit, req, sources) && |Batches(sources)| == 1
    requires Settled(db, req.analysis, Selected(req), sources).None?
    ensures ReachesLoad(db, limit, req)
    ensures !ConfirmedElsewhere(db, req.analysis, sources) && !SegmentBusy(db, Selected(req))
    ensures Confirm(db, limit, req)
         == Act(db, limit, req.analysis, req.minimum,
                UnansweredPath(db, req.analysis, Selected(req), sources))
  {
    LoadedIsActed(db, limit, req, sources);
    SettledPath(db, limit, req.analysis, req.minimum, Selected(req), sources);
  }

  lemma LoadedIsConfirm(db: Db, p: Projection, limit: nat, req: Request)
    requires ReachesLoad(db, limit, req)
    ensures var (q, context) := Load(db, p);
            var (next, r) := Confirm(db, limit, req);
            ConfirmLoading(db, p, limit, req)
            == if context == NotReady then (db, q, Raised(ProjectionNotReady)) else (next, q, r)
  {
  }

  lemma FirstRowIsFirst(db: Db, rows: set<SnapshotId>, first: SnapshotId)
    requires rows != {} && RowsOrdered(db, rows) && IsFirstRow(db, rows, first)
    ensures FirstRow(db, rows) == first
  {
    assert IsFirstRow(db, rows, FirstRow(db, rows));
  }

  lemma SubsetOrdered(db: Db, some: set<SnapshotId>, rows: set<SnapshotId>)
    requires some <= rows && RowsOrdered(db, rows)
    ensures RowsOrdered(db, some)
  {
  }

  lemma NothingWritten(db: Db, sources: seq<Source>, f0: map<SnapshotId, FinalRow>,
                       m0: map<SnapshotId, map<UserId, Fit>>, t0: map<TargetKey, Target>,
                       analysis: AnalysisId, plan: PlanId, w: map<UserId, Source>, minimum: int)
    requires forall u <- w :: u in SourceMembers(db, w[u])
    ensures SegmentsOf(sources[..0]) == {}
    ensures f0 == f0 + NewFinals(sources, {}, plan, w, minimum)
    ensures m0 == m0 + NewMembers(db, {}, plan, w)
    ensures t0 == BoundTargets(t0, analysis, {}, plan)
  {
    assert NewFinals(sources, {}, plan, w, minimum) == map[];
    assert NewMembers(db, {}, plan, w) == map[];
  }

  lemma PrefixStep(sources: seq<Source>, i: nat)
    requires Distinct(sources) && i < |sources|
    ensures SegmentsOf(sources[..i + 1]) == SegmentsOf(sources[..i]) + {sources[i].segment}
    ensures sources[i].segment !in SegmentsOf(sources[..i])
    ensures SegmentsOf(sources[..i + 1]) <= SegmentsOf(sources)
    ensures sources[i].segment in SegmentsOf(sources)
    ensures SourceOf(sources, sources[i].segment) == sources[i]
  {
    assert sources[..i + 1] == sources[..i] + [sources[i]];
    SegmentsOfSplit(sources[..i], sources[i]);
    assert sources[i] in sources;
    SameSegmentSameSource(sources, SourceOf(sources, sources[i].segment), sources[i]);
  }

  lemma FinalsStep(base: map<SnapshotId, FinalRow>, sources: seq<Source>, i: nat, plan: PlanId,
                   w: map<UserId, Source>, minimum: int)
    requires Distinct(sources) && i < |sources|
    requires SegmentsOf(sources[..i + 1]) <= SegmentsOf(sources)
    requires SegmentsOf(sources[..i]) <= SegmentsOf(sources)
    ensures base + NewFinals(sources, SegmentsOf(sources[..i + 1]), plan, w, minimum)
         == (base + NewFinals(sources, SegmentsOf(sources[..i]), plan, w, minimum))
            [FinalSnapshot(plan, sources[i].segment) := FinalFor(sources[i], plan, w, minimum)]
  {
    PrefixStep(sources, i);
    FinalsGrow(base, sources, SegmentsOf(sources[..i]), sources[i].segment, plan, w, minimum);
  }

  lemma FinalsGrow(base: map<SnapshotId, FinalRow>, sources: seq<Source>, some: set<SegmentId>,
                   s: SegmentId, plan: PlanId, w: map<UserId, Source>, minimum: int)
    requires some + {s} <= SegmentsOf(sources)
    ensures base + NewFinals(sources, some + {s}, plan, w, minimum)
         == (base + NewFinals(sources, some, plan, w, minimum))
            [FinalSnapshot(plan, s) := FinalFor(SourceOf(sources, s), plan, w, minimum)]
  {
    var more, fewer := NewFinals(sources, some + {s}, plan, w, minimum), NewFinals(sources, some, plan, w, minimum);
    var row := FinalFor(SourceOf(sources, s), plan, w, minimum);
    assert more == fewer[FinalSnapshot(plan, s) := row] by {
      NewFinalsGrow(sources, some, s, plan, w, minimum);
    }
    AddedThenUpdated(base, fewer, FinalSnapshot(plan, s), row);
  }

  lemma NewFinalsGrow(sources: seq<Source>, some: set<SegmentId>, s: SegmentId, plan: PlanId,
                      w: map<UserId, Source>, minimum: int)
    requires some + {s} <= SegmentsOf(sources)
    ensures NewFinals(sources, some + {s}, plan, w, minimum)
         == NewFinals(sources, some, plan, w, minimum)
            [FinalSnapshot(plan, s) := FinalFor(SourceOf(sources, s), plan, w, minimum)]
  {
  }

  /** Table by table, the writes before the reservation. */
  lemma WrittenBeforeReserve(db: Db, next: Db, analysis: AnalysisId, minimum: int, batch: AnalysisId,
                             sources: seq<Source>)
    requires next.revision == db.revision + 1
    requires (next.plans
              == db.plans[PlanFor(db, sources) :=
                            Plan(analysis, batch, SegmentsOf(sources), db.revision + 1, Finalized)])
    requires (next.targets == BoundTargets(EnsuredTargets(db.targets, db.definitions, analysis, SegmentsOf(sources)),
                                           analysis, SegmentsOf(sources), PlanFor(db, sources)))
    requires (next.finals == db.finals + NewFinals(sources, SegmentsOf(sources), PlanFor(db, sources),
                                                   Winners(db, sources), minimum))
    requires (next.members == db.members + NewMembers(db, SegmentsOf(sources), PlanFor(db, sources),
                                                      Winners(db, sources)))
    requires next.ledger == db.ledger && next.bindings == db.bindings && next.runs == db.runs
    requires next.definitions == db.definitions && next.suggestions == db.suggestions
    requires next.previews == db.previews
    ensures next == BeforeReserve(db, analysis, minimum, batch, sources)
  {
  }

  lemma AddedThenUpdated<K, V>(base: map<K, V>, more: map<K, V>, key: K, value: V)
    ensures base + more[key := value] == (base + more)[key := value]
  {
  }

  lemma PreviewsOfBoth(db: Db, a: seq<seq<Source>>, b: seq<seq<Source>>)
    ensures PreviewsFor(db, a + b) == PreviewsFor(db, a) + PreviewsFor(db, b)
  {
  }

  lemma MembersStep(base: map<SnapshotId, map<UserId, Fit>>, db: Db, sources: seq<Source>, i: nat,
                    plan: PlanId, w: map<UserId, Source>)
    requires Distinct(sources) && i < |sources|
    requires forall u <- w :: u in SourceMembers(db, w[u])
    ensures base + NewMembers(db, SegmentsOf(sources[..i + 1]), plan, w)
         == (base + NewMembers(db, SegmentsOf(sources[..i]), plan, w))
            [FinalSnapshot(plan, sources[i].segment) := MembersFor(db, sources[i].segment, w)]
  {
    PrefixStep(sources, i);
    MembersGrow(base, db, SegmentsOf(sources[..i]), sources[i].segment, plan, w);
  }

  lemma MembersGrow(base: map<SnapshotId, map<UserId, Fit>>, db: Db, some: set<SegmentId>,
                    s: SegmentId, plan: PlanId, w: map<UserId, Source>)
    requires forall u <- w :: u in SourceMembers(db, w[u])
    ensures base + NewMembers(db, some + {s}, plan, w)
         == (base + NewMembers(db, some, plan, w))
            [FinalSnapshot(plan, s) := MembersFor(db, s, w)]
  {
  }

  lemma TargetsStep(targets: map<TargetKey, Target>, analysis: AnalysisId, sources: seq<Source>,
                    i: nat, plan: PlanId)
    requires Distinct(sources) && i < |sources|
    ensures BoundTargets(BoundTargets(targets, analysis, SegmentsOf(sources[..i]), plan),
                         analysis, {sources[i].segment}, plan)
         == BoundTargets(targets, analysis, SegmentsOf(sources[..i + 1]), plan)
  {
    PrefixStep(sources, i);
  }

  lemma UpsertCount(db: Db, w: map<UserId, Source>, accepted: set<UserId>)
    requires accepted == set u | u in w && Upsertable(db, u)
    ensures |accepted| == |w| <==> !Refused(db, w)
  {
    SubsetSize(accepted, w.Keys);
    assert |w| == |w.Keys|;
    assert accepted == w.Keys <==> !Refused(db, w);
  }
}
