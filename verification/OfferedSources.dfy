/** Which suggestions are offered in the previews, and what a confirmation and a release do to that. */
module OfferedSources {
  import opened Wrappers
  import opened AudienceTables
  import opened WinnerSelection
  import opened AllocationProtocol
  import opened AllocationInvariant
  import opened ReleaseInvariant
  import opened ConfirmTheorems
  import opened PreviewTheorems

  /** A reserved or consumed target of the source's segment holds a final snapshot of it. */
  predicate Taken(db: Db, s: Source) {
    exists k <- db.targets ::
      && k.segment == s.segment
      && db.targets[k].state in {Some(Reserved), Some(Consumed)}
      && db.targets[k].snapshot.Some?
      && db.targets[k].snapshot.value in db.finals
      && db.finals[db.targets[k].snapshot.value].source == s.snapshot
  }

  function SuggestionsOf(db: Db, batch: AnalysisId): seq<Source> {
    if batch in db.suggestions then db.suggestions[batch] else []
  }

  lemma {:induction false} OpenSourcesAre(db: Db, sources: seq<Source>, exclude: set<SegmentId>)
    ensures forall s :: s in OpenSources(db, sources, exclude)
                        <==> s in sources && s.segment !in exclude && !Taken(db, s)
  {
    if sources != [] {
      var front, last := sources[..|sources| - 1], sources[|sources| - 1];
      OpenSourcesAre(db, front, exclude);
      assert sources == front + [last];
      assert Open(db, last, exclude) <==> last.segment !in exclude && !Taken(db, last);
    }
  }

  /** The candidates are the suggestions of the batch that are neither kept out nor taken. */
  lemma CandidatesAre(db: Db, batch: AnalysisId, exclude: set<SegmentId>)
    ensures forall s :: s in Candidates(db, batch, exclude)
                        <==> && s in SuggestionsOf(db, batch)
                             && s.segment !in exclude && !Taken(db, s)
  {
    OpenSourcesAre(db, SuggestionsOf(db, batch), exclude);
  }

  /** The segments on offer. */
  function OnOffer(db: Db, batch: AnalysisId, exclude: set<SegmentId>): set<SegmentId> {
    set s | s in SuggestionsOf(db, batch) && s.segment !in exclude && !Taken(db, s) :: s.segment
  }

  /** One preview of each non-empty selection of the segments on offer, and no other. */
  ghost predicate OffersExactly(db: Db, batch: AnalysisId, exclude: set<SegmentId>) {
    && batch in db.previews
    && var previews, open := db.previews[batch], OnOffer(db, batch, exclude);
       && (forall i :: 0 <= i < |previews| ==> {} != previews[i].segments <= open)
       && (forall i, j :: 0 <= i < j < |previews| ==>
             previews[i].segments != previews[j].segments)
       && (forall chosen :: chosen <= open && chosen != {} ==>
             exists i :: 0 <= i < |previews| && previews[i].segments == chosen)
  }

  lemma RefreshOffers(db: Db, limit: nat, batch: AnalysisId, exclude: set<SegmentId>)
    requires Refresh(db, limit, batch, exclude).Done?
    ensures OffersExactly(Refresh(db, limit, batch, exclude).value, batch, exclude)
  {
    var next := Refresh(db, limit, batch, exclude).value;
    PreviewsListEverySelectionOnce(db, limit, batch, exclude);
    CandidatesAre(db, batch, exclude);
    assert SegmentsOf(Candidates(db, batch, exclude)) == OnOffer(db, batch, exclude);
    OfferIgnoresPreviews(db, next, batch, exclude);
  }

  lemma OfferIgnoresPreviews(a: Db, b: Db, batch: AnalysisId, exclude: set<SegmentId>)
    requires SameReservations(a, b)
    ensures OnOffer(a, batch, exclude) == OnOffer(b, batch, exclude)
  {
    assert SuggestionsOf(a, batch) == SuggestionsOf(b, batch);
    assert forall s :: Taken(a, s) == Taken(b, s);
  }

  lemma FinishOffers<R>(before: Db, after: Db, limit: nat, batch: AnalysisId, exclude: set<SegmentId>,
                        result: R)
    requires Finish(before, after, limit, batch, exclude, result).1.Done?
    ensures OffersExactly(Finish(before, after, limit, batch, exclude, result).0, batch, exclude)
  {
    RefreshOffers(after, limit, batch, exclude);
  }

  // ---------------------------------------------------------------------------
  // After a confirmation
  // ---------------------------------------------------------------------------

  /** After a commit the previews of its batch offer what is left, without the selected segments. */
  lemma ConfirmedAreNotOffered(db: Db, limit: nat, req: Request)
    requires CommitsFresh(db, limit, req)
    ensures exists row :: row in req.rows && row.analysis == Path(db, limit, req).batch
    ensures OffersExactly(Confirm(db, limit, req).0, Path(db, limit, req).batch, Selected(req))
  {
    FreshIsActed(db, limit, req);
    FreshPathReady(db, limit, req);
    BatchIsOfRows(db, limit, req);
    var path := Path(db, limit, req);
    FreshOffers(db, limit, req.analysis, req.minimum, path.batch, path.sources);
  }

  lemma FreshOffers(db: Db, limit: nat, analysis: AnalysisId, minimum: int, batch: AnalysisId,
                    sources: seq<Source>)
    requires ConfirmFresh(db, limit, analysis, minimum, batch, sources).1.Done?
    ensures OffersExactly(ConfirmFresh(db, limit, analysis, minimum, batch, sources).0, batch,
                          SegmentsOf(sources))
  {
    FinishOffers(db, Commit(db, analysis, minimum, batch, sources), limit, batch, SegmentsOf(sources),
                 CommitResult(db, minimum, batch, sources));
  }

  lemma BatchIsOfRows(db: Db, limit: nat, req: Request)
    requires Path(db, limit, req).Fresh?
    ensures exists row :: row in req.rows && row.analysis == Path(db, limit, req).batch
  {
    var path := Path(db, limit, req);
    FreshSources(db, limit, req);
    RowOfBatch(req.rows, path.sources, path.batch);
  }

  lemma FreshSources(db: Db, limit: nat, req: Request)
    requires Path(db, limit, req).Fresh?
    ensures ParseRows(req.rows) == Done(Path(db, limit, req).sources)
    ensures Path(db, limit, req).batch in Batches(Path(db, limit, req).sources)
  {
    LoadedAreParsed(db, Selected(req), req.rows);
  }

  lemma LoadedAreParsed(db: Db, selected: set<SegmentId>, rows: seq<SourceRow>)
    ensures LoadSources(db, selected, rows).Done? ==> LoadSources(db, selected, rows) == ParseRows(rows)
  {
  }

  lemma RowOfBatch(rows: seq<SourceRow>, sources: seq<Source>, batch: AnalysisId)
    requires ParseRows(rows) == Done(sources) && batch in Batches(sources)
    ensures exists row :: row in rows && row.analysis == batch
  {
    var i :| 0 <= i < |sources| && sources[i].analysis == batch;
    assert ParseRow(rows[i]) == Done(sources[i]);
    assert rows[i] in rows;
  }

  // ---------------------------------------------------------------------------
  // After a release
  // ---------------------------------------------------------------------------

  /** After a release the previews of the plan's batch offer all that is not taken any more. */
  lemma ReleasedAreOffered(db: Db, limit: nat, k: TargetKey, entire: bool)
    requires Release(db, limit, k, entire).1.Done?
    ensures k in db.targets && db.targets[k].plan.Some? && db.targets[k].plan.value in db.plans
    ensures OffersExactly(Release(db, limit, k, entire).0,
                          db.plans[db.targets[k].plan.value].batch, {})
  {
    FinishOffers(db, AfterRelease(db, k, entire), limit, db.plans[db.targets[k].plan.value].batch,
                 {}, ReleaseContext(db, k, entire));
  }

  /** Only targets of the plan had taken the source. */
  ghost predicate TakenOnlyBy(db: Db, s: Source, plan: PlanId) {
    forall k <- db.targets ::
      && k.segment == s.segment
      && db.targets[k].state in {Some(Reserved), Some(Consumed)}
      && db.targets[k].snapshot.Some?
      && db.targets[k].snapshot.value in db.finals
      && db.finals[db.targets[k].snapshot.value].source == s.snapshot
      ==> db.targets[k].plan == Some(plan)
  }

  lemma GivenBackIsFree(db: Db, next: Db, plan: PlanId, s: Source)
    requires TakenOnlyBy(db, s, plan) && GaveTargets(db, next, plan) && next.finals == db.finals
    ensures !Taken(next, s)
  {
  }

  /** So a suggestion that only the released plan had taken can be selected again by itself. */
  lemma ReleasedIsOfferedAgain(db: Db, limit: nat, k: TargetKey, entire: bool, plan: PlanId, s: Source)
    requires Coherent(db) && Release(db, limit, k, entire).1.Done?
    requires k in db.targets && db.targets[k].plan == Some(plan) && plan in db.plans
    requires s in SuggestionsOf(db, db.plans[plan].batch) && TakenOnlyBy(db, s, plan)
    ensures var previews, batch := Release(db, limit, k, entire).0.previews, db.plans[plan].batch;
            && batch in previews
            && exists i :: 0 <= i < |previews[batch]| && previews[batch][i].segments == {s.segment}
  {
    ReleasedAreOffered(db, limit, k, entire);
    ReleasedIsOnOffer(db, limit, k, entire, plan, s);
  }

  lemma ReleasedIsOnOffer(db: Db, limit: nat, k: TargetKey, entire: bool, plan: PlanId, s: Source)
    requires Coherent(db) && Release(db, limit, k, entire).1.Done?
    requires k in db.targets && db.targets[k].plan == Some(plan) && plan in db.plans
    requires s in SuggestionsOf(db, db.plans[plan].batch) && TakenOnlyBy(db, s, plan)
    ensures {s.segment} <= OnOffer(Release(db, limit, k, entire).0, db.plans[plan].batch, {})
  {
    var batch, mid := db.plans[plan].batch, AfterRelease(db, k, entire);
    ReleaseGivesBack(db, k, entire);
    GivenBackIsFree(db, mid, plan, s);
    assert Refresh(mid, limit, batch, {}) == Done(Release(db, limit, k, entire).0);
    OfferIgnoresPreviews(mid, Release(db, limit, k, entire).0, batch, {});
    assert s.segment in OnOffer(mid, batch, {});
  }
}
