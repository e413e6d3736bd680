/** What a stored preview shows, column by column. */
module PreviewColumns {
  import opened Wrappers
  import opened AudienceTables
  import opened WinnerSelection
  import opened WinnerRanking
  import opened AllocationProtocol
  import opened AllocationInvariant
  import opened PreviewTheorems
  import opened OfferedSources

  /** Of the selected sources the user goes to `s`: not kept out, and nothing goes before it. */
  ghost predicate GoesToSource(db: Db, selection: seq<Source>, s: Source, u: UserId) {
    && Lists(db, s, u) && !KeptOut(db, u)
    && forall other :: other in selection && other != s && Lists(db, other, u) ==>
         GoesBefore(s, FitIn(db, s, u), other, FitIn(db, other, u))
  }

  /** The line of a source counts its users, and compares them with the sample it asks for. */
  ghost predicate LineShows(db: Db, selection: seq<Source>, s: Source, line: PreviewLine) {
    exists users: set<UserId> ::
      && (forall u :: u in users <==> GoesToSource(db, selection, s, u))
      && line.segment == s.segment && line.userCount == |users|
      && line.targetable == (|users| > 0)
      && line.meetsMinimum == (|users| >= s.minSample)
      && line.status == if |users| == 0 then NoEligibleAudience
                        else if |users| < s.minSample then InsufficientSample else Targetable
  }

  /** One line per selected source in order, the total of their users, and the revision in force. */
  ghost predicate PreviewShows(db: Db, selection: seq<Source>, preview: Preview) {
    && preview.segments == (set s | s in selection :: s.segment)
    && preview.revision == db.revision
    && |preview.lines| == |selection|
    && (forall i :: 0 <= i < |selection| ==> LineShows(db, selection, selection[i], preview.lines[i]))
    && exists users: set<UserId> ::
         && (forall u :: u in users
                         <==> exists s :: s in selection && GoesToSource(db, selection, s, u))
         && preview.total == |users|
  }

  lemma UsersOfSource(db: Db, selection: seq<Source>, s: Source)
    requires Distinct(selection) && s in selection
    ensures forall u :: u in SegmentUsers(Winners(db, selection), s.segment)
                        <==> GoesToSource(db, selection, s, u)
  {
    forall u
      ensures u in SegmentUsers(Winners(db, selection), s.segment)
         <==> GoesToSource(db, selection, s, u)
    {
      AllocatedIff(db, selection, u, s);
      if u in Winners(db, selection) && Winners(db, selection)[u].segment == s.segment {
        SameSegmentSameSource(selection, Winners(db, selection)[u], s);
      }
    }
  }

  lemma LineIsShown(db: Db, selection: seq<Source>, s: Source)
    requires Distinct(selection) && s in selection
    ensures LineShows(db, selection, s, LineFor(Winners(db, selection), s))
  {
    UsersOfSource(db, selection, s);
    var users := SegmentUsers(Winners(db, selection), s.segment);
  }

  lemma TotalIsShown(db: Db, selection: seq<Source>)
    requires Distinct(selection)
    ensures forall u :: u in Winners(db, selection).Keys
                        <==> exists s :: s in selection && GoesToSource(db, selection, s, u)
    ensures |Winners(db, selection)| == |Winners(db, selection).Keys|
  {
    forall u
      ensures u in Winners(db, selection).Keys
         <==> exists s :: s in selection && GoesToSource(db, selection, s, u)
    {
      if u in Winners(db, selection) {
        AllocatedIff(db, selection, u, Winners(db, selection)[u]);
      }
      if s :| s in selection && GoesToSource(db, selection, s, u) {
        AllocatedIff(db, selection, u, s);
      }
    }
  }

  lemma PreviewIsShown(db: Db, selection: seq<Source>)
    requires Distinct(selection)
    ensures PreviewShows(db, selection, PreviewFor(db, selection))
  {
    var preview := PreviewFor(db, selection);
    forall i | 0 <= i < |selection|
      ensures LineShows(db, selection, selection[i], preview.lines[i])
    {
      LineIsShown(db, selection, selection[i]);
    }
    TotalIsShown(db, selection);
  }

  /** The preview is of a selection of the suggestions on offer. */
  ghost predicate ShowsOffer(db: Db, batch: AnalysisId, exclude: set<SegmentId>, preview: Preview) {
    exists selection ::
      && (forall s :: s in selection ==>
            s in SuggestionsOf(db, batch) && s.segment !in exclude && !Taken(db, s))
      && PreviewShows(db, selection, preview)
  }

  lemma PickIsShown(db: Db, batch: AnalysisId, exclude: set<SegmentId>, preview: Preview)
    requires Previews(db, Candidates(db, batch, exclude), preview)
    ensures ShowsOffer(db, batch, exclude, preview)
  {
    var xs := Candidates(db, batch, exclude);
    var selection :| Picks(selection, xs) && preview == PreviewFor(db, selection);
    CandidatesAre(db, batch, exclude);
    PreviewIsShown(db, selection);
  }

  /** Every preview that a refresh stores is of sources on offer, and shows these columns. */
  lemma RefreshShows(db: Db, limit: nat, batch: AnalysisId, exclude: set<SegmentId>)
    requires Refresh(db, limit, batch, exclude).Done?
    ensures var next := Refresh(db, limit, batch, exclude).value;
            && OffersExactly(next, batch, exclude)
            && forall i :: 0 <= i < |next.previews[batch]| ==>
                 ShowsOffer(db, batch, exclude, next.previews[batch][i])
  {
    RefreshOffers(db, limit, batch, exclude);
    PreviewsListEverySelectionOnce(db, limit, batch, exclude);
    var previews := Refresh(db, limit, batch, exclude).value.previews[batch];
    forall i | 0 <= i < |previews|
      ensures ShowsOffer(db, batch, exclude, previews[i])
    {
      PickIsShown(db, batch, exclude, previews[i]);
    }
  }
}
