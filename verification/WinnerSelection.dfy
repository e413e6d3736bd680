/** One winning segment per user: the ranked query behind a confirmation and its previews. */
module WinnerSelection {
  import opened Wrappers
  import opened AudienceTables
  import opened SetSizes

  /** ALLOCATION_POLICY_PRIORITY: a smaller number wins. */
  function Priority(t: Template): int {
    match t
    case CustomStructured => -1
    case DestinationAffinity => 0
    case FunnelRecovery => 1
    case BenefitValueSeeker => 2
    case PromotionResponsive => 3
    case GeneralExplorer => 4
    case IntentMatched => 5
  }

  function NormalizedFit(s: Source, fit: Fit): Fit {
    if fit.None? then None else Some((fit.value - s.threshold) / s.margin)
  }

  function SourceMembers(db: Db, s: Source): map<UserId, Fit> {
    MembersOf(db, SourceSnapshot(s.snapshot))
  }

  /** Descending with nulls last. */
  predicate FitAbove(a: Fit, b: Fit) {
    a.Some? && (b.None? || a.value > b.value)
  }

  /** priority ASC, normalized fit DESC NULLS LAST, segment id ASC. */
  predicate Beats(db: Db, u: UserId, a: Source, b: Source)
    requires u in SourceMembers(db, a) && u in SourceMembers(db, b)
  {
    var fa := NormalizedFit(a, SourceMembers(db, a)[u]);
    var fb := NormalizedFit(b, SourceMembers(db, b)[u]);
    || Priority(a.template) < Priority(b.template)
    || (Priority(a.template) == Priority(b.template)
        && (FitAbove(fa, fb) || (fa == fb && a.segment < b.segment)))
  }

  /** The primary key of the temporary source table. */
  predicate Distinct(sources: seq<Source>) {
    forall i, j :: 0 <= i < j < |sources| ==> sources[i].segment != sources[j].segment
  }

  function SegmentsOf(sources: seq<Source>): set<SegmentId> {
    set s | s in sources :: s.segment
  }

  /** The row that `row_number() = 1` keeps for a user. */
  function WinnerOf(db: Db, sources: seq<Source>, u: UserId): (w: Option<Source>)
    ensures w.Some? ==> w.value in sources && u in SourceMembers(db, w.value)
  {
    if sources == [] then None
    else
      var last := sources[|sources| - 1];
      var best := WinnerOf(db, sources[..|sources| - 1], u);
      if u !in SourceMembers(db, last) then best
      else if best.None? || Beats(db, u, last, best.value) then Some(last)
      else best
  }

  function Pool(db: Db, sources: seq<Source>): set<UserId> {
    set s, u | s in sources && u in SourceMembers(db, s) && !Excluded(db, u) :: u
  }

  /** The temporary winner table. */
  function Winners(db: Db, sources: seq<Source>): (w: map<UserId, Source>)
    ensures w.Keys == Pool(db, sources)
    ensures forall u <- w :: w[u] in sources && u in SourceMembers(db, w[u])
  {
    map u | u in Pool(db, sources) :: TheWinner(db, sources, u)
  }

  function TheWinner(db: Db, sources: seq<Source>, u: UserId): (w: Source)
    requires u in Pool(db, sources)
    ensures w in sources && u in SourceMembers(db, w)
  {
    WinnerExists(db, sources, u);
    WinnerOf(db, sources, u).value
  }

  function SegmentUsers(winners: map<UserId, Source>, segment: SegmentId): set<UserId> {
    set u | u in winners && winners[u].segment == segment
  }

  function TotalOver(winners: map<UserId, Source>, sources: seq<Source>): nat {
    if sources == [] then
      0
    else
      var front, last := sources[..|sources| - 1], sources[|sources| - 1];
      TotalOver(winners, front) + |SegmentUsers(winners, last.segment)|
  }

  lemma {:induction false} WinnerExists(db: Db, sources: seq<Source>, u: UserId)
    ensures WinnerOf(db, sources, u).Some?
       <==> exists s :: s in sources && u in SourceMembers(db, s)
  {
    if sources != [] {
      var front, last := sources[..|sources| - 1], sources[|sources| - 1];
      assert sources == front + [last];
      WinnerExists(db, front, u);
    }
  }

  /** The kept row beats every other row of the user. */
  lemma {:induction false} WinnerBeatsAll(db: Db, sources: seq<Source>, u: UserId, s: Source)
    requires Distinct(sources)
    requires s in sources && u in SourceMembers(db, s)
    ensures var w := WinnerOf(db, sources, u);
            w.Some? && (w.value == s || Beats(db, u, w.value, s))
  {
    WinnerExists(db, sources, u);
    var front, last := sources[..|sources| - 1], sources[|sources| - 1];
    var best := WinnerOf(db, front, u);
    if s in front {
      WinnerBeatsAll(db, front, u, s);
    } else {
      assert s == last;
      if best.Some? {
        var i :| 0 <= i < |front| && front[i] == best.value;
        assert sources[i].segment != sources[|sources| - 1].segment;
      }
    }
  }

  /** Winners do not depend on the order in which the sources are listed. */
  lemma WinnersIgnoreSourceOrder(db: Db, a: seq<Source>, b: seq<Source>)
    requires Distinct(a) && Distinct(b)
    requires forall s :: s in a <==> s in b
    ensures Winners(db, a) == Winners(db, b)
  {
    SamePool(db, a, b);
    forall u | u in Pool(db, a)
      ensures TheWinner(db, a, u) == TheWinner(db, b, u)
    {
      SameWinner(db, a, b, u);
    }
  }

  lemma SamePool(db: Db, a: seq<Source>, b: seq<Source>)
    requires forall s :: s in a <==> s in b
    ensures Pool(db, a) == Pool(db, b)
  {
  }

  lemma SameWinner(db: Db, a: seq<Source>, b: seq<Source>, u: UserId)
    requires Distinct(a) && Distinct(b)
    requires forall s :: s in a <==> s in b
    requires u in Pool(db, a) && u in Pool(db, b)
    ensures TheWinner(db, a, u) == TheWinner(db, b, u)
  {
    WinnerExists(db, a, u);
    WinnerExists(db, b, u);
    WinnerBeatsAll(db, a, u, WinnerOf(db, b, u).value);
    WinnerBeatsAll(db, b, u, WinnerOf(db, a, u).value);
  }

  /**
   Selecting more segments never takes a user's place away from the whole selection,
   and never gives a segment that was already selected a user it did not have.
   */
  lemma LargerSelectionOnlyMovesUsersOut(db: Db, small: seq<Source>, large: seq<Source>,
                                         segment: SegmentId)
    requires Distinct(small) && Distinct(large)
    requires forall s :: s in small ==> s in large
    requires segment in SegmentsOf(small)
    ensures SegmentUsers(Winners(db, large), segment) <= SegmentUsers(Winners(db, small), segment)
    ensures Winners(db, small).Keys <= Winners(db, large).Keys
    ensures |Winners(db, small)| <= |Winners(db, large)|
  {
    var ws, wl := Winners(db, small), Winners(db, large);
    forall u | u in SegmentUsers(wl, segment)
      ensures u in SegmentUsers(ws, segment)
    {
      var s :| s in small && s.segment == segment;
      SameSegmentSameSource(large, wl[u], s);
      assert u in Pool(db, small);
      WinnerBeatsAll(db, small, u, s);
      WinnerBeatsAll(db, large, u, ws[u]);
    }
    SubsetSize(ws.Keys, wl.Keys);
  }

  lemma SameSegmentSameSource(sources: seq<Source>, a: Source, b: Source)
    requires Distinct(sources) && a in sources && b in sources && a.segment == b.segment
    ensures a == b
  {
    var i :| 0 <= i < |sources| && sources[i] == a;
    var j :| 0 <= j < |sources| && sources[j] == b;
    assert i == j;
  }

  /** Every non-excluded source member is allocated to exactly one selected segment. */
  lemma WinnersPartitionThePool(db: Db, sources: seq<Source>)
    requires Distinct(sources)
    ensures forall u <- Pool(db, sources) ::
              exists s :: s in sources && u in SegmentUsers(Winners(db, sources), s.segment)
    ensures forall s, t :: s in sources && t in sources && s.segment != t.segment ==>
              SegmentUsers(Winners(db, sources), s.segment)
                !! SegmentUsers(Winners(db, sources), t.segment)
    ensures TotalOver(Winners(db, sources), sources) == |Pool(db, sources)|
  {
    var w := Winners(db, sources);
    TotalCountsUsers(w, sources);
    assert UsersIn(w, SegmentsOf(sources)) == w.Keys;
    forall u | u in Pool(db, sources)
      ensures w[u] in sources && u in SegmentUsers(w, w[u].segment)
    {
    }
  }

  function UsersIn(w: map<UserId, Source>, segments: set<SegmentId>): set<UserId> {
    set u | u in w && w[u].segment in segments
  }

  lemma {:induction false} TotalCountsUsers(w: map<UserId, Source>, sources: seq<Source>)
    requires Distinct(sources)
    ensures TotalOver(w, sources) == |UsersIn(w, SegmentsOf(sources))|
  {
    if sources == [] {
      assert UsersIn(w, SegmentsOf(sources)) == {};
    } else {
      var front, last := sources[..|sources| - 1], sources[|sources| - 1];
      TotalCountsUsers(w, front);
      SegmentsOfSplit(front, last);
      assert sources == front + [last];
      UsersSplit(w, SegmentsOf(front), last.segment);
    }
  }

  lemma UsersSplit(w: map<UserId, Source>, segments: set<SegmentId>, s: SegmentId)
    requires s !in segments
    ensures |UsersIn(w, segments + {s})| == |UsersIn(w, segments)| + |SegmentUsers(w, s)|
  {
    var before, here := UsersIn(w, segments), SegmentUsers(w, s);
    assert UsersIn(w, segments + {s}) == before + here;
    assert before !! here;
  }

  lemma SegmentsOfSplit(front: seq<Source>, last: Source)
    ensures SegmentsOf(front + [last]) == SegmentsOf(front) + {last.segment}
    ensures Distinct(front + [last]) ==> last.segment !in SegmentsOf(front)
  {
    var all := front + [last];
    assert all[|front|] == last;
    forall s | s in front
      ensures s in all
    {
      var i :| 0 <= i < |front| && front[i] == s;
      assert all[i] == s;
    }
    if Distinct(all) {
      forall s | s in front
        ensures s.segment != last.segment
      {
        var i :| 0 <= i < |front| && front[i] == s;
        assert all[i].segment != all[|front|].segment;
      }
    }
  }
}
