/** The stored previews list every selection once, with the counts its confirmation would give. */
module PreviewTheorems {
  import opened Wrappers
  import opened AudienceTables
  import opened SetSizes
  import Sorting
  import opened WinnerSelection
  import opened AllocationProtocol
  import opened AllocationInvariant
  import opened ConfirmTheorems
  import opened CoherentInvariant

  /** `c` picks distinct sources of `xs`. */
  ghost predicate Picks(c: seq<Source>, xs: seq<Source>) {
    Distinct(c) && forall s :: s in c ==> s in xs
  }

  lemma HeadAbsentFromTail(xs: seq<Source>)
    requires xs != [] && Distinct(xs)
    ensures Distinct(xs[1..]) && xs[0].segment !in SegmentsOf(xs[1..])
    ensures SegmentsOf(xs) == {xs[0].segment} + SegmentsOf(xs[1..])
  {
    assert xs == [xs[0]] + xs[1..];
    forall s | s in xs[1..]
      ensures s.segment != xs[0].segment && s in xs
    {
      var i :| 0 <= i < |xs[1..]| && xs[1..][i] == s;
      assert xs[i + 1] == s;
    }
    assert xs[0] in xs;
  }

  lemma PrependPick(c: seq<Source>, xs: seq<Source>)
    requires xs != [] && Distinct(xs) && Picks(c, xs[1..])
    ensures Picks([xs[0]] + c, xs)
    ensures SegmentsOf([xs[0]] + c) == {xs[0].segment} + SegmentsOf(c)
    ensures xs[0].segment !in SegmentsOf(c)
  {
    HeadAbsentFromTail(xs);
    var d := [xs[0]] + c;
    forall i, j | 0 <= i < j < |d|
      ensures d[i].segment != d[j].segment
    {
      assert c[j - 1] in xs[1..];
      assert d[j] == c[j - 1];
    }
    assert d[0] == xs[0];
    forall s | s in c
      ensures s in d
    {
      var i :| 0 <= i < |c| && c[i] == s;
      assert d[i + 1] == s;
    }
  }

  lemma {:induction false} CombinationsArePicks(xs: seq<Source>, size: nat)
    requires Distinct(xs)
    ensures forall c :: c in Combinations(xs, size) ==> |c| == size && Picks(c, xs)
  {
    if size != 0 && xs != [] {
      HeadAbsentFromTail(xs);
      var head, tail := Combinations(xs[1..], size - 1), Combinations(xs[1..], size);
      CombinationsArePicks(xs[1..], size - 1);
      CombinationsArePicks(xs[1..], size);
      forall c | c in Combinations(xs, size)
        ensures |c| == size && Picks(c, xs)
      {
        if c in WithHead(xs[0], head) {
          var i :| 0 <= i < |head| && c == [xs[0]] + head[i];
          PrependPick(head[i], xs);
        } else {
          assert c in tail;
        }
      }
    }
  }

  ghost predicate Reached(xs: seq<Source>, chosen: set<SegmentId>) {
    exists c :: c in Combinations(xs, |chosen|) && SegmentsOf(c) == chosen
  }

  lemma {:induction false} CombinationsReach(xs: seq<Source>, chosen: set<SegmentId>)
    requires Distinct(xs) && chosen <= SegmentsOf(xs)
    ensures Reached(xs, chosen)
  {
    if chosen == {} {
      assert SegmentsOf([]) == {};
      assert [] in Combinations(xs, 0);
    } else {
      var h0 :| h0 in chosen;
      assert h0 in SegmentsOf(xs);
      HeadAbsentFromTail(xs);
      var h := xs[0].segment;
      if h in chosen {
        CombinationsReach(xs[1..], chosen - {h});
        ReachWithHead(xs, chosen);
      } else {
        CombinationsReach(xs[1..], chosen);
        ReachWithoutHead(xs, chosen);
      }
    }
  }

  lemma ReachWithHead(xs: seq<Source>, chosen: set<SegmentId>)
    requires xs != [] && Distinct(xs) && xs[0].segment in chosen
    requires Distinct(xs[1..]) && Reached(xs[1..], chosen - {xs[0].segment})
    ensures Reached(xs, chosen)
  {
    var fewer := chosen - {xs[0].segment};
    var c :| c in Combinations(xs[1..], |fewer|) && SegmentsOf(c) == fewer;
    assert chosen == {xs[0].segment} + fewer;
    assert |chosen| == 1 + |fewer|;
    ExtendedPick(xs, |fewer|, c);
  }

  lemma ExtendedPick(xs: seq<Source>, size: nat, c: seq<Source>)
    requires xs != [] && Distinct(xs) && Distinct(xs[1..]) && c in Combinations(xs[1..], size)
    ensures [xs[0]] + c in Combinations(xs, size + 1)
    ensures SegmentsOf([xs[0]] + c) == {xs[0].segment} + SegmentsOf(c)
  {
    CombinationsArePicks(xs[1..], size);
    PrependPick(c, xs);
    HeadListed(xs, size, c);
  }

  lemma HeadListed(xs: seq<Source>, size: nat, c: seq<Source>)
    requires xs != [] && c in Combinations(xs[1..], size)
    ensures [xs[0]] + c in Combinations(xs, size + 1)
  {
    InWithHead(xs[0], Combinations(xs[1..], size), c);
  }

  lemma ReachWithoutHead(xs: seq<Source>, chosen: set<SegmentId>)
    requires xs != [] && chosen != {} && Reached(xs[1..], chosen)
    ensures Reached(xs, chosen)
  {
    var c :| c in Combinations(xs[1..], |chosen|) && SegmentsOf(c) == chosen;
    assert c in Combinations(xs, |chosen|);
  }

  lemma InWithHead(x: Source, tails: seq<seq<Source>>, c: seq<Source>)
    requires c in tails
    ensures [x] + c in WithHead(x, tails)
  {
    var i :| 0 <= i < |tails| && tails[i] == c;
    assert WithHead(x, tails)[i] == [x] + c;
  }

  /** No two of the listed combinations select the same segments. */
  ghost predicate AllDifferent(cs: seq<seq<Source>>) {
    forall i, j :: 0 <= i < j < |cs| ==> SegmentsOf(cs[i]) != SegmentsOf(cs[j])
  }

  lemma {:induction false} CombinationsDiffer(xs: seq<Source>, size: nat)
    requires Distinct(xs)
    ensures AllDifferent(Combinations(xs, size))
  {
    if size != 0 && xs != [] {
      HeadAbsentFromTail(xs);
      var head, tail := Combinations(xs[1..], size - 1), Combinations(xs[1..], size);
      CombinationsDiffer(xs[1..], size - 1);
      CombinationsDiffer(xs[1..], size);
      CombinationsArePicks(xs[1..], size - 1);
      CombinationsArePicks(xs[1..], size);
      HeadsPrepended(xs, head);
      TailsLackHead(xs, tail);
      HeadAndTailDiffer(xs[0].segment, head, tail, Combinations(xs, size));
    }
  }

  lemma HeadsPrepended(xs: seq<Source>, head: seq<seq<Source>>)
    requires xs != [] && Distinct(xs) && Distinct(xs[1..]) && xs[0].segment !in SegmentsOf(xs[1..])
    requires forall c :: c in head ==> Picks(c, xs[1..])
    ensures forall i :: 0 <= i < |head| ==>
              && SegmentsOf(WithHead(xs[0], head)[i]) == {xs[0].segment} + SegmentsOf(head[i])
              && xs[0].segment !in SegmentsOf(head[i])
  {
    forall i | 0 <= i < |head|
      ensures SegmentsOf(WithHead(xs[0], head)[i]) == {xs[0].segment} + SegmentsOf(head[i])
      ensures xs[0].segment !in SegmentsOf(head[i])
    {
      assert head[i] in head;
      PrependPick(head[i], xs);
    }
  }

  lemma TailsLackHead(xs: seq<Source>, tail: seq<seq<Source>>)
    requires xs != [] && xs[0].segment !in SegmentsOf(xs[1..])
    requires forall c :: c in tail ==> Picks(c, xs[1..])
    ensures forall i :: 0 <= i < |tail| ==> xs[0].segment !in SegmentsOf(tail[i])
  {
    forall i | 0 <= i < |tail| ensures xs[0].segment !in SegmentsOf(tail[i]) {
      assert tail[i] in tail;
    }
  }

  lemma HeadAndTailDiffer(h: SegmentId, head: seq<seq<Source>>, tail: seq<seq<Source>>,
                          all: seq<seq<Source>>)
    requires AllDifferent(head) && AllDifferent(tail)
    requires |all| == |head| + |tail| && all[|head|..] == tail
    requires forall i :: 0 <= i < |head| ==>
               SegmentsOf(all[i]) == {h} + SegmentsOf(head[i]) && h !in SegmentsOf(head[i])
    requires forall i :: 0 <= i < |tail| ==> h !in SegmentsOf(tail[i])
    ensures AllDifferent(all)
  {
    forall i, j | 0 <= i < j < |all|
      ensures SegmentsOf(all[i]) != SegmentsOf(all[j])
    {
      if j < |head| {
        assert SegmentsOf(head[i]) == SegmentsOf(all[i]) - {h};
        assert SegmentsOf(head[j]) == SegmentsOf(all[j]) - {h};
      } else if i < |head| {
        assert all[j] == tail[j - |head|];
        assert h in SegmentsOf(all[i]);
      } else {
        assert all[i] == tail[i - |head|] && all[j] == tail[j - |head|];
      }
    }
  }

  lemma {:induction false} PickSize(c: seq<Source>)
    requires Distinct(c)
    ensures |SegmentsOf(c)| == |c|
  {
    if c == [] {
      assert SegmentsOf(c) == {};
    } else {
      var front, last := c[..|c| - 1], c[|c| - 1];
      assert c == front + [last];
      PickSize(front);
      SegmentsOfSplit(front, last);
      assert SegmentsOf(c) == SegmentsOf(front) + {last.segment};
    }
  }

  lemma {:induction false} CombinationsUpToFacts(xs: seq<Source>, size: nat)
    requires Distinct(xs)
    ensures forall c :: c in CombinationsUpTo(xs, size) ==> Picks(c, xs) && 1 <= |c| <= size
    ensures AllDifferent(CombinationsUpTo(xs, size))
    ensures forall chosen :: chosen <= SegmentsOf(xs) && 1 <= |chosen| <= size ==>
              exists c :: c in CombinationsUpTo(xs, size) && SegmentsOf(c) == chosen
  {
    if size != 0 {
      CombinationsUpToFacts(xs, size - 1);
      CombinationsArePicks(xs, size);
      CombinationsDiffer(xs, size);
      SizesDiffer(CombinationsUpTo(xs, size - 1), Combinations(xs, size), size);
      forall chosen | chosen <= SegmentsOf(xs) && 1 <= |chosen| <= size
        ensures exists c :: c in CombinationsUpTo(xs, size) && SegmentsOf(c) == chosen
      {
        if |chosen| == size {
          CombinationsReach(xs, chosen);
          assert Reached(xs, chosen);
          var c :| c in Combinations(xs, |chosen|) && SegmentsOf(c) == chosen;
          assert c in CombinationsUpTo(xs, size);
        } else {
          var c :| c in CombinationsUpTo(xs, size - 1) && SegmentsOf(c) == chosen;
          assert c in CombinationsUpTo(xs, size);
        }
      }
    }
  }

  lemma SizesDiffer(small: seq<seq<Source>>, big: seq<seq<Source>>, size: nat)
    requires AllDifferent(small) && AllDifferent(big)
    requires forall c :: c in small ==> Distinct(c) && |c| < size
    requires forall c :: c in big ==> Distinct(c) && |c| == size
    ensures AllDifferent(small + big)
  {
    var all := small + big;
    forall i, j | 0 <= i < j < |all|
      ensures SegmentsOf(all[i]) != SegmentsOf(all[j])
    {
      if i < |small| <= j {
        assert all[i] in small && all[j] in big;
        PickSize(all[i]);
        PickSize(all[j]);
      } else if j < |small| {
        assert all[i] == small[i] && all[j] == small[j];
      } else {
        assert all[i] == big[i - |small|] && all[j] == big[j - |small|];
      }
    }
  }

  /** Each non-empty set of candidate segments has exactly one preview, and nothing else has. */
  lemma PreviewsListEverySelectionOnce(db: Db, limit: nat, batch: AnalysisId,
                                       exclude: set<SegmentId>)
    requires Refresh(db, limit, batch, exclude).Done?
    ensures var ps := Refresh(db, limit, batch, exclude).value.previews[batch];
            var open := SegmentsOf(Candidates(db, batch, exclude));
            && (forall i :: 0 <= i < |ps| ==> {} != ps[i].segments <= open)
            && (forall i, j :: 0 <= i < j < |ps| ==> ps[i].segments != ps[j].segments)
            && (forall chosen :: chosen <= open && chosen != {} ==>
                  exists i :: 0 <= i < |ps| && ps[i].segments == chosen)
            && forall i :: 0 <= i < |ps| ==> Previews(db, Candidates(db, batch, exclude), ps[i])
  {
    var xs := Candidates(db, batch, exclude);
    EverySelectionOnce(xs, CombinationsUpTo(xs, |xs|), PreviewsFor(db, CombinationsUpTo(xs, |xs|)));
    EveryPreviewCounts(db, xs, CombinationsUpTo(xs, |xs|));
  }

  /** The preview's counts are those of allocating a selection of the candidates by itself. */
  ghost predicate Previews(db: Db, xs: seq<Source>, preview: Preview) {
    exists c :: Picks(c, xs) && preview == PreviewFor(db, c)
  }

  lemma EveryPreviewCounts(db: Db, xs: seq<Source>, cs: seq<seq<Source>>)
    requires Distinct(xs) && cs == CombinationsUpTo(xs, |xs|)
    ensures var ps := PreviewsFor(db, cs);
            |ps| == |cs| && forall i :: 0 <= i < |ps| ==> Previews(db, xs, ps[i])
  {
    CombinationsUpToFacts(xs, |xs|);
    forall i | 0 <= i < |cs|
      ensures Previews(db, xs, PreviewsFor(db, cs)[i])
    {
      assert cs[i] in cs && PreviewsFor(db, cs)[i] == PreviewFor(db, cs[i]);
    }
  }

  lemma EverySelectionOnce(xs: seq<Source>, cs: seq<seq<Source>>, ps: seq<Preview>)
    requires Distinct(xs) && cs == CombinationsUpTo(xs, |xs|)
    requires |ps| == |cs| && forall i :: 0 <= i < |ps| ==> ps[i].segments == SegmentsOf(cs[i])
    ensures forall i :: 0 <= i < |ps| ==> {} != ps[i].segments <= SegmentsOf(xs)
    ensures forall i, j :: 0 <= i < j < |ps| ==> ps[i].segments != ps[j].segments
    ensures forall chosen :: chosen <= SegmentsOf(xs) && chosen != {} ==>
              exists i :: 0 <= i < |ps| && ps[i].segments == chosen
  {
    CombinationsUpToFacts(xs, |xs|);
    forall i | 0 <= i < |ps|
      ensures {} != ps[i].segments <= SegmentsOf(xs)
    {
      PickSelects(xs, cs, i);
    }
    forall chosen | chosen <= SegmentsOf(xs) && chosen != {}
      ensures exists i :: 0 <= i < |ps| && ps[i].segments == chosen
    {
      var i := SelectionIndex(xs, cs, chosen);
      assert ps[i].segments == chosen;
    }
  }

  lemma PickSelects(xs: seq<Source>, cs: seq<seq<Source>>, i: nat)
    requires i < |cs| && forall c :: c in cs ==> Picks(c, xs) && 1 <= |c|
    ensures {} != SegmentsOf(cs[i]) <= SegmentsOf(xs)
  {
    assert cs[i] in cs;
    assert cs[i][0] in cs[i];
    assert cs[i][0].segment in SegmentsOf(cs[i]);
  }

  lemma SelectionIndex(xs: seq<Source>, cs: seq<seq<Source>>, chosen: set<SegmentId>) returns (i: nat)
    requires Distinct(xs) && chosen <= SegmentsOf(xs) && chosen != {}
    requires forall some :: some <= SegmentsOf(xs) && 1 <= |some| <= |xs| ==>
               exists c :: c in cs && SegmentsOf(c) == some
    ensures i < |cs| && SegmentsOf(cs[i]) == chosen
  {
    PickSize(xs);
    SubsetSize(chosen, SegmentsOf(xs));
    var c :| c in cs && SegmentsOf(c) == chosen;
    i :| 0 <= i < |cs| && cs[i] == c;
  }

  /** Every line shows the positive count that its segment is allocated. */
  predicate LinesForecast(lines: seq<PreviewLine>, answer: Confirmed) {
    forall i :: 0 <= i < |lines| ==>
      && lines[i].segment in answer.allocations
      && lines[i].userCount == answer.allocations[lines[i].segment].userCount > 0
      && lines[i].targetable
  }

  /** A preview forecasts the confirmation of its selection in the same state. */
  lemma PreviewForecastsConfirmation(db: Db, limit: nat, req: Request, combination: seq<Source>)
    requires Coherent(db) && CommitsFresh(db, limit, req) && Distinct(combination)
    requires multiset(combination) == multiset(Path(db, limit, req).sources)
    ensures var preview, answer := PreviewFor(db, combination), Confirm(db, limit, req).1.value;
            && preview.segments == answer.allocations.Keys
            && preview.total == FinalCount(Confirm(db, limit, req).0, answer.plan,
                                           Path(db, limit, req).sources)
            && preview.revision + 1 == answer.revision
            && |preview.lines| == |combination| && LinesForecast(preview.lines, answer)
  {
    FreshCommitWrites(db, limit, req);
    ConfirmConservesUsers(db, limit, req);
    var path := Path(db, limit, req);
    SameSelection(db, combination, path.sources);
    LinesMatchAnswer(db, combination, req.minimum, path.batch, path.sources, Winners(db, path.sources),
                     PreviewFor(db, combination), CommitResult(db, req.minimum, path.batch, path.sources));
  }

  /** The sources of a selection in another order. */
  lemma SameSelection(db: Db, combination: seq<Source>, sources: seq<Source>)
    requires Ready(db, sources) && Distinct(combination) && multiset(combination) == multiset(sources)
    ensures Winners(db, combination) == Winners(db, sources)
    ensures SegmentsOf(combination) == SegmentsOf(sources)
    ensures SegmentsWin(Winners(db, sources), sources, combination)
  {
    forall s ensures s in combination <==> s in sources {
      Sorting.SameElements(combination, sources, s);
    }
    WinnersIgnoreSourceOrder(db, combination, sources);
    SameSegments(combination, sources);
    EveryLineCounts(db, combination, sources, Winners(db, sources));
  }

  lemma LinesMatchAnswer(db: Db, combination: seq<Source>, minimum: int, batch: AnalysisId,
                         sources: seq<Source>, w: map<UserId, Source>, preview: Preview, answer: Confirmed)
    requires w == Winners(db, combination) && w == Winners(db, sources)
    requires SegmentsOf(combination) == SegmentsOf(sources) && SegmentsWin(w, sources, combination)
    requires preview == PreviewFor(db, combination)
    requires answer == CommitResult(db, minimum, batch, sources)
    ensures preview.segments == answer.allocations.Keys
    ensures preview.total == |w|
    ensures preview.revision + 1 == answer.revision
    ensures LinesForecast(preview.lines, answer)
  {
    CountsOfPreview(db, combination, w, preview);
    CountsOfAnswer(db, minimum, batch, sources, w, answer);
    LinesAgree(w, combination, sources, preview, answer);
  }

  lemma LinesAgree(w: map<UserId, Source>, combination: seq<Source>, sources: seq<Source>, preview: Preview,
                   answer: Confirmed)
    requires |preview.lines| == |combination|
    requires LinesCount(preview.lines, w, combination) && SegmentsWin(w, sources, combination)
    requires AnswerCounts(answer, w, sources)
    ensures LinesForecast(preview.lines, answer)
  {
    forall i | 0 <= i < |combination|
      ensures preview.lines[i].segment in answer.allocations && preview.lines[i].targetable
      ensures preview.lines[i].userCount == answer.allocations[preview.lines[i].segment].userCount > 0
    {
      assert LineCounts(preview.lines[i], w, combination[i].segment);
      assert SegmentWins(w, sources, combination[i].segment);
    }
  }

  /** A preview line counts the winners of its segment. */
  predicate LineCounts(line: PreviewLine, w: map<UserId, Source>, segment: SegmentId) {
    && line.segment == segment && line.userCount == |SegmentUsers(w, segment)|
    && line.targetable == (line.userCount > 0)
  }

  lemma EveryLineCounts(db: Db, combination: seq<Source>, sources: seq<Source>, w: map<UserId, Source>)
    requires Ready(db, sources) && w == Winners(db, sources) && forall s :: s in combination ==> s in sources
    ensures SegmentsWin(w, sources, combination)
  {
    forall i | 0 <= i < |combination| ensures SegmentWins(w, sources, combination[i].segment) {
      assert combination[i] in combination;
      assert combination[i].segment in SegmentsOf(sources);
      assert SegmentUsers(Winners(db, sources), combination[i].segment) != {};
    }
  }

  predicate AnswerCounts(answer: Confirmed, w: map<UserId, Source>, sources: seq<Source>) {
    && answer.allocations.Keys == SegmentsOf(sources)
    && forall s <- SegmentsOf(sources) :: answer.allocations[s].userCount == |SegmentUsers(w, s)|
  }

  predicate LinesCount(lines: seq<PreviewLine>, w: map<UserId, Source>, combination: seq<Source>) {
    && |lines| == |combination|
    && forall i :: 0 <= i < |lines| ==> LineCounts(lines[i], w, combination[i].segment)
  }

  predicate SegmentsWin(w: map<UserId, Source>, sources: seq<Source>, combination: seq<Source>) {
    forall i :: 0 <= i < |combination| ==> SegmentWins(w, sources, combination[i].segment)
  }

  predicate SegmentWins(w: map<UserId, Source>, sources: seq<Source>, segment: SegmentId) {
    segment in SegmentsOf(sources) && |SegmentUsers(w, segment)| > 0
  }

  lemma SameSegments(a: seq<Source>, b: seq<Source>)
    requires forall s :: s in a <==> s in b
    ensures SegmentsOf(a) == SegmentsOf(b)
  {
  }

  lemma CountsOfPreview(db: Db, combination: seq<Source>, w: map<UserId, Source>, preview: Preview)
    requires preview == PreviewFor(db, combination) && w == Winners(db, combination)
    ensures preview.segments == SegmentsOf(combination)
    ensures preview.total == |w|
    ensures preview.revision == db.revision
    ensures |preview.lines| == |combination|
    ensures LinesCount(preview.lines, w, combination)
  {
  }

  lemma CountsOfAnswer(db: Db, minimum: int, batch: AnalysisId, sources: seq<Source>, w: map<UserId, Source>,
                       answer: Confirmed)
    requires answer == CommitResult(db, minimum, batch, sources) && w == Winners(db, sources)
    ensures answer.revision == db.revision + 1
    ensures AnswerCounts(answer, w, sources)
  {
  }
}
