/**
 Canonical filter values are fixed points: splitting a joined list gives the list back, since no
 alternative contains anything that splitting, trimming or folding would act on.
 */
module FilterTheorems {
  import opened Text
  import opened FilterValues

  // ---------------------------------------------------------------------------
  // Connecting words
  // ---------------------------------------------------------------------------

  /** The word made of `a` and `b` does not occur. */
  predicate WordFree(s: string, a: char, b: char) {
    forall i :: 0 <= i < |s| - 1 ==> !(s[i] == a && s[i + 1] == b)
  }

  predicate ConnectorFree(s: string) {
    WordFree(s, TTO, NEUN) && WordFree(s, HOK, EUN)
  }

  lemma {:induction false} ReplaceAbsentWord(s: string, a: char, b: char)
    requires WordFree(s, a, b)
    ensures ReplaceWord(s, a, b) == s
  {
    if s != "" {
      if |s| >= 2 {
        assert !(s[0] == a && s[0 + 1] == b);
      }
      TailIsWordFree(s, a, b);
      ReplaceAbsentWord(s[1..], a, b);
    }
  }

  lemma TailIsWordFree(s: string, a: char, b: char)
    requires WordFree(s, a, b) && s != ""
    ensures WordFree(s[1..], a, b)
  {
    forall i | 0 <= i < |s[1..]| - 1 ensures !(s[1..][i] == a && s[1..][i + 1] == b) {
      assert !(s[i + 1] == a && s[(i + 1) + 1] == b);
    }
  }

  lemma ConsIsWordFree(c: char, s: string, a: char, b: char)
    requires WordFree(s, a, b) && (s != "" ==> !(c == a && s[0] == b))
    ensures WordFree([c] + s, a, b)
  {
    var t := [c] + s;
    forall i | 0 <= i < |t| - 1 ensures !(t[i] == a && t[i + 1] == b) {
      if i > 0 {
        assert t[i] == s[i - 1] && t[i + 1] == s[(i - 1) + 1];
      }
    }
  }

  lemma HeadOfReplaced(s: string, a: char, b: char)
    requires s != ""
    ensures ReplaceWord(s, a, b) != "" && ReplaceWord(s, a, b)[0] in [s[0], ',']
  {
  }

  /** Replacing a word leaves none, and brings no other word about. */
  lemma {:induction false} ReplacedIsFree(s: string, a: char, b: char)
    requires a != ',' && b != ','
    ensures WordFree(ReplaceWord(s, a, b), a, b)
    decreases |s|
  {
    if |s| >= 2 && s[0] == a && s[1] == b {
      ReplacedIsFree(s[2..], a, b);
      ConsIsWordFree(',', ReplaceWord(s[2..], a, b), a, b);
    } else if s != "" {
      ReplacedIsFree(s[1..], a, b);
      if s[1..] != "" {
        HeadOfReplaced(s[1..], a, b);
      }
      ConsIsWordFree(s[0], ReplaceWord(s[1..], a, b), a, b);
    }
  }

  lemma {:induction false} OtherWordStaysFree(s: string, a: char, b: char, p: char, q: char)
    requires p != ',' && q != ',' && WordFree(s, p, q)
    ensures WordFree(ReplaceWord(s, a, b), p, q)
    decreases |s|
  {
    if |s| >= 2 && s[0] == a && s[1] == b {
      TailIsWordFree(s, p, q);
      TailIsWordFree(s[1..], p, q);
      assert s[1..][1..] == s[2..];
      OtherWordStaysFree(s[2..], a, b, p, q);
      ConsIsWordFree(',', ReplaceWord(s[2..], a, b), p, q);
    } else if s != "" {
      TailIsWordFree(s, p, q);
      OtherWordStaysFree(s[1..], a, b, p, q);
      if s[1..] != "" {
        assert !(s[0] == p && s[0 + 1] == q);
        HeadOfReplaced(s[1..], a, b);
      }
      ConsIsWordFree(s[0], ReplaceWord(s[1..], a, b), p, q);
    }
  }

  /** No separator but the comma. */
  predicate OnlyCommas(s: string) {
    forall c :: c in s && Separates(c) ==> c == ','
  }

  lemma {:induction false} ReplacedHasOnlyCommas(s: string, a: char, b: char)
    requires OnlyCommas(s)
    ensures OnlyCommas(ReplaceWord(s, a, b))
    decreases |s|
  {
    if |s| >= 2 && s[0] == a && s[1] == b {
      ReplacedHasOnlyCommas(s[2..], a, b);
    } else if s != "" {
      assert s[0] in s;
      ReplacedHasOnlyCommas(s[1..], a, b);
    }
  }

  lemma NormalizedIsPlain(s: string)
    ensures OnlyCommas(Normalized(s)) && ConnectorFree(Normalized(s))
  {
    assert OnlyCommas(Commas(s));
    var first := ReplaceWord(Commas(s), TTO, NEUN);
    ReplacedHasOnlyCommas(Commas(s), TTO, NEUN);
    ReplacedIsFree(Commas(s), TTO, NEUN);
    ReplacedHasOnlyCommas(first, HOK, EUN);
    ReplacedIsFree(first, HOK, EUN);
    OtherWordStaysFree(first, HOK, EUN, TTO, NEUN);
  }

  lemma PlainIsNormalized(s: string)
    requires OnlyCommas(s) && ConnectorFree(s)
    ensures Normalized(s) == s
  {
    forall i | 0 <= i < |s| ensures Commas(s)[i] == s[i] {
      assert s[i] in s;
    }
    assert Commas(s) == s;
    ReplaceAbsentWord(s, TTO, NEUN);
    ReplaceAbsentWord(s, HOK, EUN);
  }

  // ---------------------------------------------------------------------------
  // Parts
  // ---------------------------------------------------------------------------

  /** A part of a split: no separators and no connecting words. */
  predicate PlainPart(s: string) {
    (forall c :: c in s ==> !Separates(c)) && ConnectorFree(s)
  }

  lemma PrefixIsWordFree(s: string, t: string, a: char, b: char)
    requires WordFree(s, a, b) && t <= s
    ensures WordFree(t, a, b)
  {
    forall i | 0 <= i < |t| - 1 ensures !(t[i] == a && t[i + 1] == b) {
      assert t[i] == s[i] && t[i + 1] == s[i + 1];
    }
  }

  lemma {:induction false} SplitPartsArePlain(s: string)
    requires OnlyCommas(s) && ConnectorFree(s)
    ensures forall part :: part in Split(s) ==> PlainPart(part)
    ensures Split(s)[0] <= s
  {
    if s != "" {
      TailIsWordFree(s, TTO, NEUN);
      TailIsWordFree(s, HOK, EUN);
      assert forall c :: c in s[1..] ==> c in s;
      SplitPartsArePlain(s[1..]);
      if s[0] != ',' {
        var rest := Split(s[1..]);
        var first := [s[0]] + rest[0];
        assert rest[0] in rest;
        assert first <= s by {
          assert s == [s[0]] + s[1..];
        }
        PrefixIsWordFree(s, first, TTO, NEUN);
        PrefixIsWordFree(s, first, HOK, EUN);
        assert s[0] in s;
      }
    }
  }

  lemma {:induction false} StrippedIsWordFree(s: string, a: char, b: char)
    requires WordFree(s, a, b)
    ensures WordFree(Strip(s), a, b)
  {
    if s != "" && IsSpace(s[0]) {
      TailIsWordFree(s, a, b);
      StrippedIsWordFree(s[1..], a, b);
    } else if s != "" && IsSpace(s[|s| - 1]) {
      PrefixIsWordFree(s, s[..|s| - 1], a, b);
      StrippedIsWordFree(s[..|s| - 1], a, b);
    }
  }

  // ---------------------------------------------------------------------------
  // Folding
  // ---------------------------------------------------------------------------

  lemma {:induction false} FoldedChars(s: string, fold: Folding, d: char)
    requires Folds(fold) && d in FoldText(s, fold)
    ensures fold(d) == [d]
    ensures exists c :: c in s && d in fold(c)
  {
    var front, last := s[..|s| - 1], s[|s| - 1];
    assert s == front + [last];
    if d in fold(last) {
      assert last in s;
    } else {
      FoldedChars(front, fold, d);
      var c :| c in front && d in fold(c);
      assert c in s;
    }
  }

  lemma {:induction false} FixedCharsFold(s: string, fold: Folding)
    requires forall i :: 0 <= i < |s| ==> fold(s[i]) == [s[i]]
    ensures FoldText(s, fold) == s
  {
    if s != "" {
      var front := s[..|s| - 1];
      assert forall i :: 0 <= i < |front| ==> front[i] == s[i];
      FixedCharsFold(front, fold);
      assert s == front + [s[|s| - 1]];
    }
  }

  lemma FoldTwice(s: string, fold: Folding)
    requires Folds(fold)
    ensures FoldText(FoldText(s, fold), fold) == FoldText(s, fold)
  {
    var folded := FoldText(s, fold);
    forall i | 0 <= i < |folded| ensures fold(folded[i]) == [folded[i]] {
      FoldedChars(s, fold, folded[i]);
    }
    FixedCharsFold(folded, fold);
  }

  lemma {:induction false} FoldedEnds(s: string, fold: Folding)
    requires Folds(fold) && s != ""
    ensures FoldText(s, fold) != ""
    ensures FoldText(s, fold)[0] in fold(s[0])
    ensures FoldText(s, fold)[|FoldText(s, fold)| - 1] in fold(s[|s| - 1])
  {
    var front := s[..|s| - 1];
    if front != "" {
      FoldedEnds(front, fold);
      assert front[0] == s[0];
    } else {
      assert FoldText(front, fold) == "";
    }
    assert fold(s[|s| - 1]) != "";
  }

  /** The structural characters of folded text are those of the text, in place. */
  lemma {:induction false} FoldedIsWordFree(s: string, fold: Folding, a: char, b: char)
    requires Folds(fold) && WordFree(s, a, b) && Structural(a) && Structural(b)
    ensures WordFree(FoldText(s, fold), a, b)
  {
    if s != "" {
      var front, last := s[..|s| - 1], s[|s| - 1];
      PrefixIsWordFree(s, front, a, b);
      FoldedIsWordFree(front, fold, a, b);
      FoldedCharIsWordFree(last, fold, a, b);
      if front != "" {
        FoldedEnds(front, fold);
        assert !(s[|s| - 2] == a && s[|s| - 2 + 1] == b);
        JoinedIsWordFree(FoldText(front, fold), fold(last), a, b);
      } else {
        assert FoldText(s, fold) == fold(last);
      }
    }
  }

  lemma FoldedCharIsWordFree(c: char, fold: Folding, a: char, b: char)
    requires Folds(fold) && Structural(a) && Structural(b)
    ensures WordFree(fold(c), a, b)
  {
    forall i | 0 <= i < |fold(c)| - 1 ensures !(fold(c)[i] == a && fold(c)[i + 1] == b) {
      if fold(c)[i] == a {
        StructuralFoldsAlone(c, a, fold);
      }
    }
  }

  lemma StructuralFoldsAlone(c: char, d: char, fold: Folding)
    requires Folds(fold) && Structural(d) && d in fold(c)
    ensures fold(c) == [d]
  {
    assert c == d;
  }

  lemma JoinedIsWordFree(s: string, t: string, a: char, b: char)
    requires WordFree(s, a, b) && WordFree(t, a, b) && s != "" && t != ""
    requires !(s[|s| - 1] == a && t[0] == b)
    ensures WordFree(s + t, a, b)
  {
    var u := s + t;
    forall i | 0 <= i < |u| - 1 ensures !(u[i] == a && u[i + 1] == b) {
      if i < |s| - 1 {
        assert u[i] == s[i] && u[i + 1] == s[i + 1];
      } else if i >= |s| {
        assert u[i] == t[i - |s|] && u[i + 1] == t[i - |s| + 1];
      }
    }
  }

  // ---------------------------------------------------------------------------
  // Alternatives
  // ---------------------------------------------------------------------------

  /** An alternative is not empty and nothing in the pipeline changes it. */
  ghost predicate Settled(item: string, fold: Folding) {
    && item != "" && PlainPart(item)
    && Strip(item) == item && FoldText(item, fold) == item
  }

  lemma FoldedHasNoSeparator(s: string, fold: Folding)
    requires Folds(fold) && forall c :: c in s ==> !Separates(c)
    ensures forall d :: d in FoldText(s, fold) ==> !Separates(d)
  {
    forall d | d in FoldText(s, fold) ensures !Separates(d) {
      FoldedChars(s, fold, d);
      var c :| c in s && d in fold(c);
      assert Structural(d) ==> c == d;
    }
  }

  lemma FoldingMakesNoSpace(fold: Folding, c: char, d: char)
    requires Folds(fold) && d in fold(c) && !IsSpace(c)
    ensures !IsSpace(d)
  {
    assert Structural(d) ==> d == c;
  }

  lemma FoldedIsStripped(s: string, fold: Folding)
    requires Folds(fold) && s != "" && !IsSpace(s[0]) && !IsSpace(s[|s| - 1])
    ensures FoldText(s, fold) != "" && Strip(FoldText(s, fold)) == FoldText(s, fold)
  {
    FoldedEnds(s, fold);
    var folded := FoldText(s, fold);
    FoldingMakesNoSpace(fold, s[0], folded[0]);
    FoldingMakesNoSpace(fold, s[|s| - 1], folded[|folded| - 1]);
    StripFixed(folded);
  }

  lemma ItemIsSettled(part: string, fold: Folding)
    requires Folds(fold) && PlainPart(part) && Strip(part) != ""
    ensures Settled(FoldText(Strip(part), fold), fold)
  {
    var s := Strip(part);
    StrippedIsWordFree(part, TTO, NEUN);
    StrippedIsWordFree(part, HOK, EUN);
    FoldedIsWordFree(s, fold, TTO, NEUN);
    FoldedIsWordFree(s, fold, HOK, EUN);
    FoldedHasNoSeparator(s, fold);
    FoldedIsStripped(s, fold);
    FoldTwice(s, fold);
  }

  lemma {:induction false} ItemsAreSettled(parts: seq<string>, fold: Folding)
    requires Folds(fold) && forall part :: part in parts ==> PlainPart(part)
    ensures forall item :: item in Items(parts, fold) ==> Settled(item, fold)
  {
    if parts != [] {
      assert parts[0] in parts;
      ItemsAreSettled(parts[1..], fold);
      if Strip(parts[0]) != "" {
        ItemIsSettled(parts[0], fold);
      }
    }
  }

  lemma AlternativesAreSettled(value: string, fold: Folding)
    requires Folds(fold)
    ensures forall item :: item in Alternatives(value, fold) ==> Settled(item, fold)
    ensures Ascending(Alternatives(value, fold))
  {
    NormalizedIsPlain(value);
    SplitPartsArePlain(Normalized(value));
    ItemsAreSettled(Split(Normalized(value)), fold);
  }

  // ---------------------------------------------------------------------------
  // Joining and splitting again
  // ---------------------------------------------------------------------------

  lemma {:induction false} SplitAtComma(x: string, rest: string)
    requires forall c :: c in x ==> c != ','
    ensures Split(x + "," + rest) == [x] + Split(rest)
  {
    var s := x + "," + rest;
    if x == "" {
      assert s[1..] == rest;
    } else {
      assert x[0] in x && forall c :: c in x[1..] ==> c in x;
      assert s[1..] == x[1..] + "," + rest;
      SplitAtComma(x[1..], rest);
      assert x == [x[0]] + x[1..];
    }
  }

  lemma {:induction false} SplitWhole(x: string)
    requires forall c :: c in x ==> c != ','
    ensures Split(x) == [x]
  {
    if x != "" {
      assert x[0] in x && forall c :: c in x[1..] ==> c in x;
      SplitWhole(x[1..]);
      assert x == [x[0]] + x[1..];
    }
  }

  lemma {:induction false} SplitJoined(list: seq<string>, fold: Folding)
    requires list != [] && forall item :: item in list ==> Settled(item, fold)
    ensures Split(Join(list)) == list
  {
    assert list[0] in list;
    assert forall c :: c in list[0] ==> c != ',';
    if |list| == 1 {
      SplitWhole(list[0]);
    } else {
      assert forall item :: item in list[1..] ==> item in list;
      SplitJoined(list[1..], fold);
      SplitAtComma(list[0], Join(list[1..]));
      assert list == [list[0]] + list[1..];
    }
  }

  lemma {:induction false} JoinedIsPlain(list: seq<string>, fold: Folding)
    requires list != [] && forall item :: item in list ==> Settled(item, fold)
    ensures Join(list) != "" && OnlyCommas(Join(list)) && ConnectorFree(Join(list))
    ensures Strip(Join(list)) == Join(list)
    ensures !IsSpace(Join(list)[0]) && !IsSpace(Join(list)[|Join(list)| - 1])
  {
    assert list[0] in list;
    if |list| > 1 {
      assert forall item :: item in list[1..] ==> item in list;
      JoinedIsPlain(list[1..], fold);
      var rest := Join(list[1..]);
      ConsIsWordFree(',', rest, TTO, NEUN);
      ConsIsWordFree(',', rest, HOK, EUN);
      JoinedIsWordFree(list[0], "," + rest, TTO, NEUN);
      JoinedIsWordFree(list[0], "," + rest, HOK, EUN);
      assert list[0] + "," + rest == list[0] + ("," + rest);
    }
    StripFixed(Join(list));
  }

  lemma {:induction false} SettledItemsStay(list: seq<string>, fold: Folding)
    requires forall item :: item in list ==> Settled(item, fold)
    ensures Items(list, fold) == list
  {
    if list != [] {
      assert list[0] in list;
      assert forall item :: item in list[1..] ==> item in list;
      SettledItemsStay(list[1..], fold);
      assert list == [list[0]] + list[1..];
    }
  }

  lemma {:induction false} AscendingStays(list: seq<string>)
    requires Ascending(list)
    ensures SortOnce(list) == list
  {
    if list != [] {
      var front, last := list[..|list| - 1], list[|list| - 1];
      AscendingStays(front);
      assert list == front + [last];
      LargestGoesLast(front, last);
    }
  }

  lemma LargestGoesLast(list: seq<string>, x: string)
    requires Ascending(list + [x])
    ensures Ascending(list) && InsertOnce(list, x) == list + [x]
  {
    assert forall i :: 0 <= i < |list| ==> (list + [x])[i] == list[i];
    if list != [] {
      assert (list + [x])[|list|] == x;
      assert Less(list[|list| - 1], x);
      LessIsStrict(list[|list| - 1], x);
    }
  }

  lemma {:induction false} LessIsStrict(a: string, b: string)
    requires Less(a, b)
    ensures a != b && !Less(b, a)
  {
    if a != "" && a[0] == b[0] {
      LessIsStrict(a[1..], b[1..]);
    }
  }

  /** Taking the alternatives of the joined alternatives gives the same ones, whatever the input was. */
  lemma AlternativesComeBack(value: string, fold: Folding)
    requires Folds(fold) && Alternatives(value, fold) != []
    ensures var joined := Join(Alternatives(value, fold));
            Strip(joined) == joined != "" && Alternatives(joined, fold) == Alternatives(value, fold)
  {
    var list := Alternatives(value, fold);
    AlternativesAreSettled(value, fold);
    JoinedIsPlain(list, fold);
    PlainIsNormalized(Join(list));
    SplitJoined(list, fold);
    SettledItemsStay(list, fold);
    AscendingStays(list);
  }

  // ---------------------------------------------------------------------------
  // Length
  // ---------------------------------------------------------------------------

  lemma {:induction false} WeightCons(x: string, list: seq<string>)
    ensures Weight([x] + list) == |x| + 1 + Weight(list)
  {
    if list == [] {
      assert [x] + list == [x];
      assert Weight([x][..0]) == 0;
    } else {
      var front, last := list[..|list| - 1], list[|list| - 1];
      WeightCons(x, front);
      assert ([x] + list)[..|list|] == [x] + front;
    }
  }

  lemma {:induction false} JoinedLength(list: seq<string>)
    requires list != []
    ensures |Join(list)| + 1 == Weight(list)
  {
    assert list == [list[0]] + list[1..];
    WeightCons(list[0], list[1..]);
    if |list| > 1 {
      JoinedLength(list[1..]);
    } else {
      assert list[1..] == [];
    }
  }

  lemma {:induction false} SplitWeight(s: string)
    ensures Weight(Split(s)) == |s| + 1
  {
    if s == "" {
      assert Split(s)[..0] == [];
    } else {
      SplitWeight(s[1..]);
      var rest := Split(s[1..]);
      if s[0] == ',' {
        WeightCons("", rest);
      } else {
        WeightCons([s[0]] + rest[0], rest[1..]);
        WeightCons(rest[0], rest[1..]);
        assert rest == [rest[0]] + rest[1..];
      }
    }
  }

  lemma {:induction false} FoldedLength(s: string, fold: Folding)
    requires LengthPreserving(fold)
    ensures |FoldText(s, fold)| == |s|
  {
    if s != "" {
      FoldedLength(s[..|s| - 1], fold);
    }
  }

  lemma {:induction false} ItemsWeight(parts: seq<string>, fold: Folding)
    requires LengthPreserving(fold)
    ensures Weight(Items(parts, fold)) <= Weight(parts)
  {
    if parts != [] {
      var item := Strip(parts[0]);
      ItemsWeight(parts[1..], fold);
      assert parts == [parts[0]] + parts[1..];
      WeightCons(parts[0], parts[1..]);
      if item == "" {
        assert [] + Items(parts[1..], fold) == Items(parts[1..], fold);
      } else {
        FoldedLength(item, fold);
        WeightCons(FoldText(item, fold), Items(parts[1..], fold));
      }
    }
  }

  lemma {:induction false} ReplacedLength(s: string, a: char, b: char)
    ensures |ReplaceWord(s, a, b)| <= |s|
    decreases |s|
  {
    if |s| >= 2 && s[0] == a && s[1] == b {
      ReplacedLength(s[2..], a, b);
    } else if s != "" {
      ReplacedLength(s[1..], a, b);
    }
  }

  /** With a folding that keeps lengths a canonical value is never longer than the value it came from. */
  lemma CanonicalIsNoLonger(value: string, fold: Folding)
    requires LengthPreserving(fold) && Alternatives(value, fold) != []
    ensures |Join(Alternatives(value, fold))| <= |value|
  {
    var first := ReplaceWord(Commas(value), TTO, NEUN);
    ReplacedLength(Commas(value), TTO, NEUN);
    ReplacedLength(first, HOK, EUN);
    SplitWeight(Normalized(value));
    ItemsWeight(Split(Normalized(value)), fold);
    JoinedLength(Alternatives(value, fold));
  }
}
