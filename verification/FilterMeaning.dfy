/**
 What trimming and splitting mean: the white characters, the trimmed text, and that the alternatives
 of a text are those of its parts at every separator, down to parts that have none.
 */
module FilterMeaning {
  import opened Text
  import opened FilterValues
  import opened FilterTheorems

  // ---------------------------------------------------------------------------
  // Trimming
  // ---------------------------------------------------------------------------

  const WHITE: set<int> := {
    0x09, 0x0a, 0x0b, 0x0c, 0x0d, 0x1c, 0x1d, 0x1e, 0x1f, 0x20, 0x85, 0xa0, 0x1680,
    0x2000, 0x2001, 0x2002, 0x2003, 0x2004, 0x2005, 0x2006, 0x2007, 0x2008, 0x2009, 0x200a,
    0x2028, 0x2029, 0x202f, 0x205f, 0x3000
  }

  predicate AllWhite(s: string) {
    forall c :: c in s ==> c as int in WHITE
  }

  predicate Pads(t: string, a: string, v: string, b: string) {
    t == a + v + b && AllWhite(a) && AllWhite(b)
  }

  /** `v` is `t` without the white characters at its ends. */
  ghost predicate Trims(t: string, v: string) {
    && (exists a, b :: Pads(t, a, v, b))
    && (v != "" ==> v[0] as int !in WHITE && v[|v| - 1] as int !in WHITE)
  }

  lemma WhiteIff(c: char)
    ensures IsSpace(c) <==> c as int in WHITE
  {
  }

  lemma PadsHead(t: string, a: string, v: string, b: string)
    requires t != "" && t[0] as int in WHITE && Pads(t[1..], a, v, b)
    ensures Pads(t, [t[0]] + a, v, b)
  {
    assert t == [t[0]] + t[1..];
    assert ([t[0]] + a) + v + b == [t[0]] + (a + v + b);
  }

  lemma PadsLast(t: string, a: string, v: string, b: string)
    requires t != "" && t[|t| - 1] as int in WHITE && Pads(t[..|t| - 1], a, v, b)
    ensures Pads(t, a, v, b + [t[|t| - 1]])
  {
    var last := [t[|t| - 1]];
    assert t == t[..|t| - 1] + last;
    assert a + v + (b + last) == (a + v + b) + last;
  }

  lemma {:induction false} StripTrims(t: string)
    ensures Trims(t, Strip(t))
  {
    if t != "" && IsSpace(t[0]) {
      WhiteIff(t[0]);
      StripTrims(t[1..]);
      var a, b :| Pads(t[1..], a, Strip(t), b);
      PadsHead(t, a, Strip(t), b);
    } else if t != "" && IsSpace(t[|t| - 1]) {
      WhiteIff(t[|t| - 1]);
      StripTrims(t[..|t| - 1]);
      var a, b :| Pads(t[..|t| - 1], a, Strip(t), b);
      PadsLast(t, a, Strip(t), b);
    } else {
      if t != "" {
        WhiteIff(t[0]);
        WhiteIff(t[|t| - 1]);
      }
      assert t == "" + t + "";
      assert Pads(t, "", t, "");
    }
  }

  lemma {:induction false} StripOfPadded(a: string, v: string, b: string)
    requires AllWhite(a) && AllWhite(b)
    requires v != "" ==> v[0] as int !in WHITE && v[|v| - 1] as int !in WHITE
    ensures Strip(a + v + b) == v
    decreases |a| + |b|
  {
    var t := a + v + b;
    if a != "" {
      assert a[0] in a;
      WhiteIff(a[0]);
      assert t[1..] == a[1..] + v + b;
      assert forall c :: c in a[1..] ==> c in a;
      StripOfPadded(a[1..], v, b);
    } else if b != "" {
      PaddedBehind(v, b);
    } else {
      assert t == v;
      if v != "" {
        WhiteIff(v[0]);
        WhiteIff(v[|v| - 1]);
      }
      StripFixed(v);
    }
  }

  lemma {:induction false} PaddedBehind(v: string, b: string)
    requires AllWhite(b)
    requires v != "" ==> v[0] as int !in WHITE && v[|v| - 1] as int !in WHITE
    ensures Strip("" + v + b) == v
  {
    if v == "" {
      forall c | c in b ensures IsSpace(c) {
        WhiteIff(c);
      }
      BlankIff(b);
      assert "" + v + b == b;
    } else {
      WhiteIff(v[0]);
      WhiteIff(v[|v| - 1]);
      StripBehind(v, b);
      assert "" + v + b == v + b;
    }
  }

  lemma {:induction false} StripBehind(v: string, b: string)
    requires v != "" && !IsSpace(v[0]) && !IsSpace(v[|v| - 1]) && AllWhite(b)
    ensures Strip(v + b) == v
  {
    var t := v + b;
    if b == "" {
      assert t == v;
      StripFixed(v);
    } else {
      var fewer := b[..|b| - 1];
      assert forall c :: c in fewer ==> c in b;
      assert b[|b| - 1] in b;
      WhiteIff(b[|b| - 1]);
      assert t[0] == v[0] && t[|t| - 1] == b[|b| - 1] && t[..|t| - 1] == v + fewer;
      StripBehind(v, fewer);
    }
  }

  /** Trimming gives exactly that text. */
  lemma StripIff(t: string, v: string)
    ensures Strip(t) == v <==> Trims(t, v)
  {
    StripTrims(t);
    if Trims(t, v) {
      var a, b :| Pads(t, a, v, b);
      StripOfPadded(a, v, b);
    }
  }

  // ---------------------------------------------------------------------------
  // Separators
  // ---------------------------------------------------------------------------

  /** The four separators and the two connecting words. */
  const SEPARATORS: set<string> := {",", "，", "/", "·", "또는", "혹은"}

  lemma NoWordAtHead(s: string, a: char, b: char)
    requires s != "" && !(|s| >= 2 && s[0] == a && s[1] == b)
    ensures ReplaceWord(s, a, b) == [s[0]] + ReplaceWord(s[1..], a, b)
  {
  }

  lemma {:induction false} ReplaceAround(x: string, m: string, y: string, a: char, b: char)
    requires m != "" && m[0] != b && m[|m| - 1] != a && WordFree(m, a, b)
    ensures ReplaceWord(x + m + y, a, b) == ReplaceWord(x, a, b) + m + ReplaceWord(y, a, b)
    decreases |x|
  {
    var s := x + m + y;
    if x == "" {
      assert s == m + y;
      ReplaceBehind(m, y, a, b);
    } else if |x| >= 2 && x[0] == a && x[1] == b {
      assert s[2..] == x[2..] + m + y;
      ReplaceAround(x[2..], m, y, a, b);
    } else {
      assert s[1..] == x[1..] + m + y;
      assert s[0] == x[0] && (|x| >= 2 ==> s[1] == x[1]) && (|x| == 1 ==> s[1] == m[0]);
      NoWordAtHead(s, a, b);
      NoWordAtHead(x, a, b);
      ReplaceAround(x[1..], m, y, a, b);
      Regroup([x[0]], ReplaceWord(x[1..], a, b), m, ReplaceWord(y, a, b));
    }
  }

  lemma Regroup(p: string, q: string, r: string, t: string)
    ensures p + (q + r + t) == (p + q) + r + t
  {
  }

  lemma {:induction false} ReplaceBehind(m: string, y: string, a: char, b: char)
    requires m != "" ==> m[|m| - 1] != a
    requires WordFree(m, a, b)
    ensures ReplaceWord(m + y, a, b) == m + ReplaceWord(y, a, b)
  {
    var s := m + y;
    if m == "" {
      assert s == y;
    } else {
      assert s[1..] == m[1..] + y && m == [m[0]] + m[1..];
      TailIsWordFree(m, a, b);
      if |m| >= 2 {
        assert !(m[0] == a && m[0 + 1] == b);
      }
      ReplaceBehind(m[1..], y, a, b);
    }
  }

  lemma {:induction false} ReplaceTheWord(x: string, y: string, a: char, b: char)
    requires a != b
    ensures ReplaceWord(x + [a, b] + y, a, b) == ReplaceWord(x, a, b) + "," + ReplaceWord(y, a, b)
    decreases |x|
  {
    var s := x + [a, b] + y;
    if x == "" {
      assert s[0] == a && s[1] == b && s[2..] == y;
    } else if |x| >= 2 && x[0] == a && x[1] == b {
      assert s[2..] == x[2..] + [a, b] + y;
      ReplaceTheWord(x[2..], y, a, b);
    } else {
      assert s[1..] == x[1..] + [a, b] + y;
      assert s[0] == x[0] && (|x| >= 2 ==> s[1] == x[1]) && (|x| == 1 ==> s[1] == a);
      ReplaceTheWord(x[1..], y, a, b);
    }
  }

  lemma CommasAround(x: string, w: string, y: string)
    ensures Commas(x + w + y) == Commas(x) + Commas(w) + Commas(y)
  {
  }

  lemma WordsSpelled()
    ensures "또는" == [TTO, NEUN] && "혹은" == [HOK, EUN]
    ensures "，" == [FULLWIDTH_COMMA] && "·" == [MIDDLE_DOT]
  {
  }

  /** A separator normalises to a comma wherever it stands. */
  lemma NormalizedAround(x: string, w: string, y: string)
    requires w in SEPARATORS
    ensures Normalized(x + w + y) == Normalized(x) + "," + Normalized(y)
  {
    WordsSpelled();
    CommasAround(x, w, y);
    var cx, cy := Commas(x), Commas(y);
    if w == "또는" {
      assert Commas(w) == [TTO, NEUN];
      ReplaceTheWord(cx, cy, TTO, NEUN);
      ReplaceAround(ReplaceWord(cx, TTO, NEUN), ",", ReplaceWord(cy, TTO, NEUN), HOK, EUN);
    } else if w == "혹은" {
      assert Commas(w) == [HOK, EUN];
      ReplaceAround(cx, [HOK, EUN], cy, TTO, NEUN);
      ReplaceTheWord(ReplaceWord(cx, TTO, NEUN), ReplaceWord(cy, TTO, NEUN), HOK, EUN);
    } else {
      assert Commas(w) == ",";
      ReplaceAround(cx, ",", cy, TTO, NEUN);
      ReplaceAround(ReplaceWord(cx, TTO, NEUN), ",", ReplaceWord(cy, TTO, NEUN), HOK, EUN);
    }
  }

  lemma {:induction false} SplitAround(x: string, y: string)
    ensures Split(x + "," + y) == Split(x) + Split(y)
  {
    var s := x + "," + y;
    if x == "" {
      assert s[1..] == y;
    } else {
      assert s[1..] == x[1..] + "," + y;
      SplitAround(x[1..], y);
    }
  }

  lemma {:induction false} ItemsOfBoth(p: seq<string>, q: seq<string>, fold: Folding)
    ensures Items(p + q, fold) == Items(p, fold) + Items(q, fold)
  {
    if p == [] {
      assert p + q == q;
    } else {
      assert (p + q)[1..] == p[1..] + q;
      ItemsOfBoth(p[1..], q, fold);
    }
  }

  /** The alternatives on both sides of a separator are the alternatives of the whole. */
  lemma AlternativesAround(x: string, w: string, y: string, fold: Folding)
    requires w in SEPARATORS
    ensures forall v :: v in Alternatives(x + w + y, fold)
                        <==> v in Alternatives(x, fold) || v in Alternatives(y, fold)
  {
    NormalizedAround(x, w, y);
    SplitAround(Normalized(x), Normalized(y));
    ItemsOfBoth(Split(Normalized(x)), Split(Normalized(y)), fold);
  }

  /** Text in which no separator occurs. */
  ghost predicate Unseparated(t: string) {
    forall x, w, y :: w in SEPARATORS ==> t != x + w + y
  }

  lemma UnseparatedIsPlain(t: string)
    requires Unseparated(t)
    ensures OnlyCommas(t) && ConnectorFree(t) && forall c :: c in t ==> c != ','
  {
    WordsSpelled();
    forall i | 0 <= i < |t|
      ensures !Separates(t[i])
    {
      assert t == t[..i] + [t[i]] + t[i + 1..];
      assert [t[i]] !in SEPARATORS;
    }
    forall i | 0 <= i < |t| - 1
      ensures [t[i], t[i + 1]] !in SEPARATORS
    {
      assert t == t[..i] + [t[i], t[i + 1]] + t[i + 2..];
    }
  }

  /** And a part without one is a single alternative, trimmed and folded, or none if it is blank. */
  lemma AlternativesOfPart(t: string, v: string, fold: Folding)
    requires Unseparated(t) && Trims(t, v)
    ensures Alternatives(t, fold) == if v == "" then [] else [FoldText(v, fold)]
  {
    StripIff(t, v);
    UnseparatedIsPlain(t);
    PlainIsNormalized(t);
    SplitWhole(t);
    assert Items([t], fold) == (if v == "" then [] else [FoldText(v, fold)]) + Items([], fold);
    if v != "" {
      SortedAlone(FoldText(v, fold));
    }
  }

  lemma SortedAlone(v: string)
    ensures SortOnce([v]) == [v]
  {
    assert [v][..0] == [];
  }
}
