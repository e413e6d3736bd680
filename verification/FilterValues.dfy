/**
 The canonical value of an `in` filter: split at separators and connecting words, trim, fold case,
 drop repetitions, sort and join with commas. `str.casefold` is a parameter that works character
 by character.
 */
module FilterValues {
  import opened Text

  const FULLWIDTH_COMMA := '\U{FF0C}'
  const MIDDLE_DOT := '\U{00B7}'
  /** The two syllables of each of the two connecting words. */
  const TTO := '\U{B610}'
  const NEUN := '\U{B294}'
  const HOK := '\U{D639}'
  const EUN := '\U{C740}'

  predicate Separates(c: char) {
    c == ',' || c == FULLWIDTH_COMMA || c == '/' || c == MIDDLE_DOT
  }

  /** The characters that splitting and trimming look at. */
  predicate Structural(c: char) {
    Separates(c) || IsSpace(c) || c == TTO || c == NEUN || c == HOK || c == EUN
  }

  type Folding = char -> string

  /** Folding is idempotent, erases nothing, and neither changes nor makes a structural character. */
  ghost predicate Folds(fold: Folding) {
    && (forall c :: fold(c) != "")
    && (forall c, d :: d in fold(c) ==> fold(d) == [d])
    && (forall c, d :: d in fold(c) && (Structural(c) || Structural(d)) ==> c == d)
  }

  ghost predicate LengthPreserving(fold: Folding) {
    forall c :: |fold(c)| == 1
  }

  function FoldText(s: string, fold: Folding): string {
    if s == "" then "" else FoldText(s[..|s| - 1], fold) + fold(s[|s| - 1])
  }

  function Commas(s: string): string {
    seq(|s|, i requires 0 <= i < |s| => if Separates(s[i]) then ',' else s[i])
  }

  /** `str.replace` of a two-character word by a comma. */
  function ReplaceWord(s: string, a: char, b: char): string {
    if |s| >= 2 && s[0] == a && s[1] == b then "," + ReplaceWord(s[2..], a, b)
    else if s == "" then ""
    else [s[0]] + ReplaceWord(s[1..], a, b)
  }

  function Normalized(s: string): string {
    ReplaceWord(ReplaceWord(Commas(s), TTO, NEUN), HOK, EUN)
  }

  /** `str.split(",")`. */
  function Split(s: string): (r: seq<string>)
    ensures r != []
  {
    if s == "" then [""]
    else if s[0] == ',' then [""] + Split(s[1..])
    else
      var rest := Split(s[1..]);
      [[s[0]] + rest[0]] + rest[1..]
  }

  function Items(parts: seq<string>, fold: Folding): seq<string> {
    if parts == [] then []
    else
      var item := Strip(parts[0]);
      (if item == "" then [] else [FoldText(item, fold)]) + Items(parts[1..], fold)
  }

  /** Order by code points. */
  predicate Less(a: string, b: string) {
    if b == "" then false
    else if a == "" then true
    else if a[0] != b[0] then a[0] < b[0]
    else Less(a[1..], b[1..])
  }

  lemma {:induction false} LessIsTotal(a: string, b: string)
    ensures a == b || Less(a, b) || Less(b, a)
  {
    if a != "" && b != "" && a[0] == b[0] {
      LessIsTotal(a[1..], b[1..]);
      assert a == [a[0]] + a[1..] && b == [b[0]] + b[1..];
    }
  }

  lemma {:induction false} LessIsTransitive(a: string, b: string, c: string)
    requires Less(a, b) && Less(b, c)
    ensures Less(a, c)
  {
    if a != "" && a[0] == b[0] == c[0] {
      LessIsTransitive(a[1..], b[1..], c[1..]);
    }
  }

  predicate Ascending(list: seq<string>) {
    forall i, j :: 0 <= i < j < |list| ==> Less(list[i], list[j])
  }

  function Weight(list: seq<string>): nat {
    if list == [] then 0 else Weight(list[..|list| - 1]) + |list[|list| - 1]| + 1
  }

  function InsertOnce(list: seq<string>, x: string): (r: seq<string>)
    requires Ascending(list)
    ensures Ascending(r)
    ensures forall y :: y in r <==> y in list || y == x
    ensures Weight(r) <= Weight(list) + |x| + 1
  {
    if list == [] then [x]
    else
      var front, last := list[..|list| - 1], list[|list| - 1];
      assert list == front + [last];
      if x == last then list
      else if Less(last, x) then
        (assert (list + [x])[..|list|] == list;
        AppendAscending(list, x))
      else
        (LessIsTotal(x, last);
        var r := InsertOnce(front, x);
        assert (r + [last])[..|r|] == r;
        AppendAscending(r, last))
  }

  function AppendAscending(list: seq<string>, x: string): (r: seq<string>)
    requires Ascending(list) && (list != [] ==> Less(list[|list| - 1], x))
    ensures r == list + [x] && Ascending(r)
  {
    assert forall i :: 0 <= i < |list| ==> Less(list[i], x) by {
      forall i | 0 <= i < |list| ensures Less(list[i], x) {
        if i < |list| - 1 {
          LessIsTransitive(list[i], list[|list| - 1], x);
        }
      }
    }
    list + [x]
  }

  function SortOnce(list: seq<string>): (r: seq<string>)
    ensures Ascending(r)
    ensures forall y :: y in r <==> y in list
    ensures Weight(r) <= Weight(list)
  {
    if list == [] then []
    else
      assert list == list[..|list| - 1] + [list[|list| - 1]];
      InsertOnce(SortOnce(list[..|list| - 1]), list[|list| - 1])
  }

  function Join(list: seq<string>): string {
    if list == [] then ""
    else if |list| == 1 then list[0]
    else list[0] + "," + Join(list[1..])
  }

  /** `_canonical_property_filter_values`. */
  function Alternatives(value: string, fold: Folding): seq<string> {
    SortOnce(Items(Split(Normalized(value)), fold))
  }
}
