/** Recursive compaction of audience evidence: nulls, blank text and empty containers are dropped. */
module ContentBrief {
  import opened JsonValues
  import opened Text

  // ---------------------------------------------------------------------------
  // Compaction
  // ---------------------------------------------------------------------------

  /** A null, a blank string or an empty container. */
  predicate Empty(j: Json) {
    match j
    case Null => true
    case Str(text) => Blank(text)
    case Arr(items) => items == []
    case Obj(fields) => fields == []
    case _ => false
  }

  function Compact(j: Json): Json {
    match j
    case Arr(items) => Arr(CompactItems(items))
    case Obj(fields) => Obj(CompactFields(fields))
    case _ => j
  }

  function CompactItems(items: seq<Json>): seq<Json> {
    if items == [] then []
    else
      var first := Compact(items[0]);
      (if Empty(first) then [] else [first]) + CompactItems(items[1..])
  }

  function CompactFields(fields: seq<Field>): seq<Field> {
    if fields == [] then []
    else
      var field := fields[0];
      var value := Compact(field.value);
      (if Empty(value) then [] else [Field(field.key, value)]) + CompactFields(fields[1..])
  }

  /** What one item contributes to a compacted container: its compaction, or nothing. */
  function Kept(item: Json): seq<Json> {
    if Empty(Compact(item)) then [] else [Compact(item)]
  }

  /** `_compact_sequence`. */
  method CompactSequence(value: seq<Json>) returns (compact: seq<Json>)
    ensures compact == CompactItems(value)
    decreases value, 1
  {
    compact := [];
    for i := 0 to |value|
      invariant compact + CompactItems(value[i..]) == CompactItems(value)
    {
      var kept := CompactItem(value[i]);
      NextItem(value, compact, i);
      compact := compact + kept;
    }
    assert value[|value|..] == [];
  }

  /** One turn of either loop: nulls, blank strings and what compacts to nothing are skipped. */
  method CompactItem(item: Json) returns (kept: seq<Json>)
    ensures kept == Kept(item)
    decreases item, 0
  {
    kept := [];
    match item {
      case Null =>
      case Obj(fields) =>
        var nestedMapping := CompactEmpty(fields);
        if nestedMapping != [] {
          kept := [Obj(nestedMapping)];
        }
      case Arr(items) =>
        var nestedSequence := CompactSequence(items);
        if nestedSequence != [] {
          kept := [Arr(nestedSequence)];
        }
      case Str(text) =>
        if !Blank(text) {
          kept := [item];
        }
      case _ =>
        kept := [item];
    }
  }

  lemma NextItem(value: seq<Json>, compact: seq<Json>, i: nat)
    requires i < |value|
    ensures (compact + Kept(value[i]) + CompactItems(value[i + 1..])
             == compact + CompactItems(value[i..]))
  {
    assert value[i..][1..] == value[i + 1..];
  }

  /** `_compact_empty`. */
  method CompactEmpty(value: seq<Field>) returns (compact: seq<Field>)
    ensures compact == CompactFields(value)
    decreases value, 1
  {
    compact := [];
    for i := 0 to |value|
      invariant compact + CompactFields(value[i..]) == CompactFields(value)
    {
      var kept := CompactItem(value[i].value);
      NextField(value, compact, i);
      if kept != [] {
        compact := compact + [Field(value[i].key, kept[0])];
      }
    }
    assert value[|value|..] == [];
  }

  lemma NextField(value: seq<Field>, compact: seq<Field>, i: nat)
    requires i < |value|
    ensures (compact + (if Kept(value[i].value) == [] then [] else [Field(value[i].key, Kept(value[i].value)[0])])
             + CompactFields(value[i + 1..]) == compact + CompactFields(value[i..]))
  {
    assert value[i..][1..] == value[i + 1..];
  }

  /** No null, blank string or empty container anywhere below the top. */
  predicate Clean(j: Json) {
    match j
    case Arr(items) => forall i :: 0 <= i < |items| ==> !Empty(items[i]) && Clean(items[i])
    case Obj(fields) => forall i :: 0 <= i < |fields| ==> !Empty(fields[i].value) && Clean(fields[i].value)
    case _ => true
  }

  lemma {:induction false} CompactIsClean(j: Json)
    ensures Clean(Compact(j))
    decreases j
  {
    match j {
      case Arr(items) => ItemsAreClean(items);
      case Obj(fields) => FieldsAreClean(fields);
      case _ =>
    }
  }

  lemma {:induction false} ItemsAreClean(items: seq<Json>)
    ensures Clean(Arr(CompactItems(items)))
    decreases items
  {
    if items != [] {
      CompactIsClean(items[0]);
      ItemsAreClean(items[1..]);
    }
  }

  lemma {:induction false} FieldsAreClean(fields: seq<Field>)
    ensures Clean(Obj(CompactFields(fields)))
    decreases fields
  {
    if fields != [] {
      CompactIsClean(fields[0].value);
      FieldsAreClean(fields[1..]);
    }
  }

  /** Clean values are fixed points, so compaction is idempotent. */
  lemma {:induction false} CleanIsFixed(j: Json)
    requires Clean(j)
    ensures Compact(j) == j
    decreases j
  {
    match j {
      case Arr(items) => CleanItemsFixed(items);
      case Obj(fields) => CleanFieldsFixed(fields);
      case _ =>
    }
  }

  lemma {:induction false} CleanItemsFixed(items: seq<Json>)
    requires Clean(Arr(items))
    ensures CompactItems(items) == items
    decreases items
  {
    if items != [] {
      CleanIsFixed(items[0]);
      CleanItemsFixed(items[1..]);
    }
  }

  lemma {:induction false} CleanFieldsFixed(fields: seq<Field>)
    requires Clean(Obj(fields))
    ensures CompactFields(fields) == fields
    decreases fields
  {
    if fields != [] {
      CleanIsFixed(fields[0].value);
      CleanFieldsFixed(fields[1..]);
    }
  }

  /** Compaction leaves no empty value at any depth and is idempotent. */
  lemma CompactionIsIdempotent(j: Json)
    ensures Clean(Compact(j)) && Compact(Compact(j)) == Compact(j)
  {
    CompactIsClean(j);
    CleanIsFixed(Compact(j));
  }

  /** The scalars of a value that are not empty, in reading order. */
  function Leaves(j: Json): seq<Json> {
    match j
    case Arr(items) => ItemLeaves(items)
    case Obj(fields) => FieldLeaves(fields)
    case _ => if Empty(j) then [] else [j]
  }

  function ItemLeaves(items: seq<Json>): seq<Json> {
    if items == [] then [] else Leaves(items[0]) + ItemLeaves(items[1..])
  }

  function FieldLeaves(fields: seq<Field>): seq<Json> {
    if fields == [] then [] else Leaves(fields[0].value) + FieldLeaves(fields[1..])
  }

  /** And it loses nothing: every scalar worth keeping is still there, in the same order. */
  lemma {:induction false} CompactionKeepsLeaves(j: Json)
    ensures Leaves(Compact(j)) == Leaves(j)
    decreases j
  {
    match j {
      case Arr(items) => ItemLeavesKept(items);
      case Obj(fields) => FieldLeavesKept(fields);
      case _ =>
    }
  }

  lemma EmptyHasNoLeaves(j: Json)
    requires Empty(j)
    ensures Leaves(j) == []
  {
  }

  lemma ItemLeavesAfter(first: Json, rest: seq<Json>)
    ensures ItemLeaves((if Empty(first) then [] else [first]) + rest) == Leaves(first) + ItemLeaves(rest)
  {
    if Empty(first) {
      EmptyHasNoLeaves(first);
      assert [] + rest == rest;
    } else {
      assert ([first] + rest)[1..] == rest;
    }
  }

  lemma FieldLeavesAfter(key: string, first: Json, rest: seq<Field>)
    ensures (FieldLeaves((if Empty(first) then [] else [Field(key, first)]) + rest)
             == Leaves(first) + FieldLeaves(rest))
  {
    if Empty(first) {
      EmptyHasNoLeaves(first);
      assert [] + rest == rest;
    } else {
      assert ([Field(key, first)] + rest)[1..] == rest;
    }
  }

  lemma {:induction false} ItemLeavesKept(items: seq<Json>)
    ensures ItemLeaves(CompactItems(items)) == ItemLeaves(items)
    decreases items
  {
    if items != [] {
      CompactionKeepsLeaves(items[0]);
      ItemLeavesKept(items[1..]);
      ItemLeavesAfter(Compact(items[0]), CompactItems(items[1..]));
    }
  }

  lemma {:induction false} FieldLeavesKept(fields: seq<Field>)
    ensures FieldLeaves(CompactFields(fields)) == FieldLeaves(fields)
    decreases fields
  {
    if fields != [] {
      CompactionKeepsLeaves(fields[0].value);
      FieldLeavesKept(fields[1..]);
      FieldLeavesAfter(fields[0].key, Compact(fields[0].value), CompactFields(fields[1..]));
    }
  }
}
