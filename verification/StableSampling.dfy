/**
 The bounded stable sampler: it keeps, of all keys ever added, the `limit` keys of smallest stable
 score, each with the value it was first added with. The stable score is a hash of the key; it is
 a parameter, assumed injective on keys.
 */
module StableSampling {
  import opened Wrappers
  import opened StableHeap
  import opened Sorting
  import opened SetSizes

  ghost predicate Injective(score: string -> int) {
    forall x: string, y: string :: score(x) == score(y) ==> x == y
  }

  // ---------------------------------------------------------------------------
  // What is to be kept
  // ---------------------------------------------------------------------------

  /** The value each key was first added with. */
  function FirstValues<T>(history: seq<(string, T)>): map<string, T> {
    if history == [] then map[]
    else
      var (key, value) := history[|history| - 1];
      AddFirst(FirstValues(history[..|history| - 1]), key, value)
  }

  function AddFirst<T>(values: map<string, T>, key: string, value: T): map<string, T> {
    if key in values then values else values[key := value]
  }

  lemma HistoryGrows<T>(history: seq<(string, T)>, key: string, value: T)
    ensures FirstValues(history + [(key, value)]) == AddFirst(FirstValues(history), key, value)
  {
    assert (history + [(key, value)])[..|history|] == history;
  }

  /** The keys of `seen` that score below `key`. */
  function Below(seen: set<string>, key: string, score: string -> int): set<string> {
    set x | x in seen && score(x) < score(key)
  }

  /** `kept` are the `limit` least keys of `seen`, or all of them when there are not so many. */
  ghost predicate Least(kept: set<string>, seen: set<string>, limit: nat, score: string -> int) {
    && kept <= seen && |kept| <= limit
    && (kept != seen ==> |kept| == limit)
    && forall k, x :: k in kept && x in seen - kept ==> score(k) < score(x)
  }

  /** A key is kept exactly when fewer than `limit` of the keys seen score below it. */
  lemma KeptIffFewBelow(kept: set<string>, seen: set<string>, limit: nat, score: string -> int, key: string)
    requires Least(kept, seen, limit, score) && Injective(score) && key in seen
    ensures key in kept <==> |Below(seen, key, score)| < limit
  {
    var below := Below(seen, key, score);
    if key in kept {
      assert below <= kept - {key};
      SubsetSize(below, kept - {key});
    } else {
      assert kept <= below;
      SubsetSize(kept, below);
    }
  }

  /** The kept keys depend only on the set of keys seen, not on the order they arrived in. */
  lemma KeptIsUnique(a: set<string>, b: set<string>, seen: set<string>, limit: nat, score: string -> int)
    requires Least(a, seen, limit, score) && Least(b, seen, limit, score) && Injective(score)
    ensures a == b
  {
    forall key | key in seen ensures key in a <==> key in b {
      KeptIffFewBelow(a, seen, limit, score, key);
      KeptIffFewBelow(b, seen, limit, score, key);
    }
  }

  /** A key once seen and not kept is never kept again, whatever is added later. */
  lemma NeverReenters(kept: set<string>, seen: set<string>, keptLater: set<string>, seenLater: set<string>,
                      limit: nat, score: string -> int, key: string)
    requires Least(kept, seen, limit, score) && Least(keptLater, seenLater, limit, score)
    requires Injective(score) && seen <= seenLater
    requires key in seen && key !in kept
    ensures key !in keptLater
  {
    KeptIffFewBelow(kept, seen, limit, score, key);
    KeptIffFewBelow(keptLater, seenLater, limit, score, key);
    SubsetSize(Below(seen, key, score), Below(seenLater, key, score));
  }

  // ---------------------------------------------------------------------------
  // How one more key changes it
  // ---------------------------------------------------------------------------

  lemma NewKeyFits(kept: set<string>, seen: set<string>, limit: nat, score: string -> int, key: string)
    requires Least(kept, seen, limit, score) && key !in seen && |kept| < limit
    ensures Least(kept + {key}, seen + {key}, limit, score)
  {
  }

  lemma NewKeyTooLarge(kept: set<string>, seen: set<string>, limit: nat, score: string -> int,
                       worst: string, key: string)
    requires Least(kept, seen, limit, score) && Injective(score) && key !in seen && |kept| == limit
    requires worst in kept && (forall k :: k in kept ==> score(k) <= score(worst))
    requires score(key) >= score(worst)
    ensures Least(kept, seen + {key}, limit, score)
  {
  }

  lemma NewKeyReplaces(kept: set<string>, seen: set<string>, limit: nat, score: string -> int,
                       worst: string, key: string)
    requires Least(kept, seen, limit, score) && Injective(score) && key !in seen && |kept| == limit
    requires worst in kept && (forall k :: k in kept ==> score(k) <= score(worst))
    requires score(key) < score(worst)
    ensures Least(kept - {worst} + {key}, seen + {key}, limit, score)
  {
    var after := kept - {worst} + {key};
    forall k, x | k in after && x in seen + {key} - after ensures score(k) < score(x) {
      if x == worst && k != key {
        assert score(k) != score(worst);
      }
    }
  }

  /** A key that beats the worst kept key cannot have been seen and dropped before. */
  lemma NotSeenBefore(kept: set<string>, seen: set<string>, limit: nat, score: string -> int,
                      worst: string, key: string)
    requires Least(kept, seen, limit, score) && key !in kept && worst in kept
    requires score(key) < score(worst)
    ensures key !in seen
  {
  }

  // ---------------------------------------------------------------------------
  // The sampler
  // ---------------------------------------------------------------------------

  /** The entries of `keys`, whose values come from `values`. */
  ghost function EntriesOf<T(!new)>(keys: set<string>, values: map<string, T>, score: string -> int): set<Entry<T>>
    requires keys <= values.Keys
  {
    set k | k in keys :: Entry(score(k), k, values[k])
  }

  lemma NewEntry<T(!new)>(keys: set<string>, values: map<string, T>, key: string, value: T,
                          score: string -> int)
    requires keys <= values.Keys && key !in values
    ensures Entry(score(key), key, value) !in EntriesOf(keys, values, score)
    ensures (EntriesOf(keys + {key}, values[key := value], score)
             == EntriesOf(keys, values, score) + {Entry(score(key), key, value)})
  {
  }

  lemma SwappedEntry<T(!new)>(keys: set<string>, values: map<string, T>, worst: string, key: string,
                              value: T, score: string -> int)
    requires keys <= values.Keys && key !in values && worst in keys
    ensures Entry(score(key), key, value) !in EntriesOf(keys, values, score)
    ensures (EntriesOf(keys - {worst} + {key}, values[key := value], score)
             == EntriesOf(keys, values, score) - {Entry(score(worst), worst, values[worst])}
                + {Entry(score(key), key, value)})
  {
  }

  lemma SameEntries<T(!new)>(keys: set<string>, values: map<string, T>, key: string, value: T,
                             score: string -> int)
    requires keys <= values.Keys
    ensures EntriesOf(keys, AddFirst(values, key, value), score) == EntriesOf(keys, values, score)
  {
  }

  lemma RootIsWorstKey<T(!new)>(heap: seq<Entry<T>>, keys: set<string>, values: map<string, T>,
                                score: string -> int)
    requires HeapOrdered(heap) && |heap| > 0 && keys <= values.Keys
    requires multiset(heap) == multiset(EntriesOf(keys, values, score))
    ensures heap[0].key in keys
    ensures heap[0] == Entry(score(heap[0].key), heap[0].key, values[heap[0].key])
    ensures forall k :: k in keys ==> score(k) <= score(heap[0].key)
  {
    assert heap[0] in multiset(heap);
    forall k | k in keys ensures score(k) <= heap[0].score {
      assert Entry(score(k), k, values[k]) in multiset(EntriesOf(keys, values, score));
      assert Entry(score(k), k, values[k]) in heap;
      var i :| 0 <= i < |heap| && heap[i] == Entry(score(k), k, values[k]);
      RootIsWorst(heap, i);
    }
  }

  // ---------------------------------------------------------------------------
  // Listing in score order
  // ---------------------------------------------------------------------------

  predicate NoHigher<T>(a: Entry<T>, b: Entry<T>) {
    a.score <= b.score
  }

  lemma TwiceMeansTwo<A>(s: seq<A>, i: nat, j: nat)
    requires i < j < |s| && s[i] == s[j]
    ensures multiset(s)[s[j]] >= 2
  {
    assert s == s[..j] + [s[j]] + s[j + 1..];
    assert s[i] in multiset(s[..j]) by {
      assert s[i] == s[..j][i];
    }
  }

  ghost predicate DistinctKeys<T>(s: seq<Entry<T>>) {
    forall i, j :: 0 <= i < j < |s| ==> s[i].key != s[j].key
  }

  lemma EntriesDistinct<T(!new)>(s: seq<Entry<T>>, keys: set<string>, values: map<string, T>, score: string -> int)
    requires keys <= values.Keys
    requires multiset(s) == multiset(EntriesOf(keys, values, score))
    ensures DistinctKeys(s)
    ensures forall i :: 0 <= i < |s| ==>
              s[i].key in keys && s[i] == Entry(score(s[i].key), s[i].key, values[s[i].key])
  {
    forall i | 0 <= i < |s|
      ensures s[i].key in keys && s[i] == Entry(score(s[i].key), s[i].key, values[s[i].key])
    {
      assert s[i] in multiset(s);
    }
    forall i, j | 0 <= i < j < |s| ensures s[i].key != s[j].key {
      if s[i].key == s[j].key {
        TwiceMeansTwo(s, i, j);
      }
    }
  }

  ghost function KeysOf<T>(s: seq<Entry<T>>): set<string> {
    set i | 0 <= i < |s| :: s[i].key
  }

  lemma {:induction false} DistinctKeysCount<T>(s: seq<Entry<T>>)
    requires DistinctKeys(s)
    ensures |KeysOf(s)| == |s|
  {
    if s == [] {
      assert KeysOf(s) == {};
    } else {
      var front := s[..|s| - 1];
      DistinctKeysCount(front);
      assert KeysOf(s) == KeysOf(front) + {s[|s| - 1].key};
    }
  }

  lemma PositionIsRank<T(!new)>(s: seq<Entry<T>>, keys: set<string>, values: map<string, T>,
                                score: string -> int, k: string)
    requires keys <= values.Keys && k in keys && Injective(score) && SortedBy(s, NoHigher)
    requires multiset(s) == multiset(EntriesOf(keys, values, score))
    ensures |Below(keys, k, score)| < |s|
    ensures s[|Below(keys, k, score)|].value == values[k]
  {
    EntriesDistinct(s, keys, values, score);
    var e := Entry(score(k), k, values[k]);
    assert e in multiset(EntriesOf(keys, values, score)) && e in s;
    var i :| 0 <= i < |s| && s[i] == e;
    DistinctKeysCount(s[..i]);
    PrefixIsBelow(s, keys, values, score, i);
  }

  lemma PrefixIsBelow<T(!new)>(s: seq<Entry<T>>, keys: set<string>, values: map<string, T>,
                               score: string -> int, i: nat)
    requires keys <= values.Keys && Injective(score) && SortedBy(s, NoHigher) && DistinctKeys(s) && i < |s|
    requires multiset(s) == multiset(EntriesOf(keys, values, score))
    requires forall j :: 0 <= j < |s| ==> s[j].key in keys && s[j].score == score(s[j].key)
    ensures KeysOf(s[..i]) == Below(keys, s[i].key, score)
  {
    forall x | x in Below(keys, s[i].key, score) ensures x in KeysOf(s[..i]) {
      var e := Entry(score(x), x, values[x]);
      assert e in multiset(EntriesOf(keys, values, score)) && e in s;
      var j :| 0 <= j < |s| && s[j] == e;
      assert j < i;
      assert s[..i][j].key == x;
    }
    forall x | x in KeysOf(s[..i]) ensures x in Below(keys, s[i].key, score) {
      var j :| 0 <= j < i && s[..i][j].key == x;
      assert s[j].score <= s[i].score && s[j].key != s[i].key;
    }
  }

  /** The heap and the key set agree and hold the least keys with their first-added values. */
  ghost predicate Samples<T(!new)>(heap: seq<Entry<T>>, keys: set<string>, values: map<string, T>,
                                   limit: nat, score: string -> int)
  {
    && HeapOrdered(heap) && |heap| == |keys|
    && Least(keys, values.Keys, limit, score)
    && multiset(heap) == multiset(EntriesOf(keys, values, score))
  }

  lemma KeyPushed<T(!new)>(heap: seq<Entry<T>>, keys: set<string>, values: map<string, T>, limit: nat,
                           score: string -> int, e: Entry<T>, h: seq<Entry<T>>)
    requires Samples(heap, keys, values, limit, score) && |heap| < limit && e.key !in keys
    requires e.score == score(e.key)
    requires HeapOrdered(h) && |h| == |heap| + 1 && multiset(h) == multiset(heap) + multiset{e}
    ensures Samples(h, keys + {e.key}, AddFirst(values, e.key, e.value), limit, score)
  {
    assert e.key !in values;
    NewKeyFits(keys, values.Keys, limit, score, e.key);
    NewEntry(keys, values, e.key, e.value, score);
    MultisetOfMore(EntriesOf(keys, values, score), e);
  }

  lemma KeyReplaces<T(!new)>(heap: seq<Entry<T>>, keys: set<string>, values: map<string, T>, limit: nat,
                             score: string -> int, e: Entry<T>, h: seq<Entry<T>>)
    requires Samples(heap, keys, values, limit, score) && |heap| == limit > 0 && e.key !in keys
    requires e.score == score(e.key) && e.score < heap[0].score && Injective(score)
    requires HeapOrdered(h) && |h| == |heap|
    requires multiset(h) == multiset(heap) - multiset{heap[0]} + multiset{e}
    ensures Samples(h, keys - {heap[0].key} + {e.key}, AddFirst(values, e.key, e.value), limit, score)
  {
    RootIsWorstKey(heap, keys, values, score);
    var worst := heap[0].key;
    NotSeenBefore(keys, values.Keys, limit, score, worst, e.key);
    NewKeyReplaces(keys, values.Keys, limit, score, worst, e.key);
    SwappedEntry(keys, values, worst, e.key, e.value, score);
    MultisetOfSwap(EntriesOf(keys, values, score), heap[0], e);
  }

  lemma KeyIgnored<T(!new)>(heap: seq<Entry<T>>, keys: set<string>, values: map<string, T>, limit: nat,
                            score: string -> int, e: Entry<T>)
    requires Samples(heap, keys, values, limit, score) && |heap| == limit > 0 && e.key !in keys
    requires e.score == score(e.key) && e.score >= heap[0].score && Injective(score)
    ensures Samples(heap, keys, AddFirst(values, e.key, e.value), limit, score)
  {
    RootIsWorstKey(heap, keys, values, score);
    SameEntries(keys, values, e.key, e.value, score);
    if e.key !in values {
      NewKeyTooLarge(keys, values.Keys, limit, score, heap[0].key, e.key);
    }
  }

  lemma MultisetOfMore<A>(s: set<A>, e: A)
    requires e !in s
    ensures multiset(s + {e}) == multiset(s) + multiset{e}
  {
  }

  lemma MultisetOfSwap<A>(s: set<A>, out: A, e: A)
    requires out in s && e !in s
    ensures multiset(s - {out} + {e}) == multiset(s) - multiset{out} + multiset{e}
  {
  }

  class StableSample<T(!new)> {
    const limit: nat
    const score: string -> int
    var heap: seq<Entry<T>>
    var keys: set<string>
    /** Every call of Add so far. */
    ghost var history: seq<(string, T)>

    ghost predicate Valid()
      reads this
    {
      && limit > 0 && Injective(score)
      && Samples(heap, keys, FirstValues(history), limit, score)
    }

    constructor (limit: nat, score: string -> int)
      requires limit > 0 && Injective(score)
      ensures Valid() && history == [] && this.limit == limit && this.score == score
    {
      this.limit := limit;
      this.score := score;
      heap := [];
      keys := {};
      history := [];
    }

    /**
     `add`. Valid() ties the whole new state to the longer history: the keys kept, the entries in
     the heap and their first-added values.
     */
    method Add(key: string, value: T)
      requires Valid()
      modifies this
      ensures Valid() && history == old(history) + [(key, value)]
    {
      ghost var before := FirstValues(history);
      HistoryGrows(history, key, value);
      history := history + [(key, value)];
      if key in keys {
        assert AddFirst(before, key, value) == before;
        return;
      }
      var entry := Entry(score(key), key, value);
      if |heap| < limit {
        var pushed := Push(heap, entry);
        KeyPushed(heap, keys, before, limit, score, entry, pushed);
        heap := pushed;
        keys := keys + {key};
        return;
      }
      var worst := heap[0];
      if entry.score < worst.score {
        var replaced := Replace(heap, entry);
        KeyReplaces(heap, keys, before, limit, score, entry, replaced);
        heap := replaced;
        keys := keys - {worst.key} + {key};
      } else {
        KeyIgnored(heap, keys, before, limit, score, entry);
      }
    }

    /**
     `values`: the kept values in score order. Position i holds the value first added with the key
     that has exactly i kept keys below it, so the list is the same for every arrival order.
     */
    method Values() returns (values: seq<T>)
      requires Valid()
      ensures |values| == |keys|
      ensures forall k :: k in keys ==>
                |Below(keys, k, score)| < |values|
                && values[|Below(keys, k, score)|] == FirstValues(history)[k]
    {
      var entries := Sort(heap, NoHigher);
      values := seq(|entries|, i requires 0 <= i < |entries| => entries[i].value);
      forall k | k in keys
        ensures |Below(keys, k, score)| < |values|
        ensures values[|Below(keys, k, score)|] == FirstValues(history)[k]
      {
        PositionIsRank(entries, keys, FirstValues(history), score, k);
      }
    }
  }

  /** The sampler refuses a limit that is not positive. */
  method NewSample<T(!new)>(limit: int, score: string -> int) returns (r: Option<StableSample<T>>)
    requires Injective(score)
    ensures r.None? <==> limit <= 0
    ensures r.Some? ==> fresh(r.value) && r.value.Valid() && r.value.history == [] && r.value.limit == limit
  {
    if limit <= 0 {
      return None;
    }
    var sample := new StableSample<T>(limit, score);
    r := Some(sample);
  }
}
