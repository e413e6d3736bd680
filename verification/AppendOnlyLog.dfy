/**
 The append-once checkpoint log, a file with one JSON record a line. A crash inside a write may
 leave the last line without its newline; what is written next then joins that line and the result
 is no longer one JSON record.
 */
module AppendOnlyLog {
  import opened Wrappers

  /** A line that parses as an object with its identity fields, or any other line. */
  datatype Line<K, V> = Row(identity: K, body: V) | Malformed

  /** `terminated` says that the file is empty or ends with a newline. */
  datatype File<K, V> = File(lines: seq<Line<K, V>>, terminated: bool) {
    predicate WellFormed() { |lines| == 0 ==> terminated }
  }

  /** A record offered to the log; one without its identity fields is refused. */
  datatype Record<K, V> = Identified(identity: K, body: V) | Unidentified

  datatype LogError = BadLine | DuplicateIdentity | ConflictingRow | MissingIdentity

  datatype AppendResult = AppendResult(appended: nat, skippedIdentical: nat, total: nat)

  /** `_load_existing`: the rows by identity, or the first thing wrong with the file. */
  function Load<K(==), V>(lines: seq<Line<K, V>>): Outcome<map<K, V>, LogError> {
    if lines == [] then Done(map[])
    else
      match Load(lines[..|lines| - 1])
      case Raised(e) => Raised(e)
      case Done(known) => LoadLine(known, lines[|lines| - 1])
  }

  function LoadLine<K(==), V>(known: map<K, V>, line: Line<K, V>): Outcome<map<K, V>, LogError> {
    match line
    case Malformed => Raised(BadLine)
    case Row(identity, body) =>
      if identity in known then Raised(DuplicateIdentity) else Done(known[identity := body])
  }

  /** What an append has decided after some of its records. */
  datatype Batch<K, V> = Batch(pending: seq<Line<K, V>>, skipped: nat, known: map<K, V>)

  function Offer<K(==), V(==)>(batch: Batch<K, V>, record: Record<K, V>): Outcome<Batch<K, V>, LogError> {
    match record
    case Unidentified => Raised(MissingIdentity)
    case Identified(identity, body) =>
      if identity in batch.known then
        if batch.known[identity] != body then Raised(ConflictingRow)
        else Done(batch.(skipped := batch.skipped + 1))
      else
        Done(Batch(batch.pending + [Row(identity, body)], batch.skipped, batch.known[identity := body]))
  }

  function Scan<K(==), V(==)>(existing: map<K, V>, records: seq<Record<K, V>>): Outcome<Batch<K, V>, LogError> {
    if records == [] then Done(Batch([], 0, existing))
    else
      match Scan(existing, records[..|records| - 1])
      case Raised(e) => Raised(e)
      case Done(batch) => Offer(batch, records[|records| - 1])
  }

  /** Write `rows`, each with its newline, at the end of the file. */
  function Write<K, V>(file: File<K, V>, rows: seq<Line<K, V>>): (r: File<K, V>)
    requires file.WellFormed()
    ensures r.WellFormed()
  {
    if rows == [] then file
    else if file.terminated then File(file.lines + rows, true)
    else File(file.lines[..|file.lines| - 1] + [Malformed] + rows[1..], true)
  }

  // ---------------------------------------------------------------------------
  // The log
  // ---------------------------------------------------------------------------

  class JsonlLog<K(==), V(==)> {
    var file: File<K, V>

    constructor (file: File<K, V>)
      ensures this.file == file
    {
      this.file := file;
    }

    /** `append`: all the new rows or none, and nothing at all when anything is refused. */
    method Append(records: seq<Record<K, V>>) returns (r: Outcome<AppendResult, LogError>)
      requires file.WellFormed()
      modifies this
      ensures file.WellFormed()
      ensures (match Load(old(file).lines)
               case Raised(e) => r == Raised(e) && file == old(file)
               case Done(existing) =>
                 match Scan(existing, records)
                 case Raised(e) => r == Raised(e) && file == old(file)
                 case Done(batch) =>
                   && r == Done(AppendResult(|batch.pending|, batch.skipped, |batch.known|))
                   && file == Write(old(file), batch.pending))
    {
      var loaded := LoadExisting();
      if loaded.Raised? {
        return Raised(loaded.error);
      }
      var existing, appended, skipped := loaded.value, 0, 0;
      var pending := [];
      for i := 0 to |records|
        invariant appended == |pending|
        invariant Scan(loaded.value, records[..i]) == Done(Batch(pending, skipped, existing))
      {
        assert records[..i + 1][..i] == records[..i];
        match records[i] {
          case Unidentified =>
            RaisedStays(loaded.value, records, i + 1);
            return Raised(MissingIdentity);
          case Identified(identity, body) =>
            if identity in existing {
              if existing[identity] != body {
                RaisedStays(loaded.value, records, i + 1);
                return Raised(ConflictingRow);
              }
              skipped := skipped + 1;
            } else {
              existing := existing[identity := body];
              pending := pending + [Row(identity, body)];
              appended := appended + 1;
            }
        }
      }
      assert records[..|records|] == records;
      file := Write(file, pending);
      r := Done(AppendResult(appended, skipped, |existing|));
    }

    method LoadExisting() returns (r: Outcome<map<K, V>, LogError>)
      ensures r == Load(file.lines)
    {
      var result: map<K, V> := map[];
      for i := 0 to |file.lines|
        invariant Load(file.lines[..i]) == Done(result)
      {
        assert file.lines[..i + 1][..i] == file.lines[..i];
        match file.lines[i] {
          case Malformed =>
            UnreadableStays(file.lines, i + 1);
            return Raised(BadLine);
          case Row(identity, body) =>
            if identity in result {
              UnreadableStays(file.lines, i + 1);
              return Raised(DuplicateIdentity);
            }
            result := result[identity := body];
        }
      }
      assert file.lines[..|file.lines|] == file.lines;
      r := Done(result);
    }
  }

  lemma {:induction false} RaisedStays<K, V>(existing: map<K, V>, records: seq<Record<K, V>>, n: nat)
    requires n <= |records| && Scan(existing, records[..n]).Raised?
    ensures Scan(existing, records) == Scan(existing, records[..n])
    decreases |records|
  {
    if n == |records| {
      assert records[..n] == records;
    } else {
      var front := records[..|records| - 1];
      assert front[..n] == records[..n];
      RaisedStays(existing, front, n);
    }
  }

  lemma {:induction false} UnreadableStays<K, V>(lines: seq<Line<K, V>>, n: nat)
    requires n <= |lines| && Load(lines[..n]).Raised?
    ensures Load(lines) == Load(lines[..n])
    decreases |lines|
  {
    if n == |lines| {
      assert lines[..n] == lines;
    } else {
      var front := lines[..|lines| - 1];
      assert front[..n] == lines[..n];
      UnreadableStays(front, n);
    }
  }

  // ---------------------------------------------------------------------------
  // What an append keeps
  // ---------------------------------------------------------------------------

  lemma {:induction false} LoadExtends<K, V>(lines: seq<Line<K, V>>, more: seq<Line<K, V>>, line: Line<K, V>)
    ensures (Load(lines + (more + [line]))
             == (match Load(lines + more)
                 case Raised(e) => Raised(e)
                 case Done(known) => LoadLine(known, line)))
  {
    var all := lines + (more + [line]);
    assert all[..|all| - 1] == lines + more && all[|all| - 1] == line;
  }

  /** A successful append to a terminated file leaves a readable file that holds exactly the batch. */
  lemma {:induction false} AppendedIsReadable<K, V>(lines: seq<Line<K, V>>, existing: map<K, V>,
                                                    records: seq<Record<K, V>>)
    requires Load(lines) == Done(existing)
    requires Scan(existing, records).Done?
    ensures Load(lines + Scan(existing, records).value.pending) == Done(Scan(existing, records).value.known)
  {
    if records == [] {
      assert lines + [] == lines;
    } else {
      var front := records[..|records| - 1];
      AppendedIsReadable(lines, existing, front);
      var batch := Scan(existing, front).value;
      var record := records[|records| - 1];
      if record.identity !in batch.known {
        LoadExtends(lines, batch.pending, Row(record.identity, record.body));
      }
    }
  }

  /** Two rows of one identity must be the same row. */
  ghost predicate Consistent<K, V>(existing: map<K, V>, records: seq<Record<K, V>>) {
    && (forall i :: 0 <= i < |records| ==> records[i].Identified?)
    && (forall i :: 0 <= i < |records| && records[i].identity in existing ==>
          existing[records[i].identity] == records[i].body)
    && (forall i, j :: 0 <= i < j < |records| && records[i].identity == records[j].identity ==>
          records[i].body == records[j].body)
  }

  ghost predicate BatchOf<K, V>(batch: Batch<K, V>, existing: map<K, V>, records: seq<Record<K, V>>) {
    && (forall k :: k in existing ==> k in batch.known && batch.known[k] == existing[k])
    && (forall i :: 0 <= i < |records| ==>
          && records[i].Identified?
          && records[i].identity in batch.known
          && batch.known[records[i].identity] == records[i].body)
    && (forall k :: k in batch.known ==>
          k in existing || exists i :: 0 <= i < |records| && records[i].identity == k)
    && |batch.pending| + batch.skipped == |records|
    && |batch.known| == |existing| + |batch.pending|
  }

  /** An append is refused exactly when its records disagree with the file or with each other. */
  lemma {:induction false} AcceptedIffConsistent<K, V>(existing: map<K, V>, records: seq<Record<K, V>>)
    ensures Scan(existing, records).Done? <==> Consistent(existing, records)
    ensures (Scan(existing, records).Done? ==>
             forall i :: 0 <= i < |records| ==> records[i].Identified?)
    ensures Scan(existing, records).Done? ==> BatchOf(Scan(existing, records).value, existing, records)
  {
    if records != [] {
      var front, last := records[..|records| - 1], records[|records| - 1];
      assert records == front + [last];
      AcceptedIffConsistent(existing, front);
      if Scan(existing, front).Done? {
        OfferDecides(existing, front, last);
      } else {
        assert !Consistent(existing, front);
      }
    }
  }

  lemma OfferDecides<K, V>(existing: map<K, V>, front: seq<Record<K, V>>, last: Record<K, V>)
    requires Scan(existing, front).Done? && Consistent(existing, front)
    requires forall i :: 0 <= i < |front| ==> front[i].Identified?
    requires BatchOf(Scan(existing, front).value, existing, front)
    ensures Offer(Scan(existing, front).value, last).Done? <==> Consistent(existing, front + [last])
    ensures (Offer(Scan(existing, front).value, last).Done? ==>
             BatchOf(Offer(Scan(existing, front).value, last).value, existing, front + [last]))
  {
    var batch := Scan(existing, front).value;
    if Offer(batch, last).Done? {
      OfferAccepts(batch, existing, front, last);
      OfferGrows(batch, existing, front, last);
    } else {
      OfferRefuses(batch, existing, front, last);
    }
  }

  lemma OfferAccepts<K, V>(batch: Batch<K, V>, existing: map<K, V>, front: seq<Record<K, V>>, last: Record<K, V>)
    requires Consistent(existing, front) && BatchOf(batch, existing, front)
    requires Offer(batch, last).Done?
    ensures Consistent(existing, front + [last])
  {
    var all := front + [last];
    forall i | 0 <= i < |front| ensures all[i] == front[i] {
    }
    assert all[|front|] == last;
  }

  lemma OfferRefuses<K, V>(batch: Batch<K, V>, existing: map<K, V>, front: seq<Record<K, V>>, last: Record<K, V>)
    requires Consistent(existing, front) && BatchOf(batch, existing, front)
    requires Offer(batch, last).Raised?
    ensures !Consistent(existing, front + [last])
  {
    var all := front + [last];
    assert all[|front|] == last;
    if last.Identified? && last.identity !in existing {
      var i :| 0 <= i < |front| && front[i].identity == last.identity;
      assert all[i] == front[i];
    }
  }

  lemma OfferGrows<K, V>(batch: Batch<K, V>, existing: map<K, V>, front: seq<Record<K, V>>, last: Record<K, V>)
    requires BatchOf(batch, existing, front) && Offer(batch, last).Done?
    ensures BatchOf(Offer(batch, last).value, existing, front + [last])
  {
    var all, after := front + [last], Offer(batch, last).value;
    assert all[|front|] == last;
    forall i | 0 <= i < |all|
      ensures && all[i].Identified? && all[i].identity in after.known
              && after.known[all[i].identity] == all[i].body
    {
      if i < |front| {
        assert all[i] == front[i];
      }
    }
    forall k | k in after.known
      ensures k in existing || exists i :: 0 <= i < |all| && all[i].identity == k
    {
      if k in batch.known && k !in existing {
        var i :| 0 <= i < |front| && front[i].identity == k;
        assert all[i].identity == k;
      }
    }
  }

  /** Offering accepted records again skips every one of them, so the file does not change. */
  lemma {:induction false} ReofferSkips<K, V>(existing: map<K, V>, records: seq<Record<K, V>>, again: seq<Record<K, V>>)
    requires Scan(existing, records).Done?
    requires forall r :: r in again ==> r in records
    ensures (Scan(Scan(existing, records).value.known, again)
             == Done(Batch([], |again|, Scan(existing, records).value.known)))
  {
    AcceptedIffConsistent(existing, records);
    if again != [] {
      var front := again[..|again| - 1];
      forall r | r in front ensures r in records {
        assert r in again;
      }
      ReofferSkips(existing, records, front);
      assert again[|again| - 1] in records;
    }
  }

  /** The rows already in a terminated file stay where they are. */
  lemma WriteOnlyAppends<K, V>(file: File<K, V>, rows: seq<Line<K, V>>)
    requires file.WellFormed() && file.terminated
    ensures file.lines <= Write(file, rows).lines && Write(file, rows).lines == file.lines + rows
  {
    assert file.lines + [] == file.lines;
  }

  /** The file after offering records: what is accepted is written, what is refused is not. */
  function AfterOffer<K(==), V(==)>(file: File<K, V>, records: seq<Record<K, V>>): (r: File<K, V>)
    requires file.WellFormed()
    ensures r.WellFormed()
  {
    match Load(file.lines)
    case Raised(_) => file
    case Done(existing) =>
      match Scan(existing, records)
      case Raised(_) => file
      case Done(batch) => Write(file, batch.pending)
  }

  function AfterOffers<K(==), V(==)>(file: File<K, V>, offers: seq<seq<Record<K, V>>>): (r: File<K, V>)
    requires file.WellFormed()
    ensures r.WellFormed()
  {
    if offers == [] then file
    else AfterOffer(AfterOffers(file, offers[..|offers| - 1]), offers[|offers| - 1])
  }

  /** Without a crash a readable file stays so, however many batches are offered, accepted or not. */
  lemma {:induction false} OffersStayReadable<K, V>(file: File<K, V>, offers: seq<seq<Record<K, V>>>)
    requires file.WellFormed() && file.terminated && Load(file.lines).Done?
    ensures var end := AfterOffers(file, offers);
            Load(end.lines).Done? && end.terminated && file.lines <= end.lines
  {
    if offers != [] {
      var front, last := offers[..|offers| - 1], offers[|offers| - 1];
      OffersStayReadable(file, front);
      var mid := AfterOffers(file, front);
      var existing := Load(mid.lines).value;
      if Scan(existing, last).Done? {
        AppendedIsReadable(mid.lines, existing, last);
        WriteOnlyAppends(mid, Scan(existing, last).value.pending);
      }
    }
  }

  // ---------------------------------------------------------------------------
  // Torn writes
  // ---------------------------------------------------------------------------

  /** What a crash inside the write of one row can leave behind. */
  datatype Tear = NothingWritten | FragmentWritten | NewlineMissing

  function Torn<K, V>(file: File<K, V>, row: Line<K, V>, tear: Tear): (r: File<K, V>)
    requires file.WellFormed()
    ensures r.WellFormed()
  {
    match tear
    case NothingWritten => file
    case FragmentWritten =>
      if file.terminated then File(file.lines + [Malformed], false)
      else File(file.lines[..|file.lines| - 1] + [Malformed], false)
    case NewlineMissing =>
      if file.terminated then File(file.lines + [row], false)
      else File(file.lines[..|file.lines| - 1] + [Malformed], false)
  }

  lemma {:induction false} MalformedIsUnreadable<K, V>(lines: seq<Line<K, V>>)
    requires Malformed in lines
    ensures Load(lines).Raised?
  {
    var front, last := lines[..|lines| - 1], lines[|lines| - 1];
    if last != Malformed {
      assert lines == front + [last];
      MalformedIsUnreadable(front);
    }
  }

  /**
   A row left without its newline is still read, but new rows appended to it make the file
   unreadable: an append leaves a readable file exactly when the file ended with a newline.
   */
  lemma UnterminatedRowPoisons<K, V>(file: File<K, V>, existing: map<K, V>, records: seq<Record<K, V>>)
    requires file.WellFormed() && Load(file.lines) == Done(existing)
    requires Scan(existing, records).Done? && Scan(existing, records).value.pending != []
    ensures Load(Write(file, Scan(existing, records).value.pending).lines).Done? <==> file.terminated
    ensures !file.terminated ==> Malformed in Write(file, Scan(existing, records).value.pending).lines
  {
    var rows := Scan(existing, records).value.pending;
    if file.terminated {
      AppendedIsReadable(file.lines, existing, records);
    } else {
      var lines := Write(file, rows).lines;
      assert lines[|file.lines| - 1] == Malformed;
      MalformedIsUnreadable(lines);
    }
  }

  /** And once unreadable it stays so: no later write or torn write removes the broken line. */
  lemma BrokenStaysBroken<K, V>(file: File<K, V>, rows: seq<Line<K, V>>, row: Line<K, V>, tear: Tear)
    requires file.WellFormed() && Malformed in file.lines
    ensures Malformed in Write(file, rows).lines
    ensures Malformed in Torn(file, row, tear).lines
  {
    var i :| 0 <= i < |file.lines| && file.lines[i] == Malformed;
    StillThere(file, i, Write(file, rows).lines, rows != []);
    StillThere(file, i, Torn(file, row, tear).lines, tear != NothingWritten);
  }

  lemma StillThere<K, V>(file: File<K, V>, i: nat, lines: seq<Line<K, V>>, changed: bool)
    requires file.WellFormed() && i < |file.lines| && file.lines[i] == Malformed
    requires !changed ==> lines == file.lines
    requires changed && file.terminated ==> file.lines <= lines
    requires (changed && !file.terminated ==>
              file.lines[..|file.lines| - 1] + [Malformed] <= lines)
    ensures Malformed in lines
  {
    if changed && !file.terminated {
      assert (file.lines[..|file.lines| - 1] + [Malformed])[i] == Malformed;
    }
    assert lines[i] == Malformed;
  }
}
