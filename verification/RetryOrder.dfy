/** The order in which the retry query returns its rows decides the first row and each segment's last. */
module RetryOrder {
  import opened Wrappers
  import opened AudienceTables
  import opened WinnerSelection
  import opened AllocationProtocol
  import opened AllocationInvariant
  import opened CoherentInvariant

  /** No two rows tie. */
  predicate RowsOrdered(db: Db, rows: set<SnapshotId>) {
    && RowsStored(db, rows)
    && forall f <- rows, g <- rows :: f != g ==> RowBefore(db, f, g) || RowBefore(db, g, f)
  }

  /** A row is named by its plan and segment, and the revision counter numbers the plans. */
  lemma RetryRowsOrdered(db: Db, analysis: AnalysisId, sources: seq<Source>)
    requires FinalsMatchPlans(db) && PlansNumbered(db) && RevisionsApart(db)
    ensures RowsOrdered(db, RetryRows(db, analysis, sources))
  {
    var rows := RetryRows(db, analysis, sources);
    forall f, g | f in rows && g in rows && f != g
      ensures RowBefore(db, f, g) || RowBefore(db, g, f)
    {
      assert FinalMatchesPlan(db, f) && FinalMatchesPlan(db, g);
    }
  }

  lemma {:induction false} FirstRowExists(db: Db, rows: set<SnapshotId>) returns (first: SnapshotId)
    requires rows != {} && RowsOrdered(db, rows)
    ensures IsFirstRow(db, rows, first)
    decreases rows
  {
    var f :| f in rows;
    first := f;
    if rows != {f} {
      var least := FirstRowExists(db, rows - {f});
      first := if RowBefore(db, f, least) then f else least;
      forall g | g in rows
        ensures g == first || RowBefore(db, first, g)
      {
        assert g == f || g in rows - {f};
      }
    }
  }

  lemma {:induction false} LastRowExists(db: Db, rows: set<SnapshotId>, segment: SegmentId)
    returns (last: SnapshotId)
    requires RowsOrdered(db, rows) && exists f <- rows :: db.finals[f].segment == segment
    ensures IsLastRow(db, rows, segment, last)
    decreases rows
  {
    var f :| f in rows && db.finals[f].segment == segment;
    last := f;
    if exists g <- rows - {f} :: db.finals[g].segment == segment {
      var most := LastRowExists(db, rows - {f}, segment);
      last := if RowBefore(db, most, f) then f else most;
    }
  }

  lemma RowForIsLast(db: Db, rows: set<SnapshotId>, segment: SegmentId, last: SnapshotId)
    requires RowsOrdered(db, rows) && IsLastRow(db, rows, segment, last)
    ensures exists f <- rows :: db.finals[f].segment == segment
    ensures RowFor(db, rows, segment) == last
  {
    assert IsLastRow(db, rows, segment, RowFor(db, rows, segment));
  }

  /** A later row overwrites its segment's entry and no other. */
  lemma LaterRowOverwrites(db: Db, rows: set<SnapshotId>, f: SnapshotId)
    requires f !in rows && RowsOrdered(db, rows + {f})
    requires forall g <- rows :: RowBefore(db, g, f)
    ensures RowsStored(db, rows)
    ensures AllocationsOf(db, rows + {f})
         == AllocationsOf(db, rows)[db.finals[f].segment := AllocationFrom(db, f)]
  {
    var more, fewer := AllocationsOf(db, rows + {f}), AllocationsOf(db, rows);
    OwnSegmentTaken(db, rows, f);
    SegmentsGrow(db, rows, f);
    forall s | s in fewer && s != db.finals[f].segment
      ensures s in more && more[s] == fewer[s]
    {
      OtherSegmentStays(db, rows, f, s);
    }
    OneEntryMore(more, fewer, db.finals[f].segment, AllocationFrom(db, f));
  }

  lemma OneEntryMore<K, V>(more: map<K, V>, fewer: map<K, V>, k: K, v: V)
    requires more.Keys == fewer.Keys + {k} && more[k] == v
    requires forall x <- fewer :: x != k ==> x in more && more[x] == fewer[x]
    ensures more == fewer[k := v]
  {
  }

  lemma OwnSegmentTaken(db: Db, rows: set<SnapshotId>, f: SnapshotId)
    requires f !in rows && RowsOrdered(db, rows + {f})
    requires forall g <- rows :: RowBefore(db, g, f)
    ensures var more, own := AllocationsOf(db, rows + {f}), db.finals[f].segment;
            own in more && more[own] == AllocationFrom(db, f)
  {
    assert IsLastRow(db, rows + {f}, db.finals[f].segment, f);
    RowForIsLast(db, rows + {f}, db.finals[f].segment, f);
  }

  lemma SegmentsGrow(db: Db, rows: set<SnapshotId>, f: SnapshotId)
    requires RowsStored(db, rows + {f})
    ensures RowsStored(db, rows)
    ensures AllocationsOf(db, rows + {f}).Keys
         == AllocationsOf(db, rows).Keys + {db.finals[f].segment}
  {
    assert (set g | g in rows + {f} :: db.finals[g].segment)
        == (set g | g in rows :: db.finals[g].segment) + {db.finals[f].segment};
  }

  lemma OtherSegmentStays(db: Db, rows: set<SnapshotId>, f: SnapshotId, segment: SegmentId)
    requires RowsOrdered(db, rows + {f}) && f !in rows && db.finals[f].segment != segment
    requires exists g <- rows :: db.finals[g].segment == segment
    ensures exists g <- rows + {f} :: db.finals[g].segment == segment
    ensures RowFor(db, rows + {f}, segment) == RowFor(db, rows, segment)
    ensures segment in AllocationsOf(db, rows + {f}) && segment in AllocationsOf(db, rows)
    ensures AllocationsOf(db, rows + {f})[segment] == AllocationsOf(db, rows)[segment]
  {
    var last := LastRowExists(db, rows, segment);
    RowForIsLast(db, rows, segment, last);
    RowForIsLast(db, rows + {f}, segment, last);
  }
}
