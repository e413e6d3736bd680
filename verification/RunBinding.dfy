/** Exactly when binding targets to a run succeeds. */
module RunBinding {
  import opened Wrappers
  import opened AudienceTables
  import opened SetSizes
  import opened WinnerSelection
  import opened AllocationProtocol
  import opened AllocationInvariant
  import opened BindInvariant
  import opened ConfirmTheorems
  import opened CoherentInvariant
  import opened ReservationRuns
  import opened RetryTheorems
  import opened ConfirmationChecks
  import opened CommittedColumns
  import opened BoundColumns

  // ---------------------------------------------------------------------------
  // The status of a final snapshot follows from its count
  // ---------------------------------------------------------------------------

  ghost predicate FinalsStated(db: Db) {
    forall f <- db.finals :: db.finals[f].userCount > 0 ==> db.finals[f].status != NoEligibleAudience
  }

  lemma CommitStates(db: Db, next: Db, req: Request)
    requires AllReadable(req) && RowsMatch(req) && FinalsStated(db) && RestKept(db, next, req)
    requires forall row :: row in req.rows ==> FinalWritten(db, next, req, row)
    ensures FinalsStated(next)
  {
    forall f | f in next.finals && next.finals[f].userCount > 0
      ensures next.finals[f].status != NoEligibleAudience
    {
      if f !in db.finals {
        var row :| row in req.rows && row.segment == f.segment;
        assert FinalWritten(db, next, req, row);
      }
    }
  }

  lemma ConfirmStates(db: Db, limit: nat, req: Request)
    requires FinalsMatchPlans(db) && FinalsStated(db)
    ensures FinalsStated(Confirm(db, limit, req).0)
  {
    if CommitsFresh(db, limit, req) {
      CommitWroteColumns(db, limit, req);
      FreshRowsMatch(db, limit, req);
      CommitStates(db, Confirm(db, limit, req).0, req);
    } else {
      UncommittedChangesNothing(db, limit, req);
    }
  }

  lemma FreshRowsMatch(db: Db, limit: nat, req: Request)
    requires Path(db, limit, req).Fresh?
    ensures RowsMatch(req)
  {
    FreshFits(db, limit, req);
    RowsMatchIff(req);
  }

  lemma StepStates(db: Db, limit: nat, step: Step)
    requires FinalsMatchPlans(db) && FinalsStated(db) && Permitted(db, limit, step)
    ensures FinalsStated(Next(db, limit, step))
  {
    match step
    case ConfirmStep(req) => ConfirmStates(db, limit, req);
    case ReleaseStep(k, entire) => ReleaseStepWrites(db, limit, k, entire);
    case BindStep(run, items) =>
      BindStepWrites(db, run, items);
      ConsumeAllKeepsRest(Bump(db), run, PendingItems(db, items));
    case SurroundingStep(_) =>
  }

  /** What binding relies on beyond coherence; it holds after every run. */
  ghost predicate Bindable(db: Db) {
    Coherent(db) && RowsListed(db) && FinalsStated(db)
  }

  lemma {:induction false} RunStaysBindable(db: Db, limit: nat, steps: seq<Step>)
    requires Bindable(db) && PermittedRun(db, limit, steps)
    ensures Bindable(After(db, limit, steps))
  {
    RunKeepsCoherent(db, limit, steps);
    RunLists(db, limit, steps);
    if steps != [] {
      var front := steps[..|steps| - 1];
      RunStaysBindable(db, limit, front);
      StepStates(After(db, limit, front), limit, steps[|steps| - 1]);
    }
  }

  // ---------------------------------------------------------------------------
  // After the writes
  // ---------------------------------------------------------------------------

  /** The items can all be bound, each for a segment of its own. */
  ghost predicate AllAcceptable(db: Db, run: RunId, items: seq<BindItem>) {
    && items != []
    && (forall i, j :: 0 <= i < j < |items| ==> items[i].target.segment != items[j].target.segment)
    && (forall item :: item in items ==>
          MayBind(db, run, item) && OwnsMembers(db, item.target, item.plan, item.snapshot))
  }

  lemma AcceptableIff(db: Db, run: RunId, items: seq<BindItem>)
    requires Coherent(db) && RowsListed(db)
    ensures AllAcceptable(db, run, items)
       <==> && items != [] && DistinctItems(items)
            && forall item :: item in items ==> ItemAccepted(db, run, item)
  {
    forall item | item in items
      ensures ItemAccepted(db, run, item)
         <==> MayBind(db, run, item) && OwnsMembers(db, item.target, item.plan, item.snapshot)
    {
      AcceptedIff(db, run, item);
    }
  }

  lemma WritesAreColumns(db: Db, run: RunId, items: seq<BindItem>)
    requires DistinctItems(items) && forall item :: item in items ==> ItemAccepted(db, run, item)
    ensures BoundNew(db, BindWrites(db, run, items), run, items)
  {
    PendingAreNew(db, items);
    var pending := PendingItems(db, items);
    if pending == [] {
      NothingNew(db, run, items);
    } else {
      AcceptedIsConsumable(db, run, items);
      ConsumeAllTakesRows(Bump(db), run, pending);
      ConsumeAllTakesTargets(Bump(db), run, pending);
      ConsumeAllTakesBindings(Bump(db), run, pending);
      ConsumeAllTakesPlans(Bump(db), run, pending);
      ConsumeAllKeepsRest(Bump(db), run, pending);
      TakenIsBound(db, ConsumeAll(Bump(db), run, pending), run, items, pending);
    }
  }

  /** No other item names the target. */
  predicate OnlyItem(items: seq<BindItem>, item: BindItem) {
    item in items && forall other :: other in items && other.target == item.target ==> other == item
  }

  /** An item's target is bound to the run afterwards and is consumed. */
  lemma TargetIsBound(db: Db, next: Db, run: RunId, items: seq<BindItem>, item: BindItem)
    requires TargetsWellBound(db) && StatesAgree(db) && BindingsJoin(db)
    requires OnlyItem(items, item) && MayBind(db, run, item)
    requires BindingStored(db, next, run, items, item.target)
    requires TargetTaken(db, next, items, item.target)
    ensures item.target in next.bindings
    ensures next.bindings[item.target] == Binding(run, item.plan, item.snapshot)
    ensures item.target in next.targets && next.targets[item.target].state == Some(Consumed)
  {
    var k := item.target;
    if k in db.bindings {
      assert BoundToPlan(db, k);
      BoundIsConsumed(db, item);
      assert forall other :: IsNew(db, items, other) ==> other.target != k;
    } else {
      assert IsNew(db, items, item);
    }
  }

  /** And it owns its members. */
  lemma MembersAreConsumed(db: Db, next: Db, run: RunId, items: seq<BindItem>, item: BindItem)
    requires TargetsWellBound(db) && StatesAgree(db) && BindingsJoin(db)
    requires OnlyItem(items, item) && MayBind(db, run, item)
    requires OwnsMembers(db, item.target, item.plan, item.snapshot)
    requires (forall u :: RowWritten(db, next, items, u)) && next.members == db.members
    requires item.target in next.targets && next.targets[item.target].state == Some(Consumed)
    ensures OwnsMembers(next, item.target, item.plan, item.snapshot)
  {
    var k := item.target;
    assert BoundToPlan(db, k);
    forall u | u in next.members[item.snapshot]
      ensures u in next.ledger && next.ledger[u].target == k && next.ledger[u].plan == item.plan
      ensures next.ledger[u].snapshot == item.snapshot && next.ledger[u].state == Consumed
    {
      assert RowWritten(db, next, items, u);
      assert BindItem(k, item.plan, item.snapshot) == item;
    }
  }

  lemma BoundRowIsValid(next: Db, k: TargetKey)
    requires Bindable(next) && k in next.bindings && k in next.targets
    requires next.targets[k].state == Some(Consumed)
    requires OwnsMembers(next, k, next.bindings[k].plan, next.bindings[k].snapshot)
    ensures BoundRowValid(next, k)
  {
    var b := next.bindings[k];
    assert BindingMatches(next, k) && BoundToPlan(next, k);
    CoherentSnapshotStored(next, k);
    assert FinalMatchesPlan(next, b.snapshot);
    HeldRows(next, BindItem(k, b.plan, b.snapshot), Consumed);
  }

  /** The targets that the items name. */
  function Named(items: seq<BindItem>): set<TargetKey> {
    set item | item in items :: item.target
  }

  function SegmentsNamed(items: seq<BindItem>): set<SegmentId> {
    set item | item in items :: item.target.segment
  }

  lemma {:induction false} NamedOnce(items: seq<BindItem>)
    requires DistinctItems(items)
    ensures |Named(items)| == |items| == |SegmentsNamed(items)|
  {
    if items != [] {
      var front, last := items[..|items| - 1], items[|items| - 1];
      assert items == front + [last];
      NamedOnce(front);
      OneNamedMore(front, last);
    }
  }

  lemma OneNamedMore(front: seq<BindItem>, last: BindItem)
    requires DistinctItems(front + [last])
    ensures Named(front + [last]) == Named(front) + {last.target}
    ensures SegmentsNamed(front + [last]) == SegmentsNamed(front) + {last.target.segment}
    ensures last.target !in Named(front) && last.target.segment !in SegmentsNamed(front)
  {
    var items := front + [last];
    assert items[|front|] == last;
    forall item | item in front
      ensures item in items && item.target.segment != last.target.segment
    {
      var i :| 0 <= i < |front| && front[i] == item;
      assert items[i] == item;
    }
    forall item | item in items
      ensures item in front || item == last
    {
    }
  }

  lemma SameItem(items: seq<BindItem>, a: BindItem, b: BindItem)
    requires DistinctItems(items) && a in items && b in items && a.target.segment == b.target.segment
    ensures a == b
  {
    var i :| 0 <= i < |items| && items[i] == a;
    var j :| 0 <= j < |items| && items[j] == b;
    assert i == j;
  }

  lemma BoundAfterwards(db: Db, next: Db, run: RunId, items: seq<BindItem>)
    requires Coherent(db) && RowsListed(db) && AllAcceptable(db, run, items)
    requires BoundNew(db, next, run, items)
    ensures BoundTo(next, run) == BoundTo(db, run) + Named(items)
    ensures forall item :: item in items ==> ItemHolds(next, run, item)
  {
    forall item | item in items
      ensures ItemHolds(next, run, item)
    {
      forall other | other in items && other.target == item.target
        ensures other == item
      {
        SameItem(items, other, item);
      }
      assert BindingStored(db, next, run, items, item.target);
      assert TargetTaken(db, next, items, item.target);
      TargetIsBound(db, next, run, items, item);
      MembersAreConsumed(db, next, run, items, item);
    }
    forall k
      ensures k in BoundTo(next, run) <==> k in BoundTo(db, run) + Named(items)
    {
      assert BindingStored(db, next, run, items, k);
    }
  }

  /** Every target that the run has is among the items. */
  ghost predicate NamesAllOf(db: Db, run: RunId, items: seq<BindItem>) {
    forall k <- db.bindings :: db.bindings[k].run == run ==>
      exists item :: item in items && item.target == k
  }

  lemma SetIsValidIff(db: Db, next: Db, run: RunId, items: seq<BindItem>)
    requires Coherent(db) && RowsListed(db) && AllAcceptable(db, run, items)
    requires BoundNew(db, next, run, items) && Bindable(next)
    ensures RunSetValid(next, run, SegmentsNamed(items)) <==> NamesAllOf(db, run, items)
  {
    BoundAfterwards(db, next, run, items);
    NamedOnce(items);
    if NamesAllOf(db, run, items) {
      NothingElseBound(db, run, items);
      AllRowsValid(next, run, items);
    } else {
      var k :| k in db.bindings && db.bindings[k].run == run && k !in Named(items);
      TooManyBound(next, run, items, k);
    }
  }

  lemma NothingElseBound(db: Db, run: RunId, items: seq<BindItem>)
    requires NamesAllOf(db, run, items)
    ensures BoundTo(db, run) + Named(items) == Named(items)
  {
  }

  lemma TooManyBound(next: Db, run: RunId, items: seq<BindItem>, k: TargetKey)
    requires k in BoundTo(next, run) && k !in Named(items) && Named(items) <= BoundTo(next, run)
    requires |Named(items)| == |SegmentsNamed(items)|
    ensures !RunSetValid(next, run, SegmentsNamed(items))
  {
    SubsetSize(Named(items) + {k}, BoundTo(next, run));
  }

  ghost predicate ItemHolds(next: Db, run: RunId, item: BindItem) {
    && item.target in next.bindings && item.target in next.targets
    && next.bindings[item.target] == Binding(run, item.plan, item.snapshot)
    && next.targets[item.target].state == Some(Consumed)
    && OwnsMembers(next, item.target, item.plan, item.snapshot)
  }

  lemma AllRowsValid(next: Db, run: RunId, items: seq<BindItem>)
    requires Bindable(next) && BoundTo(next, run) == Named(items)
    requires |Named(items)| == |SegmentsNamed(items)|
    requires forall item :: item in items ==> ItemHolds(next, run, item)
    ensures RunSetValid(next, run, SegmentsNamed(items))
  {
    var keys := BoundTo(next, run);
    SegmentsOfNamed(items);
    forall k | k in keys
      ensures BoundRowValid(next, k)
    {
      var item :| item in items && item.target == k;
      assert ItemHolds(next, run, item);
      BoundRowIsValid(next, k);
    }
    NoneShared(next, run, items);
  }

  lemma SegmentsOfNamed(items: seq<BindItem>)
    ensures (set k | k in Named(items) :: k.segment) == SegmentsNamed(items)
  {
  }

  lemma NoneShared(next: Db, run: RunId, items: seq<BindItem>)
    requires BoundTo(next, run) == Named(items)
    requires forall item :: item in items ==> ItemHolds(next, run, item)
    ensures NoSharedMember(next, BoundTo(next, run))
  {
    var keys := BoundTo(next, run);
    forall a, b | a in keys && b in keys && a != b
      ensures MembersOf(next, next.bindings[a].snapshot).Keys
           !! MembersOf(next, next.bindings[b].snapshot).Keys
    {
      var i :| i in items && i.target == a;
      var j :| j in items && j.target == b;
      assert ItemHolds(next, run, i) && ItemHolds(next, run, j);
    }
  }

  lemma StaysBindable(db: Db, run: RunId, items: seq<BindItem>)
    requires Bindable(db) && DistinctItems(items)
    requires forall item :: item in items ==> ItemAccepted(db, run, item)
    ensures Bindable(BindWrites(db, run, items))
  {
    BindKeepsCoherent(db, run, items);
    ConsumeAllKeepsRest(Bump(db), run, PendingItems(db, items));
    ConsumeAllKeepsSnapshots(Bump(db), run, PendingItems(db, items));
    var next := BindWrites(db, run, items);
    forall u | u in next.ledger
      ensures Listed(next, u, next.ledger[u])
    {
      assert Listed(db, u, db.ledger[u]);
    }
  }

  /**
   On tables left by any run, binding succeeds exactly when the items are acceptable, each for a
   segment of its own, and name every target that the run already has.
   */
  lemma BindSucceedsIff(db: Db, run: RunId, items: seq<BindItem>)
    requires Bindable(db)
    ensures BindRun(db, run, items).1.Done?
       <==> AllAcceptable(db, run, items) && NamesAllOf(db, run, items)
  {
    AcceptableIff(db, run, items);
    if AllAcceptable(db, run, items) {
      WritesAreColumns(db, run, items);
      StaysBindable(db, run, items);
      SetIsValidIff(db, BindWrites(db, run, items), run, items);
    }
  }

  // ---------------------------------------------------------------------------
  // The final check, whatever the tables are
  // ---------------------------------------------------------------------------

  /** A bound target has its binding's plan and snapshot, and everything is consumed and locked. */
  ghost predicate BoundInOrder(db: Db, k: TargetKey)
    requires k in db.bindings
  {
    var b := db.bindings[k];
    var item := BindItem(k, b.plan, b.snapshot);
    && k in db.targets && db.targets[k].plan == Some(b.plan) && db.targets[k].snapshot == Some(b.snapshot)
    && db.targets[k].state == Some(Consumed)
    && b.plan in db.plans && db.plans[b.plan].status == Locked
    && b.snapshot in db.finals && db.finals[b.snapshot].plan == b.plan
    && db.finals[b.snapshot].userCount > 0 && db.finals[b.snapshot].status != NoEligibleAudience
    && b.snapshot in db.members && |db.members[b.snapshot]| == db.finals[b.snapshot].userCount
    && exists rows :: AreRowsOf(db, item, rows) && |rows| == db.finals[b.snapshot].userCount
                      && db.members[b.snapshot].Keys <= rows
  }

  /** The run has exactly one target per expected segment, all in order, and no user twice. */
  ghost predicate SetInOrder(db: Db, run: RunId, expected: set<SegmentId>) {
    && (forall s :: s in expected
                    <==> exists k <- db.bindings :: db.bindings[k].run == run && k.segment == s)
    && |set k | k in db.bindings && db.bindings[k].run == run| == |expected|
    && (forall k <- db.bindings :: db.bindings[k].run == run ==> BoundInOrder(db, k))
    && (forall a <- db.bindings, b <- db.bindings ::
          db.bindings[a].run == run && db.bindings[b].run == run && a != b ==>
            forall u <- MembersOf(db, db.bindings[a].snapshot) ::
              u !in MembersOf(db, db.bindings[b].snapshot))
  }

  lemma RowInOrderIff(db: Db, k: TargetKey)
    requires k in db.bindings
    ensures BoundRowValid(db, k) <==> BoundInOrder(db, k)
  {
    var b := db.bindings[k];
    var item := BindItem(k, b.plan, b.snapshot);
    if k in db.targets && db.targets[k].state == Some(Consumed) {
      var rows := RowsNaming(db, item, Consumed);
      assert AreRowsOf(db, item, rows);
      forall other | AreRowsOf(db, item, other)
        ensures other == rows
      {
      }
    }
  }

  lemma SegmentsIff(db: Db, run: RunId, expected: set<SegmentId>)
    ensures (set k | k in BoundTo(db, run) :: k.segment) == expected
       <==> forall s :: s in expected
                        <==> exists k <- db.bindings :: db.bindings[k].run == run && k.segment == s
  {
    var segments := set k | k in BoundTo(db, run) :: k.segment;
    forall s
      ensures s in segments <==> exists k <- db.bindings :: db.bindings[k].run == run && k.segment == s
    {
      if k :| k in db.bindings && db.bindings[k].run == run && k.segment == s {
        assert k in BoundTo(db, run);
      }
    }
  }

  lemma SharedIff(db: Db, run: RunId)
    ensures NoSharedMember(db, BoundTo(db, run))
       <==> forall a <- db.bindings, b <- db.bindings ::
              db.bindings[a].run == run && db.bindings[b].run == run && a != b ==>
                forall u <- MembersOf(db, db.bindings[a].snapshot) ::
                  u !in MembersOf(db, db.bindings[b].snapshot)
  {
    forall a, b | a in db.bindings && b in db.bindings
      ensures MembersOf(db, db.bindings[a].snapshot).Keys !! MembersOf(db, db.bindings[b].snapshot).Keys
         <==> forall u <- MembersOf(db, db.bindings[a].snapshot) ::
                u !in MembersOf(db, db.bindings[b].snapshot)
    {
    }
    assert forall k :: k in BoundTo(db, run) <==> k in db.bindings && db.bindings[k].run == run;
  }

  /** The check that ends a binding, written out. */
  lemma SetOnAnyTables(db: Db, run: RunId, expected: set<SegmentId>)
    ensures RunSetValid(db, run, expected) <==> SetInOrder(db, run, expected)
  {
    SegmentsIff(db, run, expected);
    SharedIff(db, run);
    assert BoundTo(db, run) == set k | k in db.bindings && db.bindings[k].run == run;
    forall k | k in db.bindings
      ensures BoundRowValid(db, k) <==> BoundInOrder(db, k)
    {
      RowInOrderIff(db, k);
    }
  }
}
