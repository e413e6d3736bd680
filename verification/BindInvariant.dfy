/** Binding targets to a run: each consumed target keeps the invariant. */
module BindInvariant {
  import opened Wrappers
  import opened AudienceTables
  import opened WinnerSelection
  import opened AllocationProtocol
  import opened AllocationInvariant

  /** What the validation of one pending item leaves known when its writes begin. */
  predicate Reservable(db: Db, run: RunId, item: BindItem) {
    && item.target in db.targets
    && db.targets[item.target].plan == Some(item.plan)
    && db.targets[item.target].snapshot == Some(item.snapshot)
    && db.targets[item.target].state == Some(Reserved)
    && item.target !in db.bindings
    && run in db.runs
  }

  ghost predicate TookTargets(db: Db, next: Db, item: BindItem) {
    && next.targets.Keys == db.targets.Keys
    && forall k <- db.targets ::
         next.targets[k] == if k == item.target then db.targets[k].(state := Some(Consumed))
                            else db.targets[k]
  }

  ghost predicate TookPlan(db: Db, next: Db, item: BindItem) {
    && next.revision == db.revision
    && item.plan in db.plans
    && next.plans == db.plans[item.plan := db.plans[item.plan].(status := Locked)]
  }

  ghost predicate TookRows(db: Db, next: Db, item: BindItem) {
    && next.ledger.Keys == db.ledger.Keys
    && forall u <- db.ledger ::
         next.ledger[u] == ConsumedRow(db.ledger[u], item, next.revision)
  }

  ghost predicate TookBinding(db: Db, next: Db, run: RunId, item: BindItem) {
    && next.bindings == db.bindings[item.target := Binding(run, item.plan, item.snapshot)]
    && next.runs == db.runs
  }

  ghost predicate Took(db: Db, next: Db, run: RunId, item: BindItem) {
    && TookTargets(db, next, item) && TookPlan(db, next, item) && TookRows(db, next, item)
    && TookBinding(db, next, run, item)
    && next.finals == db.finals && next.members == db.members
  }

  lemma ConsumeOneTakes(db: Db, run: RunId, item: BindItem)
    requires TargetsWellBound(db) && StatesAgree(db) && Reservable(db, run, item)
    ensures Took(db, ConsumeOne(db, run, item), run, item)
  {
    assert BoundToPlan(db, item.target);
  }

  lemma TookKeepsTargets(db: Db, next: Db, item: BindItem)
    requires TargetsWellBound(db) && PlansComplete(db)
    requires item.target in db.targets
    requires TookTargets(db, next, item) && TookPlan(db, next, item)
    requires db.targets[item.target].plan == Some(item.plan)
    ensures TargetsWellBound(next) && PlansComplete(next)
  {
    forall k | k in next.targets && !next.targets[k].Unbound()
      ensures BoundToPlan(next, k)
    {
      assert BoundToPlan(db, k) || k == item.target;
      assert BoundToPlan(db, item.target);
    }
    forall p | p in next.plans
      ensures PlanComplete(next, p)
    {
      assert PlanComplete(db, p);
    }
  }

  lemma TookKeepsStates(db: Db, next: Db, run: RunId, item: BindItem)
    requires TargetsWellBound(db) && StatesAgree(db) && BindingsJoin(db)
    requires Reservable(db, run, item)
    requires TookTargets(db, next, item) && TookPlan(db, next, item)
    requires TookBinding(db, next, run, item)
    ensures StatesAgree(next) && BindingsJoin(next)
  {
    assert BoundToPlan(db, item.target);
    forall k | k in next.bindings
      ensures k in next.targets && BindingMatches(next, k) && next.bindings[k].run in next.runs
    {
      if k != item.target {
        assert BindingMatches(db, k);
      }
    }
  }

  lemma TookKeepsFinals(db: Db, next: Db, run: RunId, item: BindItem)
    requires FinalsMatchPlans(db) && Took(db, next, run, item)
    ensures FinalsMatchPlans(next)
  {
    forall f | f in next.finals
      ensures FinalMatchesPlan(next, f)
    {
      assert FinalMatchesPlan(db, f);
    }
  }

  lemma TookKeepsLedger(db: Db, next: Db, run: RunId, item: BindItem)
    requires LedgerJoined(db) && RevisionCounts(db) && Reservable(db, run, item)
    requires TookTargets(db, next, item) && TookPlan(db, next, item) && TookRows(db, next, item)
    requires next.members == db.members
    ensures LedgerJoined(next) && RevisionCounts(next)
  {
    forall u | u in next.ledger
      ensures RowJoined(next, u, next.ledger[u])
    {
      assert RowJoined(db, u, db.ledger[u]);
      TookKeepsRow(db, next, run, item, u);
    }
    assert next.ledger == map[] <==> next.ledger.Keys == {};
  }

  lemma TookKeepsRow(db: Db, next: Db, run: RunId, item: BindItem, u: UserId)
    requires u in db.ledger && RowJoined(db, u, db.ledger[u]) && Reservable(db, run, item)
    requires TookTargets(db, next, item) && TookPlan(db, next, item) && TookRows(db, next, item)
    requires next.members == db.members
    ensures RowJoined(next, u, next.ledger[u])
  {
  }

  lemma TookKeepsActivity(db: Db, next: Db, run: RunId, item: BindItem, k: TargetKey)
    requires Reservable(db, run, item) && k in db.targets
    requires TookTargets(db, next, item) && TookBinding(db, next, run, item)
    ensures TargetActive(next, k) ==> TargetActive(db, k)
    ensures k != item.target ==> TargetActive(next, k) == TargetActive(db, k)
  {
  }

  lemma TookKeepsCovered(db: Db, next: Db, run: RunId, item: BindItem)
    requires LedgerJoined(db) && Covered(db) && Reservable(db, run, item)
    requires Took(db, next, run, item)
    ensures Covered(next)
  {
    forall k | k in next.targets && Holds(next, k)
      ensures forall u <- MembersOf(next, next.targets[k].snapshot.value) ::
                u in next.ledger && next.ledger[u].target == k
    {
      TookKeepsActivity(db, next, run, item, k);
      assert Holds(db, k);
      TookKeepsUsers(db, next, item, k);
    }
  }

  lemma TookKeepsUsers(db: Db, next: Db, item: BindItem, k: TargetKey)
    requires k in db.targets && db.targets[k].snapshot.Some?
    requires TookTargets(db, next, item) && TookRows(db, next, item) && next.members == db.members
    requires forall u <- MembersOf(db, db.targets[k].snapshot.value) :: u in db.ledger && db.ledger[u].target == k
    ensures next.targets[k].snapshot == db.targets[k].snapshot
    ensures forall u <- MembersOf(next, next.targets[k].snapshot.value) ::
              u in next.ledger && next.ledger[u].target == k
  {
  }

  lemma TookKeepsInv(db: Db, next: Db, run: RunId, item: BindItem)
    requires Inv(db) && Reservable(db, run, item) && Took(db, next, run, item)
    ensures Inv(next)
  {
    TookKeepsTargets(db, next, item);
    TookKeepsStates(db, next, run, item);
    TookKeepsFinals(db, next, run, item);
    TookKeepsLedger(db, next, run, item);
    TookKeepsCovered(db, next, run, item);
  }

  lemma OtherItemStaysReservable(db: Db, run: RunId, item: BindItem, other: BindItem)
    requires Reservable(db, run, other) && other.target != item.target
    ensures Reservable(ConsumeOne(db, run, item), run, other)
  {
  }

  lemma {:induction false} OtherStaysReservable(db: Db, run: RunId, items: seq<BindItem>,
                                                other: BindItem)
    requires Reservable(db, run, other)
    requires forall i :: 0 <= i < |items| ==> items[i].target != other.target
    ensures Reservable(ConsumeAll(db, run, items), run, other)
  {
    if items != [] {
      var front, last := items[..|items| - 1], items[|items| - 1];
      OtherStaysReservable(db, run, front, other);
      OtherItemStaysReservable(ConsumeAll(db, run, front), run, last, other);
    }
  }

  ghost predicate Consumable(db: Db, run: RunId, items: seq<BindItem>) {
    DistinctItems(items) && forall i :: 0 <= i < |items| ==> Reservable(db, run, items[i])
  }

  lemma LastStaysReservable(db: Db, run: RunId, items: seq<BindItem>)
    requires items != [] && Consumable(db, run, items)
    ensures Consumable(db, run, items[..|items| - 1])
    ensures Reservable(ConsumeAll(db, run, items[..|items| - 1]), run, items[|items| - 1])
  {
    OtherStaysReservable(db, run, items[..|items| - 1], items[|items| - 1]);
  }

  /** Consuming the items one after the other keeps the invariant at every step. */
  lemma {:induction false} ConsumeAllKeepsInv(db: Db, run: RunId, items: seq<BindItem>)
    requires Inv(db) && Consumable(db, run, items)
    ensures Inv(ConsumeAll(db, run, items))
  {
    if items != [] {
      var front, last := items[..|items| - 1], items[|items| - 1];
      LastStaysReservable(db, run, items);
      ConsumeAllKeepsInv(db, run, front);
      ConsumeOneKeepsInv(ConsumeAll(db, run, front), run, last);
    }
  }

  lemma ConsumeOneKeepsInv(db: Db, run: RunId, item: BindItem)
    requires Inv(db) && Reservable(db, run, item)
    ensures Inv(ConsumeOne(db, run, item))
  {
    ConsumeOneTakes(db, run, item);
    TookKeepsInv(db, ConsumeOne(db, run, item), run, item);
  }

  lemma BumpKeepsInv(db: Db)
    requires Inv(db) && db.ledger != map[]
    ensures Inv(Bump(db))
  {
    var next := Bump(db);
    forall p | p in next.plans
      ensures PlanComplete(next, p)
    {
      assert PlanComplete(db, p);
    }
    BumpKeepsRows(db);
  }

  lemma BumpKeepsRows(db: Db)
    requires LedgerJoined(db) && Covered(db) && FinalsMatchPlans(db)
    ensures LedgerJoined(Bump(db)) && Covered(Bump(db)) && FinalsMatchPlans(Bump(db))
  {
    var next := Bump(db);
    forall u | u in next.ledger
      ensures RowJoined(next, u, next.ledger[u])
    {
      assert RowJoined(db, u, db.ledger[u]);
    }
    forall f | f in next.finals
      ensures FinalMatchesPlan(next, f)
    {
      assert FinalMatchesPlan(db, f);
    }
    forall k | k in next.targets && Holds(next, k)
      ensures forall u <- MembersOf(next, next.targets[k].snapshot.value) ::
                u in next.ledger && next.ledger[u].target == k
    {
      assert Holds(db, k);
    }
  }

  lemma {:induction false} PendingAreItems(db: Db, items: seq<BindItem>)
    ensures forall item :: item in PendingItems(db, items)
              <==> item in items && item.target !in db.bindings
    ensures DistinctItems(items) ==> DistinctItems(PendingItems(db, items))
  {
    if items != [] {
      var front, last := items[..|items| - 1], items[|items| - 1];
      assert items == front + [last];
      PendingAreItems(db, front);
      if DistinctItems(items) {
        PendingStayDistinct(db, front, last);
      }
    }
  }

  lemma PendingStayDistinct(db: Db, front: seq<BindItem>, last: BindItem)
    requires DistinctItems(front + [last])
    requires forall item :: item in PendingItems(db, front) ==> item in front
    requires DistinctItems(PendingItems(db, front))
    ensures DistinctItems(PendingItems(db, front) + [last])
  {
    var all, kept := front + [last], PendingItems(db, front);
    forall i | 0 <= i < |kept|
      ensures kept[i].target.segment != last.target.segment
    {
      assert kept[i] in front;
      var j :| 0 <= j < |front| && front[j] == kept[i];
      assert all[j].target.segment != all[|front|].target.segment;
    }
  }

  /** A bind that passed its checks keeps the invariant, whether or not it then commits. */
  lemma BindKeepsInv(db: Db, run: RunId, items: seq<BindItem>)
    requires Inv(db) && DistinctItems(items)
    requires forall item :: item in items ==> ItemAccepted(db, run, item)
    ensures Inv(BindWrites(db, run, items))
  {
    var pending := PendingItems(db, items);
    if pending != [] {
      AcceptedIsConsumable(db, run, items);
      BumpKeepsInv(db);
      ConsumeAllKeepsInv(Bump(db), run, pending);
    }
  }

  lemma AcceptedIsConsumable(db: Db, run: RunId, items: seq<BindItem>)
    requires DistinctItems(items) && PendingItems(db, items) != []
    requires forall item :: item in items ==> ItemAccepted(db, run, item)
    ensures db.ledger != map[]
    ensures Consumable(Bump(db), run, PendingItems(db, items))
  {
    var pending := PendingItems(db, items);
    PendingAreItems(db, items);
    assert pending[0] in pending && ItemAccepted(db, run, pending[0]);
    LedgerOfAccepted(db, run, pending[0]);
    forall i | 0 <= i < |pending|
      ensures Reservable(Bump(db), run, pending[i])
    {
      assert pending[i] in pending && ItemAccepted(db, run, pending[i]);
    }
  }

  lemma LedgerOfAccepted(db: Db, run: RunId, item: BindItem)
    requires ItemAccepted(db, run, item)
    ensures db.ledger != map[]
  {
    var rows := RowsNaming(db, item, db.targets[item.target].state.value);
    assert |rows| > 0;
    var u :| u in rows;
  }
}
