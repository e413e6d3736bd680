/** Which bindings are accepted on reachable tables, and what binding has written, column by column. */
module BoundColumns {
  import opened Wrappers
  import opened AudienceTables
  import opened SetSizes
  import opened WinnerSelection
  import opened AllocationProtocol
  import opened AllocationInvariant
  import opened ReleaseInvariant
  import opened BindInvariant
  import opened ConfirmTheorems
  import opened CoherentInvariant
  import opened ReservationRuns
  import opened RetryTheorems

  // ---------------------------------------------------------------------------
  // Every ledger row is of a member of the snapshot that it names
  // ---------------------------------------------------------------------------

  ghost predicate RowsListed(db: Db) {
    forall u <- db.ledger :: Listed(db, u, db.ledger[u])
  }

  predicate Listed(db: Db, u: UserId, row: LedgerRow) {
    row.snapshot in db.members && u in db.members[row.snapshot]
  }

  /** Rows keep their snapshot, and snapshots their members. */
  lemma ListedStays(db: Db, next: Db)
    requires RowsListed(db) && Frozen(db, next) && next.ledger.Keys == db.ledger.Keys
    requires forall u <- db.ledger :: next.ledger[u].snapshot == db.ledger[u].snapshot
    ensures RowsListed(next)
  {
    forall u | u in next.ledger
      ensures Listed(next, u, next.ledger[u])
    {
      assert Listed(db, u, db.ledger[u]);
    }
  }

  lemma WriteLists(db: Db, next: Db, c: Write)
    requires RowsListed(db) && WroteFinals(db, next, c) && WroteLedger(db, next, c)
    ensures RowsListed(next)
  {
    forall u | u in next.ledger
      ensures Listed(next, u, next.ledger[u])
    {
      if u in c.w {
        assert NewFinal(next, FinalSnapshot(c.plan, c.w[u].segment), c);
        assert u in SegmentUsers(c.w, c.w[u].segment);
      } else {
        assert Listed(db, u, db.ledger[u]);
      }
    }
  }

  lemma ConfirmLists(db: Db, limit: nat, req: Request)
    requires FinalsMatchPlans(db) && RowsListed(db)
    ensures RowsListed(Confirm(db, limit, req).0)
  {
    if CommitsFresh(db, limit, req) {
      FreshCommitWrites(db, limit, req);
      var path := Path(db, limit, req);
      var mid := Commit(db, req.analysis, req.minimum, path.batch, path.sources);
      WriteLists(db, mid, FreshWrite(db, limit, req));
      ListedIgnoresPreviews(mid, Confirm(db, limit, req).0);
    } else {
      UncommittedChangesNothing(db, limit, req);
    }
  }

  lemma ListedIgnoresPreviews(a: Db, b: Db)
    requires SameReservations(a, b) && RowsListed(a)
    ensures RowsListed(b)
  {
    forall u | u in b.ledger
      ensures Listed(b, u, b.ledger[u])
    {
      assert Listed(a, u, a.ledger[u]);
    }
  }

  lemma ReleaseLists(db: Db, limit: nat, k: TargetKey, entire: bool)
    requires RowsListed(db)
    ensures RowsListed(Release(db, limit, k, entire).0)
  {
    ReleaseFreezes(db, limit, k, entire);
    ReleaseStepWrites(db, limit, k, entire);
    ListedStays(db, Release(db, limit, k, entire).0);
  }

  lemma {:induction false} ConsumeAllKeepsSnapshots(db: Db, run: RunId, items: seq<BindItem>)
    ensures var next := ConsumeAll(db, run, items);
            && next.ledger.Keys == db.ledger.Keys
            && forall u <- db.ledger :: next.ledger[u].snapshot == db.ledger[u].snapshot
  {
    if items != [] {
      ConsumeAllKeepsSnapshots(db, run, items[..|items| - 1]);
    }
  }

  lemma BindLists(db: Db, run: RunId, items: seq<BindItem>)
    requires RowsListed(db)
    ensures RowsListed(BindRun(db, run, items).0)
  {
    BindFreezes(db, run, items);
    ConsumeAllKeepsSnapshots(Bump(db), run, PendingItems(db, items));
    ListedStays(db, BindRun(db, run, items).0);
  }

  lemma StepLists(db: Db, limit: nat, step: Step)
    requires FinalsMatchPlans(db) && RowsListed(db) && Permitted(db, limit, step)
    ensures RowsListed(Next(db, limit, step))
  {
    match step
    case ConfirmStep(req) => ConfirmLists(db, limit, req);
    case ReleaseStep(k, entire) => ReleaseLists(db, limit, k, entire);
    case BindStep(run, items) => BindLists(db, run, items);
    case SurroundingStep(after) => ListedStays(db, after);
  }

  /** After every run from tables that are in order each ledger row is of a listed member. */
  lemma {:induction false} RunLists(db: Db, limit: nat, steps: seq<Step>)
    requires Coherent(db) && RowsListed(db) && PermittedRun(db, limit, steps)
    ensures RowsListed(After(db, limit, steps))
  {
    if steps != [] {
      var front := steps[..|steps| - 1];
      RunLists(db, limit, front);
      RunKeepsCoherent(db, limit, front);
      StepLists(After(db, limit, front), limit, steps[|steps| - 1]);
    }
  }

  // ---------------------------------------------------------------------------
  // Which items are accepted
  // ---------------------------------------------------------------------------

  /** Every member of the snapshot still has a ledger row of this very target, in its state. */
  predicate OwnsMembers(db: Db, k: TargetKey, plan: PlanId, snapshot: SnapshotId)
    requires k in db.targets
  {
    snapshot in db.members && forall u <- db.members[snapshot] ::
      && u in db.ledger && db.ledger[u].target == k && db.ledger[u].plan == plan
      && db.ledger[u].snapshot == snapshot && db.targets[k].state == Some(db.ledger[u].state)
  }

  /** The item names the target's own plan and snapshot, and no other run has bound it. */
  predicate MayBind(db: Db, run: RunId, item: BindItem) {
    && item.target in db.targets
    && db.targets[item.target].plan == Some(item.plan)
    && db.targets[item.target].snapshot == Some(item.snapshot)
    && (if item.target in db.bindings then db.bindings[item.target].run == run
        else db.targets[item.target].state == Some(Reserved) && run in db.runs)
  }

  /** The rows that name the item, in the target's state. */
  ghost predicate AreRowsOf(db: Db, item: BindItem, rows: set<UserId>)
    requires item.target in db.targets
  {
    forall u :: u in rows
                <==> && u in db.ledger && db.ledger[u].target == item.target
                     && db.ledger[u].plan == item.plan && db.ledger[u].snapshot == item.snapshot
                     && db.targets[item.target].state == Some(db.ledger[u].state)
  }

  /** What the validation looks at, whatever the tables are. */
  ghost predicate PassesValidation(db: Db, run: RunId, item: BindItem) {
    && MayBind(db, run, item) && db.targets[item.target].state.Some?
    && (item.target in db.bindings ==>
          db.bindings[item.target].plan == item.plan && db.bindings[item.target].snapshot == item.snapshot)
    && item.plan in db.plans && db.plans[item.plan].status in {Finalized, Locked}
    && item.snapshot in db.finals && db.finals[item.snapshot].plan == item.plan
    && db.finals[item.snapshot].userCount > 0
    && item.snapshot in db.members && |db.members[item.snapshot]| == db.finals[item.snapshot].userCount
    && exists rows :: AreRowsOf(db, item, rows) && |rows| == db.finals[item.snapshot].userCount
                      && db.members[item.snapshot].Keys <= rows
  }

  lemma ValidationOnAnyTables(db: Db, run: RunId, item: BindItem)
    ensures ItemAccepted(db, run, item) <==> PassesValidation(db, run, item)
  {
    if item.target in db.targets && db.targets[item.target].state.Some? {
      var rows := RowsNaming(db, item, db.targets[item.target].state.value);
      assert AreRowsOf(db, item, rows);
      forall other | AreRowsOf(db, item, other)
        ensures other == rows
      {
      }
    }
  }

  lemma HeldRows(db: Db, item: BindItem, state: Reservation)
    requires RowsListed(db) && FinalsMatchPlans(db)
    requires item.target in db.targets && db.targets[item.target].state == Some(state)
    requires item.snapshot in db.finals && db.finals[item.snapshot].plan == item.plan
    ensures item.plan in db.plans ==>
              (FullyHeld(db, item, state)
               <==> OwnsMembers(db, item.target, item.plan, item.snapshot))
  {
    assert FinalMatchesPlan(db, item.snapshot);
    var members, rows := db.members[item.snapshot].Keys, RowsNaming(db, item, state);
    forall u | u in rows
      ensures u in members
    {
      assert Listed(db, u, db.ledger[u]);
    }
    assert |db.members[item.snapshot]| == |members|;
    if OwnsMembers(db, item.target, item.plan, item.snapshot) {
      assert rows == members;
    }
  }

  /**
   On reachable tables an item is accepted exactly when it names what its target is bound to, no other
   run has it, and every member of the snapshot still has a ledger row of the target.
   */
  lemma AcceptedIff(db: Db, run: RunId, item: BindItem)
    requires Coherent(db) && RowsListed(db)
    ensures ItemAccepted(db, run, item)
       <==> MayBind(db, run, item) && OwnsMembers(db, item.target, item.plan, item.snapshot)
  {
    if item.target in db.targets && db.targets[item.target].plan == Some(item.plan)
       && db.targets[item.target].snapshot == Some(item.snapshot) {
      assert BoundToPlan(db, item.target);
      CoherentSnapshotStored(db, item.target);
      assert FinalMatchesPlan(db, item.snapshot);
      HeldRows(db, item, db.targets[item.target].state.value);
      BoundIsConsumed(db, item);
    }
  }

  lemma BoundIsConsumed(db: Db, item: BindItem)
    requires TargetsWellBound(db) && StatesAgree(db) && BindingsJoin(db)
    requires item.target in db.targets && db.targets[item.target].plan == Some(item.plan)
    requires db.targets[item.target].snapshot == Some(item.snapshot) && item.plan in db.plans
    ensures item.target in db.bindings ==>
              && db.bindings[item.target].plan == item.plan
              && db.bindings[item.target].snapshot == item.snapshot
              && Live(db.plans[item.plan])
    ensures db.targets[item.target].state == Some(Reserved) ==> Live(db.plans[item.plan])
  {
    if item.target in db.bindings {
      assert BindingMatches(db, item.target);
    }
  }

  /** For a target that is not stopped, and not of a run that is over, the members are its own. */
  lemma LiveAcceptedIff(db: Db, run: RunId, item: BindItem)
    requires Coherent(db) && RowsListed(db)
    requires item.target in db.targets && TargetActive(db, item.target)
    ensures ItemAccepted(db, run, item) <==> MayBind(db, run, item)
  {
    AcceptedIff(db, run, item);
    if MayBind(db, run, item) {
      assert BoundToPlan(db, item.target);
      CoherentSnapshotStored(db, item.target);
      assert Holds(db, item.target);
      forall u | u in db.members[item.snapshot]
        ensures HeldBy(db, item.target, u)
      {
        assert u in MembersOf(db, db.targets[item.target].snapshot.value);
      }
    }
  }

  // ---------------------------------------------------------------------------
  // What binding has written
  // ---------------------------------------------------------------------------

  /** The item's target was bound to no run yet. */
  predicate IsNew(db: Db, items: seq<BindItem>, item: BindItem) {
    item in items && item.target !in db.bindings
  }

  ghost predicate RowWritten(db: Db, next: Db, items: seq<BindItem>, u: UserId) {
    && (u in next.ledger <==> u in db.ledger)
    && (u in db.ledger ==>
          var row := db.ledger[u];
          if row.state == Reserved
             && IsNew(db, items, BindItem(row.target, row.plan, row.snapshot)) then
            next.ledger[u] == LedgerRow(row.target, row.plan, row.snapshot, Consumed, next.revision)
          else next.ledger[u] == row)
  }

  ghost predicate TargetTaken(db: Db, next: Db, items: seq<BindItem>, k: TargetKey) {
    && (k in next.targets <==> k in db.targets)
    && (k in db.targets ==>
          var t := db.targets[k];
          if exists item :: IsNew(db, items, item) && item.target == k then
            next.targets[k] == Target(t.stopped, t.snapshot, t.plan, Some(Consumed))
          else next.targets[k] == t)
  }

  ghost predicate BindingStored(db: Db, next: Db, run: RunId, items: seq<BindItem>, k: TargetKey) {
    && (k in next.bindings <==>
          k in db.bindings || exists item :: IsNew(db, items, item) && item.target == k)
    && (k in db.bindings ==> next.bindings[k] == db.bindings[k])
    && (forall item :: IsNew(db, items, item) && item.target == k ==>
          k in next.bindings && next.bindings[k] == Binding(run, item.plan, item.snapshot))
  }

  ghost predicate PlanLocked(db: Db, next: Db, items: seq<BindItem>, p: PlanId) {
    && (p in next.plans <==> p in db.plans)
    && (p in db.plans ==>
          var plan := db.plans[p];
          if plan.status == Finalized && exists item :: IsNew(db, items, item) && item.plan == p then
            next.plans[p] == Plan(plan.target, plan.batch, plan.segments, plan.revision, Locked)
          else next.plans[p] == plan)
  }

  /** The new items' rows, targets, plans and bindings; with no new item nothing moves at all. */
  ghost predicate BoundNew(db: Db, next: Db, run: RunId, items: seq<BindItem>) {
    && next.revision == (if exists item :: IsNew(db, items, item) then db.revision + 1
                         else db.revision)
    && (forall u :: RowWritten(db, next, items, u))
    && (forall k :: TargetTaken(db, next, items, k))
    && (forall k :: BindingStored(db, next, run, items, k))
    && (forall p :: PlanLocked(db, next, items, p))
    && next.finals == db.finals && next.members == db.members && next.runs == db.runs
    && next.definitions == db.definitions && next.suggestions == db.suggestions
    && next.previews == db.previews
  }

  // ---------------------------------------------------------------------------
  // One item after another
  // ---------------------------------------------------------------------------

  ghost predicate RowTaken(db: Db, next: Db, items: seq<BindItem>, u: UserId)
    requires u in db.ledger && u in next.ledger
  {
    var row := db.ledger[u];
    next.ledger[u]
    == if row.state == Reserved && BindItem(row.target, row.plan, row.snapshot) in items
       then LedgerRow(row.target, row.plan, row.snapshot, Consumed, db.revision) else row
  }

  ghost predicate RowsTaken(db: Db, next: Db, items: seq<BindItem>) {
    next.ledger.Keys == db.ledger.Keys && forall u <- db.ledger :: RowTaken(db, next, items, u)
  }

  lemma {:induction false} ConsumeAllTakesRows(db: Db, run: RunId, items: seq<BindItem>)
    ensures RowsTaken(db, ConsumeAll(db, run, items), items)
    ensures ConsumeAll(db, run, items).revision == db.revision
  {
    if items != [] {
      var front, last := items[..|items| - 1], items[|items| - 1];
      ConsumeAllTakesRows(db, run, front);
      assert items == front + [last];
      var mid, next := ConsumeAll(db, run, front), ConsumeAll(db, run, items);
      forall u | u in db.ledger
        ensures RowTaken(db, next, items, u)
      {
        assert RowTaken(db, mid, front, u);
        assert Names(db.ledger[u], last)
          <==> BindItem(db.ledger[u].target, db.ledger[u].plan, db.ledger[u].snapshot) == last;
      }
    }
  }

  ghost predicate TargetsTaken(db: Db, next: Db, items: seq<BindItem>) {
    && next.targets.Keys == db.targets.Keys
    && forall k <- db.targets ::
         var t := db.targets[k];
         next.targets[k] == if exists item :: item in items && item.target == k
                            then Target(t.stopped, t.snapshot, t.plan, Some(Consumed)) else t
  }

  lemma {:induction false} ConsumeAllTakesTargets(db: Db, run: RunId, items: seq<BindItem>)
    requires Consumable(db, run, items)
    ensures TargetsTaken(db, ConsumeAll(db, run, items), items)
  {
    if items != [] {
      var front, last := items[..|items| - 1], items[|items| - 1];
      LastStaysReservable(db, run, items);
      ConsumeAllTakesTargets(db, run, front);
      assert items == front + [last];
      LastTargetTaken(db, ConsumeAll(db, run, front), run, front, last, items);
    }
  }

  lemma LastTargetTaken(db: Db, mid: Db, run: RunId, front: seq<BindItem>, last: BindItem,
                        items: seq<BindItem>)
    requires TargetsTaken(db, mid, front) && Reservable(mid, run, last) && items == front + [last]
    ensures TargetsTaken(db, ConsumeOne(mid, run, last), items)
  {
    forall k | k in db.targets
      ensures (exists item :: item in items && item.target == k)
         <==> (exists item :: item in front && item.target == k) || last.target == k
    {
      if item :| item in items && item.target == k {
        assert item in front || item == last;
      }
      if item :| item in front && item.target == k {
        assert item in items;
      }
      assert last in items;
    }
  }

  ghost predicate BindingsTaken(db: Db, next: Db, run: RunId, items: seq<BindItem>) {
    && (forall k :: k in next.bindings <==> k in db.bindings || exists item :: item in items && item.target == k)
    && (forall item :: item in items ==>
          item.target in next.bindings
          && next.bindings[item.target] == Binding(run, item.plan, item.snapshot))
    && (forall k <- db.bindings :: next.bindings[k] == db.bindings[k])
  }

  lemma {:induction false} ConsumeAllTakesBindings(db: Db, run: RunId, items: seq<BindItem>)
    requires Consumable(db, run, items)
    ensures BindingsTaken(db, ConsumeAll(db, run, items), run, items)
  {
    if items != [] {
      var front, last := items[..|items| - 1], items[|items| - 1];
      LastStaysReservable(db, run, items);
      ConsumeAllTakesBindings(db, run, front);
      assert items == front + [last];
      LastBindingTaken(db, ConsumeAll(db, run, front), run, front, last, items);
    }
  }

  lemma LastBindingTaken(db: Db, mid: Db, run: RunId, front: seq<BindItem>, last: BindItem,
                         items: seq<BindItem>)
    requires BindingsTaken(db, mid, run, front) && Reservable(mid, run, last)
    requires items == front + [last]
    ensures BindingsTaken(db, ConsumeOne(mid, run, last), run, items)
  {
    forall item | item in front
      ensures item.target != last.target
    {
      assert item.target in mid.bindings;
    }
    assert forall item :: item in items <==> item in front || item == last;
  }

  ghost predicate PlansTaken(db: Db, next: Db, items: seq<BindItem>) {
    && next.plans.Keys == db.plans.Keys
    && forall p <- db.plans ::
         var plan := db.plans[p];
         next.plans[p] == if plan.status == Finalized && exists item :: item in items && item.plan == p
                          then Plan(plan.target, plan.batch, plan.segments, plan.revision, Locked)
                          else plan
  }

  lemma {:induction false} ConsumeAllTakesPlans(db: Db, run: RunId, items: seq<BindItem>)
    ensures PlansTaken(db, ConsumeAll(db, run, items), items)
  {
    if items != [] {
      var front, last := items[..|items| - 1], items[|items| - 1];
      ConsumeAllTakesPlans(db, run, front);
      assert items == front + [last];
      assert forall item :: item in items <==> item in front || item == last;
    }
  }

  lemma {:induction false} ConsumeAllKeepsRest(db: Db, run: RunId, items: seq<BindItem>)
    ensures var next := ConsumeAll(db, run, items);
            && next.finals == db.finals && next.members == db.members && next.runs == db.runs
            && next.definitions == db.definitions && next.suggestions == db.suggestions
            && next.previews == db.previews
  {
    if items != [] {
      ConsumeAllKeepsRest(db, run, items[..|items| - 1]);
    }
  }

  /** Only the items that are not bound yet are written. */
  lemma {:induction false} PendingAreNew(db: Db, items: seq<BindItem>)
    ensures forall item :: item in PendingItems(db, items) <==> IsNew(db, items, item)
  {
    if items != [] {
      var front, last := items[..|items| - 1], items[|items| - 1];
      PendingAreNew(db, front);
      assert items == front + [last];
      assert forall item :: item in items <==> item in front || item == last;
    }
  }

  lemma TakenIsBound(db: Db, next: Db, run: RunId, items: seq<BindItem>, pending: seq<BindItem>)
    requires forall item :: item in pending <==> IsNew(db, items, item)
    requires pending != [] && next.revision == db.revision + 1
    requires RowsTaken(Bump(db), next, pending) && TargetsTaken(Bump(db), next, pending)
    requires BindingsTaken(Bump(db), next, run, pending) && PlansTaken(Bump(db), next, pending)
    requires next.finals == db.finals && next.members == db.members && next.runs == db.runs
    requires next.definitions == db.definitions && next.suggestions == db.suggestions
    requires next.previews == db.previews
    ensures BoundNew(db, next, run, items)
  {
    assert IsNew(db, items, pending[0]);
    forall u
      ensures RowWritten(db, next, items, u)
    {
      if u in db.ledger {
        assert RowTaken(Bump(db), next, pending, u);
      }
    }
    forall k
      ensures TargetTaken(db, next, items, k)
    {
    }
    forall p
      ensures PlanLocked(db, next, items, p)
    {
    }
  }

  /** A binding that succeeds has written exactly these columns, for the items that were new. */
  lemma BindWroteColumns(db: Db, run: RunId, items: seq<BindItem>)
    requires BindRun(db, run, items).1.Done?
    ensures BoundNew(db, BindRun(db, run, items).0, run, items)
  {
    BindStepWrites(db, run, items);
    PendingAreNew(db, items);
    var pending := PendingItems(db, items);
    if pending == [] {
      NothingNew(db, run, items);
    } else {
      AcceptedIsConsumable(db, run, items);
      ConsumeAllTakesRows(Bump(db), run, pending);
      ConsumeAllTakesTargets(Bump(db), run, pending);
      ConsumeAllTakesBindings(Bump(db), run, pending);
      ConsumeAllTakesPlans(Bump(db), run, pending);
      ConsumeAllKeepsRest(Bump(db), run, pending);
      TakenIsBound(db, ConsumeAll(Bump(db), run, pending), run, items, pending);
    }
  }

  lemma NothingNew(db: Db, run: RunId, items: seq<BindItem>)
    requires forall item :: !IsNew(db, items, item)
    ensures BoundNew(db, db, run, items)
  {
  }
}
