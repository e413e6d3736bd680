/**
 What every confirmation, release and binding keeps, whether or not the confirmation could bind its
 target rows.
 */
module CoherentInvariant {
  import opened Wrappers
  import opened AudienceTables
  import opened SetSizes
  import opened WinnerSelection
  import opened AllocationProtocol
  import opened AllocationInvariant
  import opened ReleaseInvariant
  import opened BindInvariant
  import opened ConfirmTheorems

  lemma InitiallyCoherent()
    ensures Coherent(EMPTY_DB)
  {
  }

  lemma CoherentSnapshotStored(db: Db, k: TargetKey)
    requires TargetsWellBound(db) && PlansNumbered(db) && FinalsMatchPlans(db)
    requires k in db.targets && !db.targets[k].Unbound()
    ensures db.targets[k].snapshot.Some?
    ensures db.targets[k].snapshot.value in db.finals && db.targets[k].snapshot.value in db.members
  {
    assert BoundToPlan(db, k);
    assert FinalMatchesPlan(db, db.targets[k].snapshot.value);
  }

  // ---------------------------------------------------------------------------
  // Confirmation
  // ---------------------------------------------------------------------------

  lemma WroteKeepsNumbers(db: Db, next: Db, c: Write)
    requires PlansNumbered(db) && RevisionsApart(db) && RowsNamePlans(db)
    requires WrotePlan(db, next, c) && WroteLedger(db, next, c)
    ensures PlansNumbered(next) && RevisionsApart(next) && RowsNamePlans(next)
  {
  }

  /** A user held by a live target is excluded, so the row stays the target's own. */
  lemma HeldRowStays(db: Db, next: Db, c: Write, k: TargetKey, u: UserId)
    requires k in db.targets && Holds(db, k) && HeldBy(db, k, u)
    requires k in next.targets && next.targets[k] == db.targets[k]
    requires WroteLedger(db, next, c)
    ensures HeldBy(next, k, u)
  {
    assert Excluded(db, u);
  }

  lemma OldTargetKeepsAudience(db: Db, next: Db, c: Write, k: TargetKey)
    requires TargetsWellBound(db) && PlansNumbered(db) && FinalsMatchPlans(db) && AllHeld(db)
    requires WroteTargets(db, next, c) && RunsSame(db, next)
    requires WroteFinals(db, next, c) && WroteLedger(db, next, c)
    requires k in db.targets && !db.targets[k].Unbound()
    requires k in next.targets && Holds(next, k)
    ensures AudienceHeld(next, k)
  {
    WroteTargetOnce(db, next, c, k);
    ActivitySame(db, next, k);
    CoherentSnapshotStored(db, k);
    forall u | u in MembersOf(next, next.targets[k].snapshot.value)
      ensures HeldBy(next, k, u)
    {
      HeldRowStays(db, next, c, k, u);
    }
  }

  lemma NewTargetHoldsAudience(db: Db, next: Db, c: Write, k: TargetKey)
    requires WroteTargets(db, next, c) && WroteFinals(db, next, c) && WroteLedger(db, next, c)
    requires k in next.targets && Holds(next, k)
    requires k in db.targets ==> db.targets[k].Unbound()
    ensures AudienceHeld(next, k)
  {
    assert NewFinal(next, FinalSnapshot(c.plan, k.segment), c);
    forall u | u in MembersOf(next, next.targets[k].snapshot.value)
      ensures HeldBy(next, k, u)
    {
      assert u in SegmentUsers(c.w, k.segment);
    }
  }

  lemma WroteKeepsHeld(db: Db, next: Db, c: Write)
    requires TargetsWellBound(db) && PlansNumbered(db) && FinalsMatchPlans(db) && AllHeld(db)
    requires WroteTargets(db, next, c) && RunsSame(db, next)
    requires WroteFinals(db, next, c) && WroteLedger(db, next, c)
    ensures AllHeld(next)
  {
    forall k | k in next.targets && Holds(next, k)
      ensures AudienceHeld(next, k)
    {
      if k in db.targets && !db.targets[k].Unbound() {
        OldTargetKeepsAudience(db, next, c, k);
      } else {
        NewTargetHoldsAudience(db, next, c, k);
      }
    }
  }

  /** A confirmation's writes keep coherence, also when an UPDATE of a target row matches nothing. */
  lemma WroteKeepsCoherent(db: Db, next: Db, c: Write)
    requires Coherent(db) && Wrote(db, next, c)
    ensures Coherent(next)
  {
    WroteKeepsTargets(db, next, c);
    WroteKeepsFinals(db, next, c);
    WroteKeepsStates(db, next, c);
    WroteKeepsNumbers(db, next, c);
    WroteKeepsHeld(db, next, c);
  }

  // ---------------------------------------------------------------------------
  // Release
  // ---------------------------------------------------------------------------

  lemma GaveBackKeepsBound(db: Db, next: Db, plan: PlanId)
    requires TargetsWellBound(db) && PlansNumbered(db) && RowsNamePlans(db) && plan in db.plans
    requires GaveTargets(db, next, plan) && GavePlan(db, next, plan) && GaveRows(db, next, plan)
    ensures TargetsWellBound(next) && PlansNumbered(next) && RowsNamePlans(next)
  {
    forall k | k in next.targets && !next.targets[k].Unbound()
      ensures BoundToPlan(next, k)
    {
      assert BoundToPlan(db, k);
    }
  }

  lemma GaveBackKeepsHeld(db: Db, next: Db, plan: PlanId)
    requires AllHeld(db) && GaveBack(db, next, plan)
    ensures AllHeld(next)
  {
    forall k | k in next.targets && Holds(next, k)
      ensures AudienceHeld(next, k)
    {
      assert next.targets[k] == db.targets[k];
      ActivitySame(db, next, k);
      assert Holds(db, k);
      forall u | u in MembersOf(next, next.targets[k].snapshot.value)
        ensures HeldBy(next, k, u)
      {
        assert HeldBy(db, k, u);
      }
    }
  }

  lemma ReleaseKeepsCoherent(db: Db, k: TargetKey, entire: bool)
    requires Coherent(db) && Releasable(db, k, entire)
    ensures k in db.targets && db.targets[k].plan.Some? && db.targets[k].plan.value in db.plans
    ensures Coherent(AfterRelease(db, k, entire))
  {
    ReleaseGivesBack(db, k, entire);
    var plan, next := db.targets[k].plan.value, AfterRelease(db, k, entire);
    GaveBackKeepsBound(db, next, plan);
    GaveBackKeepsStates(db, next, plan);
    GaveBackKeepsFinals(db, next, plan);
    GaveBackKeepsHeld(db, next, plan);
  }

  // ---------------------------------------------------------------------------
  // Binding
  // ---------------------------------------------------------------------------

  lemma TookKeepsBound(db: Db, next: Db, item: BindItem)
    requires TargetsWellBound(db) && PlansNumbered(db) && RowsNamePlans(db)
    requires item.target in db.targets && db.targets[item.target].plan == Some(item.plan)
    requires TookTargets(db, next, item) && TookPlan(db, next, item) && TookRows(db, next, item)
    ensures TargetsWellBound(next) && PlansNumbered(next) && RowsNamePlans(next)
  {
    forall k | k in next.targets && !next.targets[k].Unbound()
      ensures BoundToPlan(next, k)
    {
      assert BoundToPlan(db, k) || k == item.target;
      assert BoundToPlan(db, item.target);
    }
  }

  lemma TookKeepsHeld(db: Db, next: Db, run: RunId, item: BindItem)
    requires AllHeld(db) && Reservable(db, run, item) && Took(db, next, run, item)
    ensures AllHeld(next)
  {
    forall k | k in next.targets && Holds(next, k)
      ensures AudienceHeld(next, k)
    {
      TookKeepsActivity(db, next, run, item, k);
      assert Holds(db, k);
      forall u | u in MembersOf(next, next.targets[k].snapshot.value)
        ensures HeldBy(next, k, u)
      {
        assert HeldBy(db, k, u);
      }
    }
  }

  lemma ConsumeOneKeepsCoherent(db: Db, run: RunId, item: BindItem)
    requires Coherent(db) && Reservable(db, run, item)
    ensures Coherent(ConsumeOne(db, run, item))
  {
    var next := ConsumeOne(db, run, item);
    ConsumeOneTakes(db, run, item);
    TookKeepsBound(db, next, item);
    TookKeepsStates(db, next, run, item);
    TookKeepsFinals(db, next, run, item);
    TookKeepsHeld(db, next, run, item);
  }

  lemma {:induction false} ConsumeAllKeepsCoherent(db: Db, run: RunId, items: seq<BindItem>)
    requires Coherent(db) && Consumable(db, run, items)
    ensures Coherent(ConsumeAll(db, run, items))
  {
    if items != [] {
      var front, last := items[..|items| - 1], items[|items| - 1];
      LastStaysReservable(db, run, items);
      ConsumeAllKeepsCoherent(db, run, front);
      ConsumeOneKeepsCoherent(ConsumeAll(db, run, front), run, last);
    }
  }

  lemma BumpKeepsHeld(db: Db)
    requires AllHeld(db)
    ensures AllHeld(Bump(db))
  {
    var next := Bump(db);
    forall k | k in next.targets && Holds(next, k)
      ensures AudienceHeld(next, k)
    {
      assert Holds(db, k);
      forall u | u in MembersOf(next, next.targets[k].snapshot.value)
        ensures HeldBy(next, k, u)
      {
        assert HeldBy(db, k, u);
      }
    }
  }

  lemma BumpKeepsCoherent(db: Db)
    requires Coherent(db)
    ensures Coherent(Bump(db))
  {
    var next := Bump(db);
    forall f | f in next.finals
      ensures FinalMatchesPlan(next, f)
    {
      assert FinalMatchesPlan(db, f);
    }
    BumpKeepsHeld(db);
  }

  lemma BindKeepsCoherent(db: Db, run: RunId, items: seq<BindItem>)
    requires Coherent(db) && DistinctItems(items)
    requires forall item :: item in items ==> ItemAccepted(db, run, item)
    ensures Coherent(BindWrites(db, run, items))
  {
    var pending := PendingItems(db, items);
    if pending != [] {
      AcceptedIsConsumable(db, run, items);
      BumpKeepsCoherent(db);
      ConsumeAllKeepsCoherent(Bump(db), run, pending);
    }
  }

  lemma HeldIgnoresPreviews(a: Db, b: Db)
    requires SameReservations(a, b) && AllHeld(a)
    ensures AllHeld(b)
  {
    forall k | k in b.targets && Holds(b, k)
      ensures AudienceHeld(b, k)
    {
      assert Holds(a, k);
      forall u | u in MembersOf(b, b.targets[k].snapshot.value)
        ensures HeldBy(b, k, u)
      {
        assert HeldBy(a, k, u);
      }
    }
  }

  lemma NumbersIgnorePreviews(a: Db, b: Db)
    requires SameReservations(a, b) && PlansNumbered(a) && RowsNamePlans(a)
    ensures PlansNumbered(b) && RowsNamePlans(b)
  {
  }

  lemma CoherentIgnoresPreviews(a: Db, b: Db)
    requires SameReservations(a, b) && Coherent(a)
    ensures Coherent(b)
  {
    PreviewsAreInert(a, b);
    PreviewsAreInertToMembers(a, b);
    HeldIgnoresPreviews(a, b);
    NumbersIgnorePreviews(a, b);
  }
}
