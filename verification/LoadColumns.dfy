/** What a load of the exclusion context decides, writes and returns, column by column. */
module LoadColumns {
  import opened Wrappers
  import opened AudienceTables
  import opened WinnerRanking
  import opened AllocationProtocol
  import opened ProjectionProtocol
  import opened ExclusionProjection

  /** The row names the plan and the snapshot that its target is bound to. */
  predicate NamesItsTarget(db: Db, u: UserId) {
    && u in db.ledger && db.ledger[u].target in db.targets
    && db.targets[db.ledger[u].target].plan == Some(db.ledger[u].plan)
    && db.targets[db.ledger[u].target].snapshot == Some(db.ledger[u].snapshot)
  }

  function CountKeptOut(db: Db): nat {
    |set u | u in db.ledger && KeptOut(db, u)|
  }

  /** The projection lags behind the revision, or shows another number of users. */
  predicate IsDue(db: Db, p: Projection) {
    match p.applied
    case None => db.revision > 0
    case Some(applied) =>
      applied < db.revision || |set u | u in p.rows && p.rows[u].state != Released| != CountKeptOut(db)
  }

  /** What a synchronisation offers for the user: the ledger's row, or a release of this revision. */
  predicate Offers(db: Db, u: UserId, row: ProjectedRow)
    requires u in db.ledger
  {
    row == if LivesOn(db, db.ledger[u].target)
           then ProjectedRow(db.ledger[u].state, db.ledger[u].revision)
           else ProjectedRow(Released, db.revision)
  }

  /** The target is not stopped, and not bound as it stands to a run that is over. */
  predicate LivesOn(db: Db, k: TargetKey) {
    k in db.targets && var t := db.targets[k];
    && !t.stopped
    && !(&& k in db.bindings
         && t.plan == Some(db.bindings[k].plan) && t.snapshot == Some(db.bindings[k].snapshot)
         && (db.bindings[k].run in db.runs ==>
               db.runs[db.bindings[k].run]
               in {GoalMet, GoalNotMet, PartialGoalMet, InsufficientData, Stopped}))
  }

  /** Users whose row joins get what is offered unless a newer row is there; the others stay. */
  ghost predicate Synchronised(db: Db, p: Projection, q: Projection) {
    && (forall u :: u in q.rows <==> u in p.rows || NamesItsTarget(db, u))
    && (forall u <- q.rows ::
          if NamesItsTarget(db, u) then
            exists row :: Offers(db, u, row)
              && q.rows[u] == (if u in p.rows && p.rows[u].revision > row.revision then p.rows[u]
                               else row)
          else q.rows[u] == p.rows[u])
    && q.applied == Some(if p.applied.Some? && p.applied.value > db.revision then p.applied.value
                         else db.revision)
  }

  lemma LivesOnIff(db: Db, k: TargetKey)
    requires k in db.targets
    ensures LivesOn(db, k) <==> TargetActive(db, k)
  {
  }

  lemma OfferIs(db: Db, u: UserId)
    requires u in JoinedUsers(db)
    ensures Offers(db, u, SyncRow(db, u))
  {
    LivesOnIff(db, db.ledger[u].target);
  }

  lemma CountIs(db: Db)
    ensures CountKeptOut(db) == |ActiveUsers(db)|
  {
    forall u ensures KeptOut(db, u) <==> Excluded(db, u) {
      KeptOutIff(db, u);
    }
    assert ActiveUsers(db) == set u | u in db.ledger && KeptOut(db, u);
  }

  lemma DueIff(db: Db, p: Projection)
    ensures NeedsSync(db, p) <==> IsDue(db, p)
  {
    CountIs(db);
    assert ProjectedActive(p.rows) == set u | u in p.rows && p.rows[u].state != Released;
  }

  lemma SyncIs(db: Db, p: Projection)
    ensures forall u :: u in JoinedUsers(db) <==> NamesItsTarget(db, u)
    ensures var applied := if p.applied.Some? && p.applied.value > db.revision then p.applied
                           else Some(db.revision);
            Synchronised(db, p, Projection(SyncedRows(db, p.rows, JoinedUsers(db)), applied))
  {
    var rows := SyncedRows(db, p.rows, JoinedUsers(db));
    forall u | u in rows && NamesItsTarget(db, u)
      ensures Offers(db, u, SyncRow(db, u))
      ensures rows[u] == if u in p.rows && p.rows[u].revision > SyncRow(db, u).revision then p.rows[u]
                         else SyncRow(db, u)
    {
      OfferIs(db, u);
    }
  }

  /**
   On any tables: a load that is not due changes nothing, one that is due raises exactly when there is
   a revision but no row that joins, and otherwise synchronises; it returns revision and count.
   */
  lemma LoadWroteColumns(db: Db, p: Projection)
    ensures var (q, r) := Load(db, p);
            if !IsDue(db, p) then q == p && r == Loaded(Context(db.revision, CountKeptOut(db)))
            else if db.revision > 0 && forall u :: !NamesItsTarget(db, u) then q == p && r == NotReady
            else Synchronised(db, p, q) && r == Loaded(Context(db.revision, CountKeptOut(db)))
  {
    DueIff(db, p);
    CountIs(db);
    SyncIs(db, p);
    SyncActiveIsActive(db);
    if JoinedUsers(db) == {} {
      forall u ensures !NamesItsTarget(db, u) {
        assert u !in JoinedUsers(db);
      }
    } else {
      var u :| u in JoinedUsers(db);
      assert NamesItsTarget(db, u);
    }
  }
}
