/**
 The second store: a projection of the exclusion ledger, resynchronised lazily when a confirmation,
 a release or a refresh loads the exclusion context. Its rows keep the highest revision per user,
 the last write on a tie; a process may die between any two inserts.
 */
module ProjectionProtocol {
  import opened Wrappers
  import opened AudienceTables
  import opened SetSizes
  import opened AllocationProtocol

  datatype ProjectedRow = ProjectedRow(state: Reservation, revision: nat)
  type ProjectedRows = map<UserId, ProjectedRow>

  /** `applied` is the highest row of the status relation. */
  datatype Projection = Projection(rows: ProjectedRows, applied: Option<nat>)

  const EMPTY_PROJECTION := Projection(map[], None)

  function ProjectedActive(rows: ProjectedRows): set<UserId> {
    set u | u in rows && rows[u].state != Released
  }

  /** Rows that join their target, as `_synchronize_projection` selects them. */
  function JoinedUsers(db: Db): set<UserId> {
    set u | u in db.ledger && Joined(db, db.ledger[u])
  }

  /** The row written for a user: an inactive target shows as released at the current revision. */
  function SyncRow(db: Db, u: UserId): ProjectedRow
    requires u in JoinedUsers(db)
  {
    var row := db.ledger[u];
    if TargetActive(db, row.target) then ProjectedRow(row.state, row.revision)
    else ProjectedRow(Released, db.revision)
  }

  function InsertRow(rows: ProjectedRows, u: UserId, row: ProjectedRow): ProjectedRows {
    if u in rows && rows[u].revision > row.revision then rows else rows[u := row]
  }

  /** The rows after inserting those of some users, in any order. */
  function SyncedRows(db: Db, rows: ProjectedRows, users: set<UserId>): ProjectedRows
    requires users <= JoinedUsers(db)
  {
    map u | u in rows.Keys + users ::
      if u !in users then rows[u]
      else if u in rows && rows[u].revision > SyncRow(db, u).revision then rows[u]
      else SyncRow(db, u)
  }

  predicate NeedsSync(db: Db, p: Projection) {
    || (if p.applied.Some? then p.applied.value else 0) < db.revision
    || (p.applied.Some? && |ProjectedActive(p.rows)| != |ActiveUsers(db)|)
  }

  datatype LoadResult = Loaded(context: Context) | NotReady | Died

  /** `load_active_exclusion_context` without a crash. */
  function Load(db: Db, p: Projection): (Projection, LoadResult) {
    if NeedsSync(db, p) then
      var users := JoinedUsers(db);
      if |SyncActive(db)| != |ActiveUsers(db)| || (db.revision > 0 && users == {}) then
        (p, NotReady)
      else
        (Projection(SyncedRows(db, p.rows, users),
                    if p.applied.Some? && p.applied.value > db.revision then p.applied
                    else Some(db.revision)),
         Loaded(Reload(db)))
    else (p, Loaded(Reload(db)))
  }

  /** The fetched members whose state column shows reserved or consumed. */
  function SyncActive(db: Db): set<UserId> {
    set u | u in JoinedUsers(db) && SyncRow(db, u).state != Released
  }

  /** What a synchronisation that died leaves: the rows of some of the members. */
  ghost predicate PartlySynced(db: Db, before: Projection, after: Projection) {
    exists users :: users <= JoinedUsers(db)
                    && after == before.(rows := SyncedRows(db, before.rows, users))
  }

  // ---------------------------------------------------------------------------
  // The transactions that load the context
  // ---------------------------------------------------------------------------

  /**
   `confirm_selection` with its load: the checks before the load, the load, and what follows. Rows
   that the load inserted stay even when the confirmation then raises.
   */
  ghost function ConfirmLoading(db: Db, p: Projection, limit: nat, req: Request)
    : (Db, Projection, Outcome<Confirmed, Error>)
  {
    if ReachesLoad(db, limit, req) && Load(db, p).1 == NotReady then
      (db, p, Raised(ProjectionNotReady))
    else
      var (next, r) := Confirm(db, limit, req);
      (next, if ReachesLoad(db, limit, req) then Load(db, p).0 else p, r)
  }

  /** `release_reserved_target` with its load, which follows the last check. */
  function ReleaseLoading(db: Db, p: Projection, limit: nat, k: TargetKey, entire: bool)
    : (Db, Projection, Outcome<Context, Error>)
  {
    var reaches := ReleaseRejection(db, k, entire).None?;
    if reaches && Load(db, p).1 == NotReady then (db, p, Raised(ProjectionNotReady))
    else
      var (next, r) := Release(db, limit, k, entire);
      (next, if reaches then Load(db, p).0 else p, r)
  }

  // ---------------------------------------------------------------------------
  // The store itself
  // ---------------------------------------------------------------------------

  class ProjectionStore {
    var rows: ProjectedRows
    var applied: Option<nat>

    function Value(): Projection
      reads this
    {
      Projection(rows, applied)
    }

    constructor ()
      ensures Value() == EMPTY_PROJECTION
    {
      rows, applied := map[], None;
    }

    /** Inserts member rows one by one; `budget` inserts happen before the process dies. */
    method InsertMembers(db: Db, budget: nat) returns (written: set<UserId>)
      modifies this`rows
      ensures written <= JoinedUsers(db)
      ensures rows == SyncedRows(db, old(rows), written)
      ensures |JoinedUsers(db)| <= budget ==> written == JoinedUsers(db)
    {
      ghost var start := rows;
      var left := JoinedUsers(db);
      written := {};
      NothingSynced(db, rows);
      while left != {} && |written| < budget
        invariant written + left == JoinedUsers(db) && written !! left
        invariant rows == SyncedRows(db, start, written)
        decreases left
      {
        var u := AnyUser(left);
        InsertMember(db, start, written, u);
        written, left := written + {u}, left - {u};
      }
      Unwritten(written, left, JoinedUsers(db), budget);
    }

    static method AnyUser(users: set<UserId>) returns (u: UserId)
      requires users != {}
      ensures u in users
    {
      u :| u in users;
    }

    /** One row of the insert. */
    method InsertMember(db: Db, ghost start: ProjectedRows, ghost written: set<UserId>, u: UserId)
      requires written + {u} <= JoinedUsers(db) && u !in written
      requires rows == SyncedRows(db, start, written)
      modifies this`rows
      ensures rows == SyncedRows(db, start, written + {u})
    {
      SyncOneMore(db, start, written, u);
      rows := InsertRow(rows, u, SyncRow(db, u));
    }

    method LoadActiveExclusionContext(db: Db, budget: nat) returns (r: LoadResult)
      modifies this
      ensures r != Died ==> (Value(), r) == Load(db, old(Value()))
      ensures r == Died ==> PartlySynced(db, old(Value()), Value())
      ensures budget > |JoinedUsers(db)| ==> r != Died
    {
      var revision, excluded := db.revision, |ActiveUsers(db)|;
      var seen := if applied.Some? then applied.value else 0;
      if seen < revision || (applied.Some? && |ProjectedActive(rows)| != excluded) {
        r := SynchronizeProjection(db, excluded, budget);
      } else {
        r := Loaded(Context(revision, excluded));
      }
    }

    /** Two inserts: the member rows, then the applied revision. */
    method SynchronizeProjection(db: Db, excluded: nat, budget: nat) returns (r: LoadResult)
      requires NeedsSync(db, Value()) && excluded == |ActiveUsers(db)|
      modifies this
      ensures r != Died ==> (Value(), r) == Load(db, old(Value()))
      ensures r == Died ==> PartlySynced(db, old(Value()), Value())
      ensures budget > |JoinedUsers(db)| ==> r != Died
    {
      var members := JoinedUsers(db);
      if |SyncActive(db)| != excluded || (db.revision > 0 && members == {}) {
        return NotReady;
      }
      var written := InsertMembers(db, budget);
      if written != members || budget <= |members| {
        return Died;
      }
      if applied.None? || applied.value <= db.revision {
        applied := Some(db.revision);
      }
      r := Loaded(Context(db.revision, excluded));
    }
  }

  lemma Unwritten(written: set<UserId>, left: set<UserId>, all: set<UserId>, budget: nat)
    requires written + left == all && written !! left && (left == {} || |written| >= budget)
    ensures written <= all && (|all| <= budget ==> written == all)
  {
    UnionSize(written, left, left);
    SubsetSize(written, all);
  }

  lemma NothingSynced(db: Db, rows: ProjectedRows)
    ensures rows == SyncedRows(db, rows, {})
  {
  }

  lemma SyncOneMore(db: Db, rows: ProjectedRows, some: set<UserId>, u: UserId)
    requires some + {u} <= JoinedUsers(db) && u !in some
    ensures SyncedRows(db, rows, some + {u})
         == InsertRow(SyncedRows(db, rows, some), u, SyncRow(db, u))
  {
  }
}
