/** The rotation operator itself: its cursors, its failure log, one batch, one run. */
module KeyRotation {
  import opened Common
  import opened Credentials
  import opened RotationPaging
  import opened RotationResult

  const MAX_FAILURE_DETAILS := 100

  datatype Failure = Failure(kind: Kind, id: Uuid, keyId: KeyId, error: ErrorClass)

  datatype Refusal = RotationParametersInvalid

  /** What `run` prints, and whether it exits with zero. */
  datatype Report = Report(
    updated: PerKind<nat>,
    counts: PerKind<map<KeyId, nat>>,
    ready: bool,
    failureCount: nat,
    failures: seq<Failure>,
    succeeded: bool)

  /** The failure recorded for one row, if it cannot be rotated. */
  function FailureOf(db: Db, config: Config, kind: Kind, id: Uuid): (log: seq<Failure>)
    requires config.Valid() && View(db, kind, id).Some?
    ensures |log| == if CanRotate(db, config, kind, id) then 0 else 1
  {
    var row := View(db, kind, id).value;
    match Reencrypt(config, kind, row, 0)
    case Ok(_) => []
    case Err(e) => [Failure(kind, id, row.keyId, e)]
  }

  /** The failures of attempting `ids`, in order. */
  function FailuresOf(db: Db, config: Config, kind: Kind, ids: seq<Uuid>): seq<Failure>
    requires config.Valid() && forall id | id in ids :: View(db, kind, id).Some?
  {
    if ids == [] then [] else
    FailuresOf(db, config, kind, ids[..|ids| - 1]) + FailureOf(db, config, kind, ids[|ids| - 1])
  }

  /** Only the first hundred failures are kept in detail. */
  function Capped(log: seq<Failure>): seq<Failure> {
    if |log| <= MAX_FAILURE_DETAILS then log else log[..MAX_FAILURE_DETAILS]
  }

  class Database {
    var db: Db

    constructor (db: Db)
      ensures this.db == db
    {
      this.db := db;
    }
  }

  class Operator {
    const config: Config
    const database: Database
    var after: PerKind<Uuid>
    var failures: seq<Failure>
    var failureCount: nat
    ghost var log: seq<Failure>

    ghost predicate Valid()
      reads this
    {
      config.Valid() && failures == Capped(log) && failureCount == |log|
    }

    constructor (config: Config, database: Database)
      requires config.Valid()
      ensures Valid() && this.config == config && this.database == database
      ensures after == PerKind(NIL_UUID, NIL_UUID, NIL_UUID) && log == []
    {
      this.config, this.database := config, database;
      after := PerKind(NIL_UUID, NIL_UUID, NIL_UUID);
      failures, failureCount, log := [], 0, [];
    }

    /** One compare-and-swap on whatever the table holds by now: it counts exactly if the row is still as read. */
    method Swap(kind: Kind, row: Row, envelope: Envelope) returns (updated: nat)
      modifies database
      ensures updated == if Matches(old(database.db), kind, row) then 1 else 0
      ensures database.db == Cas(old(database.db), config, kind, row, envelope).0
      ensures updated == 0 ==> database.db == old(database.db)
    {
      var (db', changed) := Cas(database.db, config, kind, row, envelope);
      database.db := db';
      updated := if changed then 1 else 0;
    }

    /**
      Attempt one row that nobody else touches: reseal it, then compare-and-swap it, or
      record why it cannot be resealed.
     */
    method RotateRow(
        kind: Kind, row: Row, nonces: Nonces, ghost db0: Db, ghost front: seq<Uuid>, ghost sofar: int,
        ghost base: seq<Failure>)
      returns (updated: int)
      requires Valid() && NotNull(db0) && row.id !in front && base <= log
      requires Selectable(db0, config, kind, row.id) && Some(row) == View(db0, kind, row.id)
      requires Batched(db0, database.db, config, kind, nonces, front, sofar, log[|base|..])
      modifies this`failures, this`failureCount, this`log, database
      ensures Valid() && base <= log && updated >= 0
      ensures Batched(db0, database.db, config, kind, nonces, front + [row.id], sofar + updated, log[|base|..])
    {
      hide RotatedTable, Matches, FailuresOf, Rotatable, NotNull;
      NonceDoesNotDecide(config, kind, row, nonces(kind, row.id));
      ghost var db, log0 := database.db, log;
      match Reencrypt(config, kind, row, nonces(kind, row.id)) {
        case Err(e) =>
          failureCount := failureCount + 1;
          log := log + [Failure(kind, row.id, row.keyId, e)];
          if |failures| < MAX_FAILURE_DETAILS {
            failures := failures + [Failure(kind, row.id, row.keyId, e)];
          }
          updated := 0;
        case Ok(envelope) =>
          updated := Swap(kind, row, envelope);
      }
      AttemptOneMore(db0, db, config, kind, Elements(front), nonces, row.id, database.db);
      assert log == log0 + FailureOf(db0, config, kind, row.id);
      assert log[|base|..] == log0[|base|..] + FailureOf(db0, config, kind, row.id);
      BatchedOneMore(db0, db, database.db, config, kind, nonces, front, row.id, sofar, log0[|base|..]);
    }

    /**
      One undisturbed batch: the page after the cursor is read, every row of it is
      attempted, and the cursor moves to its last row. Updates and new failures together
      account for every row selected, and the stale count falls by the updates.
     */
    method RotateBatch(kind: Kind, batchSize: int, nonces: Nonces) returns (r: Result<nat, Refusal>)
      requires Valid() && NotNull(database.db)
      modifies this`after, this`failures, this`failureCount, this`log, database
      ensures Valid()
      ensures r.Ok? <==> 1 <= batchSize <= 500
      ensures r.Err? ==> database.db == old(database.db) && after == old(after) && log == old(log)
      ensures r.Ok? ==>
        var ids := PageIds(old(database.db), config, kind, old(after.Get(kind)), batchSize);
        && after == (if ids == [] then old(after) else old(after).Set(kind, ids[|ids| - 1]))
        && old(log) <= log
        && Batched(old(database.db), database.db, config, kind, nonces, ids, r.value, log[|old(log)|..])
        && r.value + (failureCount - old(failureCount)) == |ids|
        && |StaleIds(database.db, config, kind)| == |StaleIds(old(database.db), config, kind)| - r.value
    {
      hide Batched, StaleIds, View, Capped, NotNull, Candidates, Ascending;
      if !(1 <= batchSize <= 500) {
        return Err(RotationParametersInvalid);
      }
      ghost var db0 := database.db;
      ghost var ids := PageIds(db0, config, kind, after.Get(kind), batchSize);
      PageIsSelectable(db0, config, kind, after.Get(kind), batchSize);
      var rows := Page(database.db, config, kind, after.Get(kind), batchSize);
      if rows != [] {
        after := after.Set(kind, rows[|rows| - 1].id);
      }
      var updated := RotateRows(kind, rows, nonces, ids);
      BatchedShrinksStale(db0, database.db, config, kind, nonces, ids, updated, log[|old(log)|..]);
      return Ok(updated);
    }

    /** The loop over the rows of one page. */
    method RotateRows(kind: Kind, rows: seq<Row>, nonces: Nonces, ghost ids: seq<Uuid>) returns (updated: nat)
      requires Valid() && NotNull(database.db) && StrictlyAscending(ids)
      requires forall id | id in ids :: Selectable(database.db, config, kind, id)
      requires |rows| == |ids|
      requires forall i | 0 <= i < |ids| :: rows[i].id == ids[i] && Some(rows[i]) == View(database.db, kind, ids[i])
      modifies this`failures, this`failureCount, this`log, database
      ensures Valid() && old(log) <= log
      ensures Batched(old(database.db), database.db, config, kind, nonces, ids, updated, log[|old(log)|..])
    {
      hide Batched, View, Capped, NotNull, Selectable;
      ghost var db0 := database.db;
      updated := 0;
      BatchedNothing(db0, config, kind, nonces);
      assert ids[..0] == [] && log[|old(log)|..] == [];
      for i := 0 to |rows|
        invariant Valid() && old(log) <= log
        invariant Batched(db0, database.db, config, kind, nonces, ids[..i], updated, log[|old(log)|..])
      {
        assert ids[..i + 1] == ids[..i] + [ids[i]];
        assert ids[i] in ids && ids[i] !in ids[..i];
        var n := RotateRow(kind, rows[i], nonces, db0, ids[..i], updated, old(log));
        updated := updated + n;
      }
      assert ids[..|rows|] == ids;
    }
  }

  /** The effect of attempting the rows `ids` of one table, in order. */
  ghost predicate Batched(
      db0: Db, db: Db, config: Config, kind: Kind, nonces: Nonces, ids: seq<Uuid>, updated: int, log: seq<Failure>)
    requires config.Valid()
  {
    && Attempted(db0, db, config, kind, Elements(ids), nonces)
    && db.identities == db0.identities
    && (forall other: Kind | other != kind :: db.TableOf(other) == db0.TableOf(other))
    && (forall id | id in ids :: View(db0, kind, id).Some?)
    && log == FailuresOf(db0, config, kind, ids)
    && updated == |Rotatable(db0, config, kind, Elements(ids))|
    && updated + |log| == |ids|
  }

  lemma BatchedNothing(db: Db, config: Config, kind: Kind, nonces: Nonces)
    requires config.Valid()
    ensures Batched(db, db, config, kind, nonces, [], 0, [])
  {
  }

  lemma FailuresOneMore(db: Db, config: Config, kind: Kind, front: seq<Uuid>, id: Uuid)
    requires config.Valid() && View(db, kind, id).Some?
    requires forall x | x in front :: View(db, kind, x).Some?
    ensures forall x | x in front + [id] :: View(db, kind, x).Some?
    ensures FailuresOf(db, config, kind, front + [id])
            == FailuresOf(db, config, kind, front) + FailureOf(db, config, kind, id)
  {
  }

  lemma BatchedOneMore(
      db0: Db, db: Db, db': Db, config: Config, kind: Kind, nonces: Nonces, front: seq<Uuid>, id: Uuid, updated: int,
      log: seq<Failure>)
    requires config.Valid() && id !in front && View(db0, kind, id).Some?
    requires Batched(db0, db, config, kind, nonces, front, updated, log)
    requires Attempted(db0, db', config, kind, Elements(front) + {id}, nonces)
    requires forall other: Kind | other != kind :: db'.TableOf(other) == db.TableOf(other)
    ensures Batched(db0, db', config, kind, nonces, front + [id],
                    updated + (if CanRotate(db0, config, kind, id) then 1 else 0),
                    log + FailureOf(db0, config, kind, id))
  {
    FailuresOneMore(db0, config, kind, front, id);
    assert Elements(front + [id]) == Elements(front) + {id};
    RotatableAdd(db0, config, kind, Elements(front), id);
  }

  lemma BatchedShrinksStale(
      db0: Db, db: Db, config: Config, kind: Kind, nonces: Nonces, ids: seq<Uuid>, updated: int, log: seq<Failure>)
    requires config.Valid() && Batched(db0, db, config, kind, nonces, ids, updated, log)
    requires forall id | id in ids :: Selectable(db0, config, kind, id)
    ensures |StaleIds(db, config, kind)| == |StaleIds(db0, config, kind)| - updated
    ensures updated + |log| == |ids|
  {
    StaleAfterAttempt(db0, db, config, kind, Elements(ids), nonces);
  }

  lemma RotatableAdd(db: Db, config: Config, kind: Kind, ids: set<Uuid>, id: Uuid)
    requires config.Valid() && id !in ids
    ensures |Rotatable(db, config, kind, ids + {id})|
            == |Rotatable(db, config, kind, ids)| + if CanRotate(db, config, kind, id) then 1 else 0
  {
    hide CanRotate;
    var before := Rotatable(db, config, kind, ids);
    assert Rotatable(db, config, kind, ids + {id}) == before + if CanRotate(db, config, kind, id) then {id} else {};
  }
}
