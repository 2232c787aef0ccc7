/**
 The record table of apps/api/src/persistence/idempotency.repository.ts, with all its keys: each method
 acts on every key's row as the one-row statement of the protocol does, and on no other key's.
 */
module IdempotencyRepository {
  import opened LedgerTypes
  import opened Idempotency

  /** Environment, endpoint and client key, which together have a unique index. */
  datatype Key = Key(environment: string, endpoint: string, clientKey: string)

  class RecordTable {
    var rows: map<Id, Record>
    var keyOf: map<Id, Key>
    var index: map<Key, Id>

    /** The primary key and the unique index agree. */
    ghost predicate Valid()
      reads this
    {
      && rows.Keys == keyOf.Keys
      && (forall id | id in rows :: rows[id].id == id && keyOf[id] in index && index[keyOf[id]] == id)
      && (forall k | k in index :: index[k] in rows && keyOf[index[k]] == k)
    }

    ghost function RowOf(k: Key): Option<Record>
      requires Valid()
      reads this
    {
      if k in index then Some(rows[index[k]]) else None
    }

    constructor ()
      ensures Valid() && forall k :: RowOf(k) == None
    {
      rows, keyOf, index := map[], map[], map[];
    }

    /** The insert of `claim`: wins exactly when the key is free, and does nothing on a conflict. */
    method InsertIfFree(key: Key, fingerprint: string, id: Id, operationId: Id, now: Instant) returns (inserted: bool)
      requires Valid() && id !in rows
      modifies this
      ensures Valid()
      ensures RowOf(key) == Insert(old(RowOf(key)), id, operationId, fingerprint, now)
      ensures inserted <==> old(RowOf(key)).None?
      ensures inserted ==> RowOf(key).value.id == id
      ensures forall k | k != key :: RowOf(k) == old(RowOf(k))
    {
      inserted := key !in index;
      if inserted {
        var record := Record(id, fingerprint, operationId, InFlight, Some(now + LEASE_SECONDS), 0, "");
        rows, keyOf, index := rows[id := record], keyOf[id := key], index[key := id];
      }
    }

    method Find(key: Key) returns (found: Option<Record>)
      requires Valid()
      ensures found == RowOf(key)
    {
      found := if key in index then Some(rows[index[key]]) else None;
    }

    /** The conditional update of `stealLease`: at most one row has the id, taken over only in flight with its lease over. */
    method TakeExpired(id: Id, now: Instant) returns (taken: bool)
      requires Valid()
      modifies this`rows
      ensures Valid()
      ensures forall k ::
                RowOf(k) == if CanSteal(old(RowOf(k)), id, now) then SetLease(old(RowOf(k)), now) else old(RowOf(k))
      ensures taken <==> exists k :: CanSteal(old(RowOf(k)), id, now)
    {
      assert id in rows ==> RowOf(keyOf[id]) == Some(rows[id]);
      taken := id in rows && rows[id].state == InFlight && rows[id].lease.Some? && rows[id].lease.value <= now;
      if taken {
        assert CanSteal(RowOf(keyOf[id]), id, now);
        rows := rows[id := rows[id].(lease := Some(now + LEASE_SECONDS))];
      }
    }

    /** The read of `stealLease` after its update; the row may be gone by then. */
    method FindById(id: Id) returns (found: Option<Record>)
      requires Valid()
      ensures found.Some? <==> exists k :: Is(RowOf(k), id)
      ensures forall k | Is(RowOf(k), id) :: found == RowOf(k)
    {
      assert id in rows ==> Is(RowOf(keyOf[id]), id);
      found := if id in rows then Some(rows[id]) else None;
    }

    /** Throws, here answers false, when the row is gone. */
    method Renew(id: Id, now: Instant) returns (ok: bool)
      requires Valid()
      modifies this`rows
      ensures Valid() && (ok <==> id in rows)
      ensures forall k :: RowOf(k) == RenewLease(old(RowOf(k)), id, now)
    {
      ok := id in rows;
      if ok {
        rows := rows[id := rows[id].(lease := Some(now + LEASE_SECONDS))];
      }
    }

    method Finish(id: Id, state: RecordState, status: int, body: string) returns (ok: bool)
      requires Valid()
      modifies this`rows
      ensures Valid() && (ok <==> id in rows)
      ensures forall k :: RowOf(k) == Complete(old(RowOf(k)), id, state, status, body)
    {
      ok := id in rows;
      if ok {
        rows := rows[id := rows[id].(state := state, status := status, body := body, lease := None)];
      }
    }

    method Delete(id: Id)
      requires Valid()
      modifies this
      ensures Valid()
      ensures forall k :: RowOf(k) == Release(old(RowOf(k)), id)
    {
      if id in rows {
        var key := keyOf[id];
        rows, keyOf, index := rows - {id}, keyOf - {id}, index - {key};
      }
    }
  }
}
