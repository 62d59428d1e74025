/**
 The connector's idempotency cache: one row for each (command, key), written before Tally is
 touched and settled or deleted afterwards.
 */
module CommandCache {
  import opened Prelude

  datatype Key = Key(command: string, id: string)

  datatype Status = InFlight | Completed | Failed

  /** The `command_result` payload; `body` stands for everything but the two flags. */
  datatype Envelope = Envelope(success: bool, retryable: bool, body: string)

  datatype Entry = Entry(hash: string, status: Status, payload: Option<Envelope>, createdAt: int, updatedAt: int)

  type Rows = map<Key, Entry>

  predicate Terminal(rows: Rows, key: Key) {
    key in rows && rows[key].status != InFlight
  }

  // ------------------------------------------------------------------
  // What each write does to the table
  // ------------------------------------------------------------------

  function Inserted(rows: Rows, key: Key, hash: string, now: int): Rows {
    rows[key := Entry(hash, InFlight, None, now, now)]
  }

  /** The upsert of a terminal state: an existing row keeps its hash and its creation time. */
  function Upserted(rows: Rows, key: Key, status: Status, payload: Envelope, now: int): Rows {
    if key in rows then rows[key := rows[key].(status := status, payload := Some(payload), updatedAt := now)]
    else rows[key := Entry("", status, Some(payload), now, now)]
  }

  /** The row is settled and older than the cutoff. */
  predicate Stale(rows: Rows, key: Key, cutoff: int) {
    Terminal(rows, key) && rows[key].createdAt < cutoff
  }

  function Swept(rows: Rows, cutoff: int): Rows {
    map key | key in rows && !Stale(rows, key, cutoff) :: rows[key]
  }

  /** Thirty days, in seconds. */
  const DEFAULT_TTL := 30 * 24 * 60 * 60

  class IdempotencyCache {
    var rows: Rows

    constructor ()
      ensures rows == map[]
    {
      rows := map[];
    }

    method Get(key: Key) returns (entry: Option<Entry>)
      ensures entry == if key in rows then Some(rows[key]) else None
    {
      entry := if key in rows then Some(rows[key]) else None;
    }

    /** A plain insert: a second one for the same key is refused and changes nothing. */
    method RecordInFlight(key: Key, hash: string, now: int) returns (inserted: bool)
      modifies this
      ensures inserted <==> key !in old(rows)
      ensures rows == if inserted then Inserted(old(rows), key, hash, now) else old(rows)
    {
      inserted := key !in rows;
      if inserted {
        rows := rows[key := Entry(hash, InFlight, None, now, now)];
      }
    }

    method Settle(key: Key, status: Status, payload: Envelope, now: int)
      modifies this
      ensures rows == Upserted(old(rows), key, status, payload, now)
    {
      var entry :=
        if key in rows then rows[key].(status := status, payload := Some(payload), updatedAt := now)
        else Entry("", status, Some(payload), now, now);
      rows := rows[key := entry];
    }

    method RecordCompleted(key: Key, result: Envelope, now: int)
      modifies this
      ensures rows == Upserted(old(rows), key, Completed, result, now)
    {
      Settle(key, Completed, result, now);
    }

    method RecordFailed(key: Key, error: Envelope, now: int)
      modifies this
      ensures rows == Upserted(old(rows), key, Failed, error, now)
    {
      Settle(key, Failed, error, now);
    }

    method DeleteForRetry(key: Key)
      modifies this
      ensures rows == old(rows) - {key}
    {
      rows := rows - {key};
    }

    /** Remove the settled rows older than the cutoff; a sweep that fails removes nothing. */
    method CleanupStale(now: int, fails: bool, ttl: int := DEFAULT_TTL) returns (removed: nat)
      modifies this
      ensures rows == if fails then old(rows) else Swept(old(rows), now - ttl)
      ensures removed == |old(rows)| - |rows|
      ensures forall key :: key in old(rows) && old(rows)[key].status == InFlight ==> key in rows
    {
      if fails {
        return 0;
      }
      var stale := set key | key in rows && Stale(rows, key, now - ttl);
      removed := |stale|;
      DomainShrinks(rows, stale);
      rows := rows - stale;
    }
  }

  lemma {:induction false} DomainShrinks(rows: Rows, gone: set<Key>)
    requires gone <= rows.Keys
    ensures |rows - gone| == |rows| - |gone|
  {
    assert (rows - gone).Keys == rows.Keys - gone;
    assert |rows| == |rows.Keys| && |rows - gone| == |(rows - gone).Keys|;
  }
}
