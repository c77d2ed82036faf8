/**
 The durable command ledger (internal/pkg/commandidempotency/ledger.go).

 A command is identified by a key of type K, carries a request hash of type H (hashes are
 taken to be injective, so H may be the request itself) and stores a response of type R.
 */
module CommandLedger {
  import opened Prelude

  /** The table's CHECK constraint: only a completed row has a response and an expiry. */
  datatype Row<H, R> =
    | Processing(hash: H, aliases: seq<H>)
    | Completed(hash: H, aliases: seq<H>, response: R, expiresAt: Time)

  type Table<K, H, R> = map<K, Row<H, R>>

  datatype Reservation<R> = Fresh | Replay(response: R) | Conflict | InProgress

  /** A row that a reservation may not overwrite. */
  predicate Live<H, R>(row: Row<H, R>, now: Time) {
    row.Processing? || now < row.expiresAt
  }

  predicate LiveAt<K, H, R>(rows: Table<K, H, R>, k: K, now: Time) {
    k in rows && Live(rows[k], now)
  }

  /** The two sides share at least one accepted hash. */
  predicate HashesMeet<H(==)>(stored: H, storedAliases: seq<H>, hash: H, compatible: seq<H>) {
    exists h :: h in [stored] + storedAliases && h in [hash] + compatible
  }

  function ReserveRow<K, H(==), R>(rows: Table<K, H, R>, k: K, hash: H, compatible: seq<H>, now: Time)
    : (result: (Table<K, H, R>, Reservation<R>))
  {
    if !LiveAt(rows, k, now) then (rows[k := Processing(hash, compatible)], Fresh)
    else if !HashesMeet(rows[k].hash, rows[k].aliases, hash, compatible) then (rows, Conflict)
    else if rows[k].Processing? then (rows, InProgress)
    else (rows, Replay(rows[k].response))
  }

  function CompleteRow<K, H(==), R>(rows: Table<K, H, R>, k: K, hash: H, response: R, retention: Time, now: Time)
    : (result: Result<Table<K, H, R>>)
  {
    if retention <= 0 then Failure(Internal)
    else if k in rows && rows[k].Processing? && rows[k].hash == hash then
      Success(rows[k := Completed(hash, rows[k].aliases, response, now + retention)])
    else Failure(Internal)
  }

  /** Drops the rows of `chosen` that have expired; a live row is never dropped. */
  function PurgeRows<K(==), H, R>(rows: Table<K, H, R>, chosen: set<K>, now: Time): (r: Table<K, H, R>) {
    map k | k in rows && (k !in chosen || Live(rows[k], now)) :: rows[k]
  }

  /** A purge drops exactly the chosen rows that are completed and have expired. */
  lemma PurgesExactly<K, H, R>(rows: Table<K, H, R>, chosen: set<K>, now: Time, k: K)
    ensures k in PurgeRows(rows, chosen, now) <==>
              k in rows && (k in chosen && rows[k].Completed? ==> now < rows[k].expiresAt)
    ensures k in PurgeRows(rows, chosen, now) ==> PurgeRows(rows, chosen, now)[k] == rows[k]
  {
  }

  /** No row is left behind in the transaction-local state. */
  ghost predicate Settled<K, H, R>(rows: Table<K, H, R>) {
    forall k :: k in rows ==> rows[k].Completed?
  }

  /** Two tables that hold the same live rows; expired rows may differ or be absent. */
  ghost predicate SameLive<K(!new), H, R>(a: Table<K, H, R>, b: Table<K, H, R>, now: Time) {
    forall k :: LiveAt(a, k, now) || LiveAt(b, k, now) ==> k in a && k in b && a[k] == b[k]
  }

  /** Reserving and then completing turns the row into the one stored for replay. */
  lemma CompletesOwnReservation<K, H, R>(
    rows: Table<K, H, R>, k: K, hash: H, compatible: seq<H>, response: R, retention: Time, now: Time, later: Time)
    requires ReserveRow(rows, k, hash, compatible, now).1.Fresh? && 0 < retention
    ensures CompleteRow(ReserveRow(rows, k, hash, compatible, now).0, k, hash, response, retention, later)
         == Success(rows[k := Completed(hash, compatible, response, later + retention)])
  {
    var reserved := ReserveRow(rows, k, hash, compatible, now).0;
    assert reserved[k := Completed(hash, compatible, response, later + retention)]
        == rows[k := Completed(hash, compatible, response, later + retention)];
  }

  /** A command is completed exactly by the transaction that reserved it, for the request it reserved it
      for, and only with a response that is kept for some time; never twice. */
  lemma CompletesExactly<K, H, R>(rows: Table<K, H, R>, k: K, hash: H, response: R, retention: Time, now: Time)
    ensures var done := CompleteRow(rows, k, hash, response, retention, now);
            && (done.Success? <==> 0 < retention && k in rows && rows[k] == Processing(hash, rows[k].aliases))
            && (done.Success? ==>
                  done.value == rows[k := Completed(hash, rows[k].aliases, response, now + retention)]
                  && CompleteRow(done.value, k, hash, response, retention, now).Failure?)
            && (done.Failure? ==> done == Failure(Internal))
  {
  }

  /** Until it expires, a completed command answers every request that shares a hash with
      it from the stored response, refuses every other one, and is not changed by either. */
  lemma AnswersFromStore<K, H, R>(rows: Table<K, H, R>, k: K, hash: H, compatible: seq<H>, now: Time)
    requires k in rows && rows[k].Completed? && now < rows[k].expiresAt
    ensures ReserveRow(rows, k, hash, compatible, now).0 == rows
    ensures HashesMeet(rows[k].hash, rows[k].aliases, hash, compatible)
        <==> ReserveRow(rows, k, hash, compatible, now).1 == Replay(rows[k].response)
    ensures !HashesMeet(rows[k].hash, rows[k].aliases, hash, compatible)
        <==> ReserveRow(rows, k, hash, compatible, now).1 == Conflict
  {
  }

  /** A reservation cannot tell an expired row from an absent one, now or at any later time. */
  lemma ReserveIgnoresExpired<K(!new), H, R>(
    a: Table<K, H, R>, b: Table<K, H, R>, k: K, hash: H, compatible: seq<H>, now: Time)
    requires SameLive(a, b, now)
    ensures ReserveRow(a, k, hash, compatible, now).1 == ReserveRow(b, k, hash, compatible, now).1
    ensures SameLive(ReserveRow(a, k, hash, compatible, now).0, ReserveRow(b, k, hash, compatible, now).0, now)
  {
    var a', b' := ReserveRow(a, k, hash, compatible, now).0, ReserveRow(b, k, hash, compatible, now).0;
    assert LiveAt(a, k, now) == LiveAt(b, k, now);
    forall x | LiveAt(a', x, now) || LiveAt(b', x, now)
      ensures x in a' && x in b' && a'[x] == b'[x]
    {
      assert x != k ==> LiveAt(a, x, now) || LiveAt(b, x, now);
    }
  }

  lemma PurgeIsInvisible<K(!new), H, R>(rows: Table<K, H, R>, chosen: set<K>, now: Time, later: Time)
    requires now <= later
    ensures SameLive(rows, PurgeRows(rows, chosen, now), later)
  {
    var purged := PurgeRows(rows, chosen, now);
    forall k | LiveAt(rows, k, later) || LiveAt(purged, k, later)
      ensures k in rows && k in purged && rows[k] == purged[k]
    {
      assert Live(rows[k], now);
    }
  }

  /** The operations on one ledger table. */
  class Ledger<K(==), H(==), R> {
    var rows: Table<K, H, R>

    constructor ()
      ensures rows == map[]
    {
      rows := map[];
    }

    method RequestHashMatches(storedHash: H, storedAliases: seq<H>, requestHash: H, requestAliases: seq<H>)
      returns (matches: bool)
      ensures matches <==> HashesMeet(storedHash, storedAliases, requestHash, requestAliases)
    {
      var storedAll, requestAll := [storedHash] + storedAliases, [requestHash] + requestAliases;
      if storedHash == requestHash {
        assert requestHash in storedAll && requestHash in requestAll;
        return true;
      }
      for i := 0 to |requestAliases|
        invariant storedHash !in requestAliases[..i]
      {
        if storedHash == requestAliases[i] {
          assert storedHash in storedAll && storedHash in requestAll;
          return true;
        }
      }
      for i := 0 to |storedAliases|
        invariant forall h :: h in storedAliases[..i] ==> h !in requestAll
      {
        var h := storedAliases[i];
        if h == requestHash {
          assert h in storedAll && h in requestAll;
          return true;
        }
        for j := 0 to |requestAliases|
          invariant h !in requestAliases[..j]
        {
          if h == requestAliases[j] {
            assert h in storedAll && h in requestAll;
            return true;
          }
        }
      }
      return false;
    }

    method Reserve(k: K, requestHash: H, compatible: seq<H>, now: Time) returns (reservation: Reservation<R>)
      modifies this
      ensures (rows, reservation) == ReserveRow(old(rows), k, requestHash, compatible, now)
    {
      if k !in rows || (rows[k].Completed? && rows[k].expiresAt <= now) {
        rows := rows[k := Processing(requestHash, compatible)];
        return Fresh;
      }
      var matches := RequestHashMatches(rows[k].hash, rows[k].aliases, requestHash, compatible);
      if !matches {
        return Conflict;
      }
      if !rows[k].Completed? {
        return InProgress;
      }
      return Replay(rows[k].response);
    }

    method Complete(k: K, requestHash: H, response: R, retention: Time, now: Time) returns (code: Code)
      modifies this
      ensures var result := CompleteRow(old(rows), k, requestHash, response, retention, now);
              if result.Success? then code == OK && rows == result.value
              else code == result.code && rows == old(rows)
    {
      if retention <= 0 {
        return Internal;
      }
      if k !in rows || !rows[k].Processing? || rows[k].hash != requestHash {
        return Internal;
      }
      rows := rows[k := Completed(requestHash, rows[k].aliases, response, now + retention)];
      return OK;
    }

    /** The key, among these, whose row expired first. */
    method FirstExpired(candidates: set<K>) returns (first: K)
      requires candidates != {} && forall k :: k in candidates ==> k in rows && rows[k].Completed?
      ensures first in candidates && forall k :: k in candidates ==> ExpiresNoLater(rows, first, k)
    {
      first :| first in candidates;
      var rest := candidates - {first};
      while rest != {}
        invariant rest <= candidates && first in candidates
        invariant forall k :: k in candidates && k !in rest ==> ExpiresNoLater(rows, first, k)
        decreases rest
      {
        var k :| k in rest;
        rest := rest - {k};
        if rows[k].expiresAt < rows[first].expiresAt {
          first := k;
        }
      }
    }

    /** Deletes at most a batch of expired rows, those that expired first, leaving out the rows
        that other transactions hold. A live row is never deleted. */
    method CleanupCommandIdempotencyKeys(batchSize: int, now: Time, locked: set<K>) returns (deleted: set<K>)
      modifies this
      ensures rows == PurgeRows(old(rows), deleted, now)
      ensures forall k :: k in deleted ==> k in old(rows) && !LiveAt(old(rows), k, now) && k !in locked
      ensures |deleted| <= if batchSize <= 0 then 0 else batchSize
      ensures |deleted| < batchSize ==> forall k :: k in old(rows) && k !in locked && k !in deleted ==> LiveAt(old(rows), k, now)
      ensures forall j, k :: j in deleted && k in old(rows) && k !in deleted && k !in locked && !LiveAt(old(rows), k, now) ==>
                ExpiresNoLater(old(rows), j, k)
    {
      deleted := {};
      var expired := set k | k in rows && k !in locked && rows[k].Completed? && rows[k].expiresAt <= now;
      while expired != {} && |deleted| < batchSize
        invariant rows == old(rows) && deleted !! expired && |deleted| <= if batchSize <= 0 then 0 else batchSize
        invariant forall k :: (k in rows && k !in locked && !LiveAt(rows, k, now)) <==> k in deleted || k in expired
        invariant forall j, k :: j in deleted && k in expired ==> ExpiresNoLater(rows, j, k)
        decreases expired
      {
        var k := FirstExpired(expired);
        expired := expired - {k};
        deleted := deleted + {k};
      }
      rows := map k | k in rows && k !in deleted :: rows[k];
      assert rows == PurgeRows(old(rows), deleted, now);
    }
  }

  predicate ExpiresNoLater<K, H, R>(rows: Table<K, H, R>, j: K, k: K) {
    j in rows && k in rows && rows[j].Completed? && rows[k].Completed? && rows[j].expiresAt <= rows[k].expiresAt
  }
}
