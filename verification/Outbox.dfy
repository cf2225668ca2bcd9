// apps/outbox-relay-service/src/sources/postgres-outbox-source.adapter.ts: the locked rows
// of one `outbox_events` table and the three statements the relay runs on them.
// A row is identified by its position: rows are inserted and updated, never deleted.
module Outbox {
  import opened Common
  import opened Json
  import opened Envelope

  /** Milliseconds, on whichever clock the caller read. */
  type Time = int
  type WorkerId = nat

  datatype Status = Pending | Published | Failed

  datatype Row = Row(
    columns: Columns, payload: Json, createdAt: Time,
    status: Status, retryCount: int, lockedAt: Option<Time>, lockedBy: Option<WorkerId>,
    nextRetryAt: Option<Time>, lastError: Option<string>,
    publishedAt: Option<Time>, publishedTarget: Option<string>)

  /** A row as inserted by a producer: the schema's defaults. */
  function NewRow(columns: Columns, payload: Json, createdAt: Time): Row {
    Row(columns, payload, createdAt, Pending, 0, None, None, None, None, None, None)
  }

  /** A statement or transaction either returns or throws, and may have taken effect even
      when it throws. */
  datatype DbOutcome = Done | Threw(applied: bool)

  predicate Applied(outcome: DbOutcome) {
    outcome.Done? || outcome.applied
  }

  // ---- Claiming ----

  predicate Eligible(row: Row, now: Time, lockTimeoutSeconds: int) {
    && row.status == Pending
    && (row.nextRetryAt.None? || row.nextRetryAt.value <= now)
    && (row.lockedAt.None? || row.lockedAt.value <= now - lockTimeoutSeconds * 1000)
  }

  /** Rows passing the WHERE clause that no other transaction has locked (SKIP LOCKED). */
  function Candidates(rows: seq<Row>, now: Time, lockTimeoutSeconds: int, skipped: set<nat>): set<nat> {
    set k: nat | k < |rows| && k !in skipped && Eligible(rows[k], now, lockTimeoutSeconds)
  }

  function Min(a: int, b: int): int {
    if a < b then a else b
  }

  /** ORDER BY created_at ASC LIMIT `limit`; ties may fall either way. */
  predicate OldestOf(rows: seq<Row>, candidates: set<nat>, limit: nat, chosen: set<nat>)
    requires forall k :: k in candidates ==> k < |rows|
  {
    && chosen <= candidates
    && |chosen| == Min(limit, |candidates|)
    && forall i, j :: i in chosen && j in candidates - chosen ==> rows[i].createdAt <= rows[j].createdAt
  }

  function Lock(row: Row, worker: WorkerId, now: Time): Row {
    row.(lockedAt := Some(now), lockedBy := Some(worker))
  }

  function LockRows(rows: seq<Row>, chosen: set<nat>, worker: WorkerId, now: Time): (r: seq<Row>)
    ensures |r| == |rows|
  {
    seq(|rows|, k requires 0 <= k < |rows| => if k in chosen then Lock(rows[k], worker, now) else rows[k])
  }

  // ---- Marking: only `locked_by` is tested, never `status` ----

  predicate Holds(rows: seq<Row>, k: nat, worker: WorkerId) {
    k < |rows| && rows[k].lockedBy == Some(worker)
  }

  function AsPublished(row: Row, at: Time, target: string): Row {
    row.(status := Published, publishedAt := Some(at), publishedTarget := Some(target),
         lockedAt := None, lockedBy := None, nextRetryAt := None, lastError := None)
  }

  function MarkPublished(rows: seq<Row>, k: nat, worker: WorkerId, at: Time, target: string): (r: seq<Row>)
    ensures |r| == |rows|
  {
    if Holds(rows, k, worker) then rows[k := AsPublished(rows[k], at, target)] else rows
  }

  datatype Failure = Failure(status: Status, retryCount: int, lastError: string, nextRetryAt: Option<Time>)

  function AsFailed(row: Row, failure: Failure): Row {
    row.(status := failure.status, retryCount := failure.retryCount, lastError := Some(failure.lastError),
         nextRetryAt := failure.nextRetryAt, lockedAt := None, lockedBy := None)
  }

  function MarkFailed(rows: seq<Row>, k: nat, worker: WorkerId, failure: Failure): (r: seq<Row>)
    ensures |r| == |rows|
  {
    if Holds(rows, k, worker) then rows[k := AsFailed(rows[k], failure)] else rows
  }

  // ---- A batch always exists ----

  /** No candidate left out is older than a chosen one. */
  predicate IsOldest(rows: seq<Row>, candidates: set<nat>, chosen: set<nat>)
    requires chosen <= candidates && forall k :: k in candidates ==> k < |rows|
  {
    forall older, younger ::
      older in candidates && younger in chosen && rows[older].createdAt < rows[younger].createdAt ==> older in chosen
  }

  lemma {:induction false} BatchExists(rows: seq<Row>, candidates: set<nat>, limit: nat)
    requires forall k :: k in candidates ==> k < |rows|
    ensures exists chosen :: OldestOf(rows, candidates, limit, chosen) && IsOldest(rows, candidates, chosen)
    decreases limit
  {
    if limit == 0 || candidates == {} {
      assert OldestOf(rows, candidates, limit, {});
    } else {
      var first := Oldest(rows, candidates);
      BatchExists(rows, candidates - {first}, limit - 1);
      var rest :| OldestOf(rows, candidates - {first}, limit - 1, rest);
      assert candidates - (rest + {first}) == candidates - {first} - rest;
      assert OldestOf(rows, candidates, limit, rest + {first});
    }
  }

  lemma {:induction false} Oldest(rows: seq<Row>, candidates: set<nat>) returns (first: nat)
    requires candidates != {} && forall k :: k in candidates ==> k < |rows|
    ensures first in candidates
    ensures forall k :: k in candidates ==> rows[first].createdAt <= rows[k].createdAt
    decreases candidates
  {
    first :| first in candidates;
    if candidates != {first} {
      var other := Oldest(rows, candidates - {first});
      if rows[other].createdAt < rows[first].createdAt {
        first := other;
      }
    }
  }

  /** What `claimPendingEvents` hands to the worker. */
  datatype ClaimedEvent = ClaimedEvent(columns: Columns, payload: Json, retryCount: int)

  function ToClaimedEvent(row: Row): ClaimedEvent {
    ClaimedEvent(row.columns, row.payload, row.retryCount)
  }

  /** One source database. `skipped` are the rows other transactions hold at that moment. */
  class OutboxSource {
    var rows: seq<Row>

    constructor (rows: seq<Row>)
      ensures this.rows == rows
    {
      this.rows := rows;
    }

    /** One transaction. When it throws the caller sees no events, locked or not. */
    method ClaimPendingEvents(worker: WorkerId, now: Time, lockTimeoutSeconds: int, batchSize: nat,
                              skipped: set<nat>, db: DbOutcome)
      returns (claimed: map<nat, ClaimedEvent>)
      modifies this
      ensures OldestOf(old(rows), Candidates(old(rows), now, lockTimeoutSeconds, skipped), batchSize, claimed.Keys)
      ensures IsOldest(old(rows), Candidates(old(rows), now, lockTimeoutSeconds, skipped), claimed.Keys)
      ensures forall k :: k in claimed ==> claimed[k] == ToClaimedEvent(old(rows)[k])
      ensures rows == if Applied(db) then LockRows(old(rows), claimed.Keys, worker, now) else old(rows)
    {
      var candidates := Candidates(rows, now, lockTimeoutSeconds, skipped);
      BatchExists(rows, candidates, batchSize);
      var chosen :| chosen <= candidates && OldestOf(rows, candidates, batchSize, chosen);
      claimed := map k | k in chosen :: ToClaimedEvent(rows[k]);
      assert claimed.Keys == chosen;
      if Applied(db) {
        rows := LockRows(rows, chosen, worker, now);
      }
    }

    method MarkPublishedById(k: nat, worker: WorkerId, at: Time, target: string)
      modifies this
      ensures rows == MarkPublished(old(rows), k, worker, at, target)
    {
      if k < |rows| && rows[k].lockedBy == Some(worker) {
        var row := rows[k].(status := Published, publishedAt := Some(at), publishedTarget := Some(target));
        rows := rows[k := row.(lockedAt := None, lockedBy := None, nextRetryAt := None, lastError := None)];
      }
    }

    method MarkPublishFailed(k: nat, worker: WorkerId, failure: Failure)
      modifies this
      ensures rows == MarkFailed(old(rows), k, worker, failure)
    {
      if k < |rows| && rows[k].lockedBy == Some(worker) {
        var row := rows[k].(status := failure.status, retryCount := failure.retryCount);
        row := row.(lastError := Some(failure.lastError), nextRetryAt := failure.nextRetryAt);
        rows := rows[k := row.(lockedAt := None, lockedBy := None)];
      }
    }
  }
}
