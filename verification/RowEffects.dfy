// What each statement does to the columns of a row, and in which order rows get their turn.
module RowEffects {
  import opened Common
  import opened Json
  import opened Envelope
  import opened Outbox
  import opened Backoff
  import opened Protocol
  import opened ProtocolInvariant
  import opened Delivery

  // ---- Columns ----

  /** A produced row carries the producer's columns and payload and waits for its first
      attempt; no other row changes. */
  lemma ProduceEffect(c: Config, s: State, columns: Columns, payload: Json, createdAt: Time)
    requires Enabled(c, s, Produce(columns, payload, createdAt))
    ensures var rows := Apply(c, s, Produce(columns, payload, createdAt)).rows;
      && |rows| == |s.rows| + 1 && rows[..|s.rows|] == s.rows
      && var row := rows[|s.rows|];
        && row.columns == columns && row.payload == payload && row.createdAt == createdAt
        && row.status == Pending && row.retryCount == 0
        && row.lockedAt.None? && row.lockedBy.None? && row.nextRetryAt.None? && row.lastError.None?
        && row.publishedAt.None? && row.publishedTarget.None?
  {
  }

  /** An effective mark as published. */
  lemma PublishedEffect(c: Config, s: State, w: WorkerId, k: nat, at: Time, target: string, db: DbOutcome)
    requires Inv(c, s) && Enabled(c, s, ConfirmPublished(w, k, at, target, db))
    requires k < |s.rows| && s.rows[k].lockedBy == Some(w) && Applied(db)
    ensures var t := Apply(c, s, ConfirmPublished(w, k, at, target, db));
      && |t.rows| == |s.rows|
      && (forall other :: 0 <= other < |s.rows| && other != k ==> t.rows[other] == s.rows[other])
      && t.rows[k] == s.rows[k].(
           status := Published, publishedAt := Some(at), publishedTarget := Some(target),
           nextRetryAt := None, lastError := None, lockedAt := None, lockedBy := None)
  {
    hide Inv;
  }

  /** An effective failure counts one retry from the row's own count; below the limit the
      next attempt is due after exactly the delay for the new count. */
  lemma FailedEffect(c: Config, s: State, w: WorkerId, k: nat, error: string, at: Time, db: DbOutcome)
    requires Inv(c, s) && Enabled(c, s, ConfirmFailed(w, k, error, at, db))
    requires k < |s.rows| && s.rows[k].lockedBy == Some(w) && Applied(db)
    ensures var t := Apply(c, s, ConfirmFailed(w, k, error, at, db));
      var count := s.rows[k].retryCount + 1;
      && |t.rows| == |s.rows|
      && (forall other :: 0 <= other < |s.rows| && other != k ==> t.rows[other] == s.rows[other])
      && t.rows[k] == s.rows[k].(
           status := if count >= c.maxRetryCount then Failed else Pending, retryCount := count,
           lastError := Some(error),
           nextRetryAt := if count >= c.maxRetryCount then None else Some(at + DelaySeconds(count) * 1000),
           lockedAt := None, lockedBy := None)
  {
    hide MessagesOk, AcksOk, AuditOk, ConsumersOk, PublishedOk, HoldersOk, SentFor, EventOk, DelaySeconds;
    assert JobOk(s.rows, s.messages, w, k, s.workers[w][k]);
  }

  /** A claim that takes effect locks rows that are pending, due and free or whose lock has
      expired; it changes nothing else in them, and nothing in other rows. */
  lemma ClaimEffect(c: Config, s: State, w: WorkerId, now: Time, skipped: set<nat>, chosen: set<nat>, db: DbOutcome,
                    k: nat)
    requires Enabled(c, s, Claim(w, now, skipped, chosen, db)) && Applied(db) && k < |s.rows|
    ensures var row, rows := s.rows[k], Apply(c, s, Claim(w, now, skipped, chosen, db)).rows;
      && |rows| == |s.rows|
      && (rows[k] == row || rows[k] == row.(lockedAt := Some(now), lockedBy := Some(w)))
      && (k in chosen ==>
            && rows[k] == row.(lockedAt := Some(now), lockedBy := Some(w)) && k !in skipped
            && row.status == Pending && (row.nextRetryAt.Some? ==> row.nextRetryAt.value <= now)
            && (row.lockedAt.Some? ==> row.lockedAt.value + c.lockTimeoutSeconds * 1000 <= now))
      && (k !in chosen ==> rows[k] == row)
  {
  }

  /** After a failure that leaves the row pending, a claim with room that meets the row
      untouched and does not skip it takes it if and only if the delay for its retry count
      has passed. */
  lemma BackoffDecidesIff(c: Config, run: Run, i: nat, j: nat, w: WorkerId, k: nat, error: string, at: Time,
                          db: DbOutcome)
    requires IsRun(c, run) && i < j < |run.actions| && run.actions[i] == ConfirmFailed(w, k, error, at, db)
    requires k < |run.states[i].rows| && run.states[i].rows[k].lockedBy == Some(w) && Applied(db)
    requires run.states[i].rows[k].retryCount + 1 < c.maxRetryCount
    requires forall t :: i < t < j ==> !Claims(run.actions[t], k)
    requires run.actions[j].Claim? && k !in run.actions[j].skipped && |run.actions[j].chosen| < c.batchSize
    ensures k in run.actions[j].chosen <==>
      run.actions[j].now >= at + DelaySeconds(run.states[i].rows[k].retryCount + 1) * 1000
  {
    hide Inv, Apply, DelaySeconds;
    RunKeepsInv(c, run, i);
    assert StepAt(c, run, i);
    FailedEffect(c, run.states[i], w, k, error, at, db);
    UnclaimedRowIsKept(c, run, i + 1, j, k);
    assert StepAt(c, run, j);
    RoomTakesAll(run.states[j].rows, run.actions[j].now, c, run.actions[j].skipped, run.actions[j].chosen);
  }

  /** A claim that is not full takes every candidate. */
  lemma RoomTakesAll(rows: seq<Row>, now: Time, c: Config, skipped: set<nat>, chosen: set<nat>)
    requires var candidates := Candidates(rows, now, c.lockTimeoutSeconds, skipped);
      OldestOf(rows, candidates, c.batchSize, chosen)
    requires |chosen| < c.batchSize
    ensures forall k :: 0 <= k < |rows| && k !in skipped ==>
      (k in chosen <==> Eligible(rows[k], now, c.lockTimeoutSeconds))
  {
    var candidates := Candidates(rows, now, c.lockTimeoutSeconds, skipped);
    hide Eligible;
    SameSize(chosen, candidates);
  }

  /** A claim with room takes exactly the pending rows that are not skipped, are due, and are
      free or have been locked for the lock timeout. */
  lemma RoomDecidesIff(c: Config, s: State, w: WorkerId, now: Time, skipped: set<nat>, chosen: set<nat>, db: DbOutcome,
                       k: nat)
    requires Enabled(c, s, Claim(w, now, skipped, chosen, db)) && |chosen| < c.batchSize && k < |s.rows|
    ensures k in chosen <==>
      && k !in skipped && s.rows[k].status == Pending
      && (s.rows[k].nextRetryAt.Some? ==> s.rows[k].nextRetryAt.value <= now)
      && (s.rows[k].lockedAt.Some? ==> now - s.rows[k].lockedAt.value >= c.lockTimeoutSeconds * 1000)
  {
    RoomTakesAll(s.rows, now, c, skipped, chosen);
  }

  lemma SameSize(a: set<nat>, b: set<nat>)
    requires a <= b && |a| == |b|
    ensures a == b
  {
    assert |b - a| == |b| - |a|;
  }

  // ---- Order ----

  /** Pending, due and locked by no one. */
  predicate IsFree(row: Row, now: Time) {
    row.status == Pending && (row.nextRetryAt.None? || row.nextRetryAt.value <= now) && row.lockedAt.None?
  }

  /** Of two free rows a claim never locks the younger and leaves the older, unless another
      transaction had that one locked. */
  lemma OlderRowsFirst(c: Config, s: State, w: WorkerId, now: Time, skipped: set<nat>, chosen: set<nat>, db: DbOutcome,
                       older: nat, younger: nat)
    requires Enabled(c, s, Claim(w, now, skipped, chosen, db)) && Applied(db)
    requires older < |s.rows| && younger < |s.rows| && older !in skipped
    requires IsFree(s.rows[older], now) && IsFree(s.rows[younger], now)
    requires s.rows[older].createdAt < s.rows[younger].createdAt
    ensures var rows := Apply(c, s, Claim(w, now, skipped, chosen, db)).rows;
      rows[younger].lockedBy == Some(w) && s.rows[younger].lockedBy != Some(w) ==> rows[older].lockedBy == Some(w)
  {
    assert older in Candidates(s.rows, now, c.lockTimeoutSeconds, skipped);
  }
}
