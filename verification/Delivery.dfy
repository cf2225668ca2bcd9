// What the delivery path guarantees over every run: exactly one audit row per event, no
// loss, frozen outcomes, exclusive leases and exact retry accounting.
module Delivery {
  import opened Common
  import opened Text
  import opened SensitiveKeys
  import opened Envelope
  import opened Outbox
  import opened Backoff
  import opened Protocol
  import opened ProtocolInvariant

  // ---- The audit log ----

  /** At most one audit row per event, whatever the deliveries and races; and the row of
      an outbox event carries that event's own columns and no secret. */
  lemma AuditLogIsFaithful(c: Config, run: Run, i: nat)
    requires IsRun(c, run) && i < |run.states|
    ensures var s := run.states[i];
      && (forall a, b :: 0 <= a < b < |s.audit| ==> s.audit[a].eventId != s.audit[b].eventId)
      && (forall a, k :: (0 <= a < |s.audit| && 0 <= k < |s.rows|
         && s.audit[a].eventId == s.rows[k].columns.eventId) ==>
            Describes(s.audit[a], s.rows[k].columns))
      && (forall a :: 0 <= a < |s.audit| ==> Secretless(s.audit[a].details))
  {
    hide Clean, Secretless, Describes;
    RunKeepsInv(c, run, i);
    var s := run.states[i];
    forall a | 0 <= a < |s.audit| ensures Secretless(s.audit[a].details) {
      var _ := AuditRowOrigin(c, s, a);
      CleanIffSecretless(s.audit[a].details);
    }
    forall a, k | 0 <= a < |s.audit| && 0 <= k < |s.rows| && s.audit[a].eventId == s.rows[k].columns.eventId
      ensures Describes(s.audit[a], s.rows[k].columns)
    {
      AuditRowDescribes(c, s, a, k);
    }
  }

  lemma AuditRowOrigin(c: Config, s: State, a: nat) returns (m: nat)
    requires Inv(c, s) && a < |s.audit|
    ensures m < |s.messages| && BodyData(c, s.messages[m].body) == Ok(s.audit[a])
    ensures MessageOk(c, s.rows, s.messages[m])
    ensures BodyKey(s.messages[m].body) == Ok(s.audit[a].eventId)
    ensures Clean(s.audit[a].details)
  {
    hide RowsOk, HandsOk, HoldersOk, PublishedOk, AcksOk, ConsumersOk, MessageOk, Clean;
    assert FromMessage(c, s.messages, s.audit[a]);
    m :| 0 <= m < |s.messages| && BodyData(c, s.messages[m].body) == Ok(s.audit[a]);
  }

  lemma AuditRowDescribes(c: Config, s: State, a: nat, k: nat)
    requires Inv(c, s) && a < |s.audit| && k < |s.rows|
    requires s.audit[a].eventId == s.rows[k].columns.eventId
    ensures Describes(s.audit[a], s.rows[k].columns)
  {
    hide HandsOk, HoldersOk, PublishedOk, AcksOk, ConsumersOk, Describes, ValidateClaimed, BuildAuditData, Clean;
    var m := AuditRowOrigin(c, s, a);
    var message := s.messages[m];
    assert message.row.Some?;
    var r := message.row.value;
    RelayedKey(c, s, r);
    assert r == k;
    RelayedBodyKeepsColumns(s.rows[k].columns, s.rows[k].payload, c.dateParses);
  }

  /** A relayed body is keyed by its row's event id. */
  lemma RelayedKey(c: Config, s: State, k: nat)
    requires RowsOk(c, s.rows) && k < |s.rows|
    requires ValidateClaimed(s.rows[k].columns, s.rows[k].payload, c.dateParses).Ok?
    ensures BodyKey(Parsed(s.rows[k].payload)) == Ok(s.rows[k].columns.eventId)
  {
    hide ValidateClaimed;
    assert RowOk(c, s.rows[k]);
    RelayedBodyKeepsColumns(s.rows[k].columns, s.rows[k].payload, c.dateParses);
    ValidatedFields(s.rows[k].columns, s.rows[k].payload, c.dateParses);
    UuidIsTight(s.rows[k].columns.eventId);
  }

  /** Without surrounding white space the audit row's fields are the columns. */
  lemma TightColumnsAreKept(data: AuditData, columns: Columns)
    requires Describes(data, columns)
    requires Tight(columns.tenantId) && Canonical(columns.tenantId) == columns.tenantId
    requires Tight(columns.requestId) && Tight(columns.eventType)
    requires Tight(columns.aggregateType) && Tight(columns.aggregateId)
    ensures data.tenantId == columns.tenantId && data.requestId == columns.requestId
    ensures data.action == columns.eventType
    ensures data.resourceType == columns.aggregateType && data.resourceId == columns.aggregateId
  {
    TrimFixesTight(columns.tenantId);
    TrimFixesTight(columns.requestId);
    TrimFixesTight(columns.eventType);
    TrimFixesTight(columns.aggregateType);
    TrimFixesTight(columns.aggregateId);
  }

  // ---- No loss ----

  /** Where a sent message is: waiting, dead-lettered after five receives, or acknowledged
      with its event, the relayed row's own one, in the audit log. */
  ghost predicate Accounted(s: State, message: Message) {
    match message.place
    case Queued => true
    case DeadLettered => message.receives >= 5
    case Deleted =>
      && Audited(s.audit, message.body)
      && (message.row.Some? ==>
            message.row.value < |s.rows| && HasAudit(s.audit, s.rows[message.row.value].columns.eventId))
  }

  ghost predicate WasSent(s: State, k: nat)
    requires k < |s.rows|
  {
    exists m :: 0 <= m < |s.messages| && s.messages[m].row == Some(k)
             && s.messages[m].body == Parsed(s.rows[k].payload)
  }

  /** A row is published only if its payload was sent, and a sent message is still in the
      queue, in the dead-letter queue, or in the audit log; so a body without a valid event
      id is never acknowledged. */
  lemma NothingIsLost(c: Config, run: Run, i: nat)
    requires IsRun(c, run) && i < |run.states|
    ensures var s := run.states[i];
      && (forall k :: 0 <= k < |s.rows| && s.rows[k].status.Published? ==> WasSent(s, k))
      && (forall m :: 0 <= m < |s.messages| ==> Accounted(s, s.messages[m]))
  {
    hide RowsOk, HandsOk, HoldersOk, AuditOk, ConsumersOk, ValidateClaimed, Audited, HasAudit, BodyKey;
    RunKeepsInv(c, run, i);
    var s := run.states[i];
    forall k | 0 <= k < |s.rows| && s.rows[k].status.Published? ensures WasSent(s, k) {
      assert SentFor(s.messages, k);
      var m :| 0 <= m < |s.messages| && s.messages[m].row == Some(k);
      assert MessageOk(c, s.rows, s.messages[m]);
    }
    forall m | 0 <= m < |s.messages| ensures Accounted(s, s.messages[m]) {
      assert MessageOk(c, s.rows, s.messages[m]);
      if s.messages[m].row.Some? && s.messages[m].place.Deleted? {
        DeletedIsAudited(c, s, m);
      }
    }
  }

  lemma DeletedIsAudited(c: Config, s: State, m: nat)
    requires Inv(c, s) && m < |s.messages|
    requires s.messages[m].row.Some? && s.messages[m].place.Deleted?
    ensures s.messages[m].row.value < |s.rows|
    ensures HasAudit(s.audit, s.rows[s.messages[m].row.value].columns.eventId)
  {
    hide RowsOk, HandsOk, HoldersOk, AuditOk, ConsumersOk, ValidateClaimed, BodyKey;
    assert MessageOk(c, s.rows, s.messages[m]);
    RelayedKey(c, s, s.messages[m].row.value);
  }

  /** A queued message never stands still: it can be received by any idle consumer as long as
      it was received less than five times, and from then on dead-lettered. */
  lemma QueuedMessageGoesOn(c: Config, s: State, m: nat, consumer: nat)
    requires m < |s.messages| && s.messages[m].place.Queued? && ConsumerOf(s, consumer).Idle?
    ensures Enabled(c, s, Receive(consumer, m)) <==> s.messages[m].receives < 5
    ensures Enabled(c, s, Redrive(m)) <==> !Enabled(c, s, Receive(consumer, m))
  {
  }

  // ---- One row over one step ----

  function FailedRow(c: Config, row: Row, error: string, at: Time): Row {
    AsFailed(row, FailureOf(c, row.retryCount, error, at))
  }

  /** All that can happen to an existing row: nothing, a claim while it is eligible, or
      one of the two marks by the worker holding its lock, counting from the row's own
      retry count. */
  ghost predicate RowStep(c: Config, a: Action, k: nat, before: Row, after: Row) {
    || after == before
    || (a.Claim? && k in a.chosen && Eligible(before, a.now, c.lockTimeoutSeconds)
        && after == Lock(before, a.w, a.now))
    || (a.ConfirmPublished? && a.k == k && before.lockedBy == Some(a.w) && before.status.Pending?
        && after == AsPublished(before, a.at, a.target))
    || (a.ConfirmFailed? && a.k == k && before.lockedBy == Some(a.w) && before.status.Pending?
        && after == FailedRow(c, before, a.error, a.at))
  }

  lemma RowsStep(c: Config, s: State, a: Action, k: nat)
    requires Inv(c, s) && Enabled(c, s, a) && k < |s.rows|
    ensures |s.rows| <= |Apply(c, s, a).rows|
    ensures RowStep(c, a, k, s.rows[k], Apply(c, s, a).rows[k])
  {
    hide MessagesOk, AcksOk, AuditOk, ConsumersOk, PublishedOk, HoldersOk, SentFor, EventOk, FailureOf;
    assert RowOk(c, s.rows[k]);
    if a.ConfirmFailed? && a.k == k {
      assert JobOk(s.rows, s.messages, a.w, k, s.workers[a.w][k]);
    }
  }

  // ---- Finished rows are frozen ----

  /** `published` and `failed` are absorbing: from then on no column of the row changes. */
  lemma {:induction false} FinishedRowsAreFrozen(c: Config, run: Run, i: nat, j: nat, k: nat)
    requires IsRun(c, run) && i <= j < |run.states| && k < |run.states[i].rows|
    requires !run.states[i].rows[k].status.Pending?
    ensures k < |run.states[j].rows| && run.states[j].rows[k] == run.states[i].rows[k]
    decreases j
  {
    if i < j {
      hide Inv;
      FinishedRowsAreFrozen(c, run, i, j - 1, k);
      RunKeepsInv(c, run, j - 1);
      assert StepAt(c, run, j - 1);
      RowsStep(c, run.states[j - 1], run.actions[j - 1], k);
    }
  }

  // ---- Lost locks ----

  ghost predicate ClaimsAgain(a: Action, w: WorkerId) {
    a.Claim? && a.w == w
  }

  predicate Marks(a: Action, w: WorkerId, k: nat) {
    (a.ConfirmPublished? || a.ConfirmFailed?) && a.w == w && a.k == k
  }

  predicate SameRows(run: Run, t: nat)
    requires t + 1 < |run.states|
  {
    run.states[t + 1].rows == run.states[t].rows
  }

  lemma LostLockStep(c: Config, s: State, a: Action, w: WorkerId, k: nat)
    requires Inv(c, s) && Enabled(c, s, a) && k < |s.rows|
    requires s.rows[k].lockedBy != Some(w) && !ClaimsAgain(a, w)
    ensures k < |Apply(c, s, a).rows| && Apply(c, s, a).rows[k].lockedBy != Some(w)
    ensures Marks(a, w, k) ==> Apply(c, s, a).rows == s.rows
  {
    hide Inv;
    RowsStep(c, s, a, k);
  }

  lemma LostLockRunStep(c: Config, run: Run, t: nat, w: WorkerId, k: nat)
    requires IsRun(c, run) && t < |run.actions| && k < |run.states[t].rows|
    requires run.states[t].rows[k].lockedBy != Some(w) && !ClaimsAgain(run.actions[t], w)
    ensures k < |run.states[t + 1].rows| && run.states[t + 1].rows[k].lockedBy != Some(w)
    ensures Marks(run.actions[t], w, k) ==> SameRows(run, t)
  {
    hide Inv, Enabled, Apply, Marks;
    RunKeepsInv(c, run, t);
    assert StepAt(c, run, t);
    LostLockStep(c, run.states[t], run.actions[t], w, k);
  }

  /** A worker whose lock was taken over changes nothing more on that row until it claims
      again: it never holds the lock and none of its marks has an effect. */
  lemma {:induction false} LostLockStaysLost(c: Config, run: Run, i: nat, j: nat, w: WorkerId, k: nat)
    requires IsRun(c, run) && i <= j < |run.states| && k < |run.states[i].rows|
    requires run.states[i].rows[k].lockedBy != Some(w)
    requires forall t :: i <= t < j ==> !ClaimsAgain(run.actions[t], w)
    ensures k < |run.states[j].rows| && run.states[j].rows[k].lockedBy != Some(w)
    ensures forall t :: i <= t < j && Marks(run.actions[t], w, k) ==> SameRows(run, t)
    decreases j
  {
    if i < j {
      hide StepAt, Marks, SameRows, ClaimsAgain;
      LostLockStaysLost(c, run, i, j - 1, w, k);
      LostLockRunStep(c, run, j - 1, w, k);
    }
  }

  // ---- Leases ----

  /** The lease a claim at `since` gives: [since, since + timeout). */
  predicate InLease(c: Config, since: Time, t: Time) {
    since <= t < since + c.lockTimeoutSeconds * 1000
  }

  lemma LeaseStep(c: Config, s: State, a: Action, k: nat)
    requires Inv(c, s) && Enabled(c, s, a) && k < |s.rows| && s.rows[k].lockedAt.Some?
    requires k < |Apply(c, s, a).rows| && Apply(c, s, a).rows[k].lockedAt.Some?
    ensures var before, after := s.rows[k], Apply(c, s, a).rows[k];
      || (after.lockedAt == before.lockedAt && after.lockedBy == before.lockedBy)
      || after.lockedAt.value >= before.lockedAt.value + c.lockTimeoutSeconds * 1000
  {
    hide Inv, Apply, FailureOf;
    RowsStep(c, s, a, k);
  }

  /** While a row stays locked, either the lock is still the one taken first or the leases
      have moved on in time. */
  lemma {:induction false} LeasesMoveOn(c: Config, run: Run, i: nat, j: nat, k: nat)
    requires IsRun(c, run) && i <= j < |run.states| && k < |run.states[i].rows|
    requires c.lockTimeoutSeconds >= 0
    requires forall t :: i <= t <= j ==> k < |run.states[t].rows| && run.states[t].rows[k].lockedAt.Some?
    ensures var before, after := run.states[i].rows[k], run.states[j].rows[k];
      || (after.lockedAt == before.lockedAt && after.lockedBy == before.lockedBy)
      || after.lockedAt.value >= before.lockedAt.value + c.lockTimeoutSeconds * 1000
    decreases j
  {
    if i < j {
      hide Inv, Enabled, Apply;
      LeasesMoveOn(c, run, i, j - 1, k);
      RunKeepsInv(c, run, j - 1);
      assert StepAt(c, run, j - 1);
      LeaseStep(c, run.states[j - 1], run.actions[j - 1], k);
    }
  }

  /** Successive leases of a row that is never released never overlap in time, on whatever
      clocks the workers claim: two different leases share no instant. */
  lemma LeasesNeverOverlap(c: Config, run: Run, i: nat, j: nat, k: nat, t: Time)
    requires IsRun(c, run) && i <= j < |run.states| && k < |run.states[i].rows|
    requires forall t :: i <= t <= j ==> k < |run.states[t].rows| && run.states[t].rows[k].lockedAt.Some?
    requires InLease(c, run.states[i].rows[k].lockedAt.value, t)
    requires InLease(c, run.states[j].rows[k].lockedAt.value, t)
    ensures run.states[i].rows[k].lockedBy == run.states[j].rows[k].lockedBy
    ensures run.states[i].rows[k].lockedAt == run.states[j].rows[k].lockedAt
  {
    LeasesMoveOn(c, run, i, j, k);
  }

  // ---- Backoff ----

  predicate Claims(a: Action, k: nat) {
    a.Claim? && k in a.chosen
  }

  lemma UnlockedRowStep(c: Config, s: State, a: Action, k: nat)
    requires Inv(c, s) && Enabled(c, s, a) && k < |s.rows| && s.rows[k].lockedBy.None?
    ensures Claims(a, k) ==> Eligible(s.rows[k], a.now, c.lockTimeoutSeconds)
    ensures k < |Apply(c, s, a).rows| && (!Claims(a, k) ==> Apply(c, s, a).rows[k] == s.rows[k])
  {
    hide Inv, Apply;
    RowsStep(c, s, a, k);
    if Claims(a, k) {
      assert k in Candidates(s.rows, a.now, c.lockTimeoutSeconds, a.skipped);
    }
  }

  lemma UnclaimedRowStep(c: Config, run: Run, t: nat, k: nat)
    requires IsRun(c, run) && t < |run.actions| && k < |run.states[t].rows|
    requires run.states[t].rows[k].lockedBy.None? && !Claims(run.actions[t], k)
    ensures k < |run.states[t + 1].rows| && run.states[t + 1].rows[k] == run.states[t].rows[k]
  {
    hide Inv, Enabled, Apply, Claims, Eligible;
    RunKeepsInv(c, run, t);
    assert StepAt(c, run, t);
    UnlockedRowStep(c, run.states[t], run.actions[t], k);
  }

  lemma {:induction false} UnclaimedRowIsKept(c: Config, run: Run, i: nat, j: nat, k: nat)
    requires IsRun(c, run) && i <= j < |run.states| && k < |run.states[i].rows|
    requires run.states[i].rows[k].lockedBy.None? && forall t :: i <= t < j ==> !Claims(run.actions[t], k)
    ensures k < |run.states[j].rows| && run.states[j].rows[k] == run.states[i].rows[k]
    decreases j
  {
    hide StepAt, Claims;
    if i < j {
      UnclaimedRowIsKept(c, run, i, j - 1, k);
      UnclaimedRowStep(c, run, j - 1, k);
    }
  }

  /** After a failure that leaves the row pending, the next claim of the row, by whichever
      worker, is at or after the failure plus the delay for the row's new retry count. */
  lemma BackoffIsHonoured(c: Config, run: Run, i: nat, j: nat, w: WorkerId, k: nat, error: string, at: Time,
                          db: DbOutcome)
    requires IsRun(c, run) && i < j < |run.actions| && run.actions[i] == ConfirmFailed(w, k, error, at, db)
    requires Holds(run.states[i].rows, k, w) && Applied(db)
    requires k < |run.states[i + 1].rows| && run.states[i + 1].rows[k].status.Pending?
    requires Claims(run.actions[j], k) && forall t :: i < t < j ==> !Claims(run.actions[t], k)
    ensures run.actions[j].now >= at + DelaySeconds(run.states[i + 1].rows[k].retryCount) * 1000
  {
    hide Inv, Enabled, Apply, DelaySeconds;
    RunKeepsInv(c, run, i);
    assert StepAt(c, run, i);
    MarkedRow(c, run.states[i], run.actions[i]);
    UnclaimedRowIsKept(c, run, i + 1, j, k);
    RunKeepsInv(c, run, j);
    assert StepAt(c, run, j);
    UnlockedRowStep(c, run.states[j], run.actions[j], k);
  }

  // ---- Retry accounting ----

  /** What is left to do for a row: failures it may still take, one at least while pending. */
  function RowWeight(c: Config, row: Row): int {
    if row.status.Pending? then RetryCap(c) - row.retryCount else 0
  }

  function Weight(c: Config, rows: seq<Row>): int {
    if rows == [] then 0 else Weight(c, rows[..|rows| - 1]) + RowWeight(c, rows[|rows| - 1])
  }

  ghost predicate NoPending(rows: seq<Row>) {
    forall k :: 0 <= k < |rows| ==> !rows[k].status.Pending?
  }

  lemma {:induction false} WeightCountsPending(c: Config, rows: seq<Row>)
    requires forall k :: 0 <= k < |rows| ==> RowOk(c, rows[k])
    ensures Weight(c, rows) >= 0
    ensures Weight(c, rows) == 0 <==> NoPending(rows)
  {
    hide EventOk;
    if rows != [] {
      var init := rows[..|rows| - 1];
      WeightCountsPending(c, init);
      assert RowOk(c, rows[|rows| - 1]);
      assert NoPending(rows) <==> NoPending(init) && !rows[|rows| - 1].status.Pending?;
    }
  }

  lemma {:induction false} WeightIsMonotone(c: Config, before: seq<Row>, after: seq<Row>)
    requires |before| == |after|
    requires forall k :: 0 <= k < |before| ==> RowWeight(c, after[k]) <= RowWeight(c, before[k])
    ensures Weight(c, after) <= Weight(c, before)
    ensures (exists k :: 0 <= k < |before| && RowWeight(c, after[k]) < RowWeight(c, before[k])) ==>
              Weight(c, after) < Weight(c, before)
  {
    if before != [] {
      var n := |before| - 1;
      WeightIsMonotone(c, before[..n], after[..n]);
      if k :| 0 <= k < |before| && RowWeight(c, after[k]) < RowWeight(c, before[k]) {
        if k < n {
          assert RowWeight(c, after[..n][k]) < RowWeight(c, before[..n][k]);
        }
      }
    }
  }

  /** Every effective mark, published or failed, lowers the total weight; a failure counts
      exactly one retry and fails the row exactly when that reaches the cap. Claims, stale
      marks, sends and everything on the queue leave the weight alone. */
  lemma EffectiveMarksLowerTheWeight(c: Config, s: State, a: Action)
    requires Inv(c, s) && Enabled(c, s, a) && !a.Produce?
    ensures var t := Apply(c, s, a);
      && Weight(c, t.rows) <= Weight(c, s.rows)
      && ((a.ConfirmPublished? || a.ConfirmFailed?) && Holds(s.rows, a.k, a.w) && Applied(a.db) ==>
            && Weight(c, t.rows) < Weight(c, s.rows)
            && t.rows[a.k].retryCount == s.rows[a.k].retryCount + (if a.ConfirmFailed? then 1 else 0)
            && (t.rows[a.k].status.Failed? <==> a.ConfirmFailed? && t.rows[a.k].retryCount == RetryCap(c)))
      && ((a.ConfirmPublished? || a.ConfirmFailed?) && !Holds(s.rows, a.k, a.w) ==> t.rows == s.rows)
  {
    hide Inv, Apply, RowOk;
    var t := Apply(c, s, a);
    RowCount(c, s, a);
    forall k | 0 <= k < |s.rows| ensures RowWeight(c, t.rows[k]) <= RowWeight(c, s.rows[k]) {
      RowStepKeepsWeight(c, s, a, k);
    }
    WeightIsMonotone(c, s.rows, t.rows);
    if (a.ConfirmPublished? || a.ConfirmFailed?) && Holds(s.rows, a.k, a.w) && Applied(a.db) {
      MarkedRow(c, s, a);
      assert RowWeight(c, t.rows[a.k]) < RowWeight(c, s.rows[a.k]);
    }
  }

  lemma RowStepKeepsWeight(c: Config, s: State, a: Action, k: nat)
    requires Inv(c, s) && Enabled(c, s, a) && k < |s.rows|
    ensures k < |Apply(c, s, a).rows| && RowWeight(c, Apply(c, s, a).rows[k]) <= RowWeight(c, s.rows[k])
  {
    hide HandsOk, MessagesOk, AcksOk, AuditOk, ConsumersOk, PublishedOk, HoldersOk, EventOk, Apply, Enabled;
    assert RowOk(c, s.rows[k]);
    RowsStep(c, s, a, k);
  }

  lemma RowCount(c: Config, s: State, a: Action)
    requires Enabled(c, s, a) && !a.Produce?
    ensures |Apply(c, s, a).rows| == |s.rows|
    ensures (a.ConfirmPublished? || a.ConfirmFailed?) && !Holds(s.rows, a.k, a.w) ==> Apply(c, s, a).rows == s.rows
  {
  }

  lemma MarkedRow(c: Config, s: State, a: Action)
    requires Inv(c, s) && Enabled(c, s, a)
    requires (a.ConfirmPublished? || a.ConfirmFailed?) && Holds(s.rows, a.k, a.w) && Applied(a.db)
    ensures s.rows[a.k].status.Pending? && 0 <= s.rows[a.k].retryCount < RetryCap(c)
    ensures a.k < |Apply(c, s, a).rows|
    ensures Apply(c, s, a).rows[a.k] ==
      if a.ConfirmPublished? then AsPublished(s.rows[a.k], a.at, a.target)
      else FailedRow(c, s.rows[a.k], a.error, a.at)
  {
    hide MessagesOk, AcksOk, AuditOk, ConsumersOk, PublishedOk, HoldersOk, SentFor, EventOk;
    assert RowOk(c, s.rows[a.k]);
    assert JobOk(s.rows, s.messages, a.w, a.k, s.workers[a.w][a.k]);
  }
}
