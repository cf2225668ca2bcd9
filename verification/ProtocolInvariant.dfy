// The inductive invariant behind the delivery path. The marking statements never test a
// row's status; that they cannot touch a finished row rests on `RowOk` and `HandOk`.
module ProtocolInvariant {
  import opened Common
  import opened Json
  import opened Text
  import opened Envelope
  import opened Outbox
  import opened Protocol

  function RetryCap(c: Config): int {
    if c.maxRetryCount > 1 then c.maxRetryCount else 1
  }

  // ---- Rows ----

  /** A lock names its holder and its time together and only ever sits on a pending row;
      retries are counted below the cap until the row fails, exactly at the cap. */
  ghost predicate RowOk(c: Config, row: Row) {
    && (row.lockedBy.None? <==> row.lockedAt.None?)
    && (row.lockedBy.Some? ==> row.status.Pending?)
    && 0 <= row.retryCount
    && (if row.status.Failed? then row.retryCount == RetryCap(c) else row.retryCount < RetryCap(c))
    && (row.status.Published? <==> row.publishedAt.Some?)
    && (row.nextRetryAt.Some? ==> row.status.Pending? && row.retryCount > 0)
    && EventOk(row.columns, row.payload)
  }

  /** `randomUUID` yields lower case; no producer writes a top-level `detail`. */
  ghost predicate EventOk(columns: Columns, payload: Json) {
    && IsUuid(columns.eventId) && Canonical(columns.eventId) == columns.eventId
    && Get(payload, "detail").None?
  }

  ghost predicate RowsOk(c: Config, rows: seq<Row>) {
    && (forall k :: 0 <= k < |rows| ==> RowOk(c, rows[k]))
    && (forall i, j :: 0 <= i < j < |rows| ==> rows[i].columns.eventId != rows[j].columns.eventId)
  }

  /** What never changes in a row. */
  ghost predicate SameEvents(before: seq<Row>, after: seq<Row>) {
    && |before| <= |after|
    && forall k :: 0 <= k < |before| ==>
         before[k].columns == after[k].columns && before[k].payload == after[k].payload
  }

  // ---- Workers ----

  predicate SentFor(messages: seq<Message>, k: nat) {
    exists m :: 0 <= m < |messages| && messages[m].row == Some(k)
  }

  ghost predicate JobOk(rows: seq<Row>, messages: seq<Message>, w: WorkerId, k: nat, job: Job) {
    && k < |rows|
    && job.event.columns == rows[k].columns && job.event.payload == rows[k].payload
    && (rows[k].lockedBy == Some(w) ==> job.event.retryCount == rows[k].retryCount)
    && (job.phase.Sent? ==> SentFor(messages, k))
  }

  ghost predicate HandsOk(rows: seq<Row>, messages: seq<Message>, workers: map<WorkerId, Hand>) {
    forall w, k :: w in workers && k in workers[w] ==> JobOk(rows, messages, w, k, workers[w][k])
  }

  /** Worker ids are never reused, so every lock belongs to a worker once started. */
  ghost predicate HoldersOk(s: State) {
    forall k :: 0 <= k < |s.rows| && s.rows[k].lockedBy.Some? ==>
      s.rows[k].lockedBy.value in s.workers || s.rows[k].lockedBy.value in s.retired
  }

  // ---- Messages, consumers and the audit log ----

  ghost predicate MessageOk(c: Config, rows: seq<Row>, message: Message) {
    && (message.row.Some? ==>
          && message.row.value < |rows|
          && message.body == Parsed(rows[message.row.value].payload)
          && ValidateClaimed(rows[message.row.value].columns, rows[message.row.value].payload, c.dateParses).Ok?)
    && (message.row.None? ==>
          forall k :: 0 <= k < |rows| ==> BodyKey(message.body) != Ok(rows[k].columns.eventId))
    && (message.place.DeadLettered? ==> message.receives >= MAX_RECEIVE_COUNT)
  }

  ghost predicate MessagesOk(c: Config, rows: seq<Row>, messages: seq<Message>) {
    forall m :: 0 <= m < |messages| ==> MessageOk(c, rows, messages[m])
  }

  ghost predicate PublishedOk(rows: seq<Row>, messages: seq<Message>) {
    forall k :: 0 <= k < |rows| && rows[k].status.Published? ==> SentFor(messages, k)
  }

  /** The event of this body is in the audit log. */
  ghost predicate Audited(audit: seq<AuditData>, body: Body) {
    BodyKey(body).Ok? && HasAudit(audit, BodyKey(body).value)
  }

  ghost predicate AcksOk(messages: seq<Message>, audit: seq<AuditData>) {
    forall m :: 0 <= m < |messages| && messages[m].place.Deleted? ==> Audited(audit, messages[m].body)
  }

  ghost predicate FromMessage(c: Config, messages: seq<Message>, data: AuditData) {
    exists m :: 0 <= m < |messages| && BodyData(c, messages[m].body) == Ok(data)
  }

  ghost predicate AuditOk(c: Config, messages: seq<Message>, audit: seq<AuditData>) {
    && (forall i, j :: 0 <= i < j < |audit| ==> audit[i].eventId != audit[j].eventId)
    && (forall i :: 0 <= i < |audit| ==> FromMessage(c, messages, audit[i]))
  }

  ghost predicate ConsumerOk(c: Config, messages: seq<Message>, audit: seq<AuditData>, consumer: Consumer) {
    match consumer
    case Idle => true
    case Received(m) => m < |messages|
    case NotFound(m, data) => m < |messages| && BodyData(c, messages[m].body) == Ok(data)
    case Recorded(m) => m < |messages| && Audited(audit, messages[m].body)
  }

  ghost predicate ConsumersOk(c: Config, messages: seq<Message>, audit: seq<AuditData>, consumers: map<nat, Consumer>) {
    forall i :: i in consumers ==> ConsumerOk(c, messages, audit, consumers[i])
  }

  ghost predicate Inv(c: Config, s: State) {
    && RowsOk(c, s.rows)
    && HandsOk(s.rows, s.messages, s.workers)
    && HoldersOk(s)
    && MessagesOk(c, s.rows, s.messages)
    && PublishedOk(s.rows, s.messages)
    && AcksOk(s.messages, s.audit)
    && AuditOk(c, s.messages, s.audit)
    && ConsumersOk(c, s.messages, s.audit, s.consumers)
  }

  // ---- Frame lemmas ----

  /** Bodies and origins never change and no message disappears. */
  ghost predicate SameBodies(before: seq<Message>, after: seq<Message>) {
    && |before| <= |after|
    && forall m :: 0 <= m < |before| ==> before[m].body == after[m].body && before[m].row == after[m].row
  }

  ghost predicate Extends(before: seq<AuditData>, after: seq<AuditData>) {
    |before| <= |after| && forall i :: 0 <= i < |before| ==> before[i] == after[i]
  }

  lemma SentForKept(before: seq<Message>, after: seq<Message>, k: nat)
    requires SameBodies(before, after) && SentFor(before, k)
    ensures SentFor(after, k)
  {
  }

  lemma AuditedKept(before: seq<AuditData>, after: seq<AuditData>, body: Body)
    requires Extends(before, after) && Audited(before, body)
    ensures Audited(after, body)
  {
  }

  lemma FromMessageKept(c: Config, before: seq<Message>, after: seq<Message>, data: AuditData)
    requires SameBodies(before, after) && FromMessage(c, before, data)
    ensures FromMessage(c, after, data)
  {
    var m :| 0 <= m < |before| && BodyData(c, before[m].body) == Ok(data);
    assert BodyData(c, after[m].body) == Ok(data);
  }

  lemma ConsumersKept(c: Config, before: State, after: State)
    requires ConsumersOk(c, before.messages, before.audit, before.consumers)
    requires SameBodies(before.messages, after.messages) && Extends(before.audit, after.audit)
    ensures ConsumersOk(c, after.messages, after.audit, before.consumers)
  {
    forall i | i in before.consumers
      ensures ConsumerOk(c, after.messages, after.audit, before.consumers[i])
    {
      var consumer := before.consumers[i];
      if consumer.Recorded? {
        AuditedKept(before.audit, after.audit, before.messages[consumer.m].body);
      }
    }
  }

  /** The parts of the invariant that only depend on bodies and audit rows. */
  lemma QueueSideKept(c: Config, before: State, after: State)
    requires Inv(c, before)
    requires SameBodies(before.messages, after.messages) && after.audit == before.audit
    requires after.consumers == before.consumers
    requires forall m :: 0 <= m < |after.messages| && after.messages[m].place.Deleted? ==>
               m < |before.messages| && before.messages[m].place.Deleted?
    ensures AcksOk(after.messages, after.audit)
    ensures AuditOk(c, after.messages, after.audit)
    ensures ConsumersOk(c, after.messages, after.audit, after.consumers)
  {
    ConsumersKept(c, before, after);
    forall i | 0 <= i < |after.audit| ensures FromMessage(c, after.messages, after.audit[i]) {
      FromMessageKept(c, before.messages, after.messages, after.audit[i]);
    }
  }

  /** The parts that look at rows only through their fixed columns and payload. */
  lemma MessagesKept(c: Config, before: seq<Row>, after: seq<Row>, messages: seq<Message>)
    requires MessagesOk(c, before, messages)
    requires SameEvents(before, after) && |before| == |after|
    ensures MessagesOk(c, after, messages)
  {
  }

  // ---- Steps on the outbox table ----

  lemma ProduceKeepsInv(c: Config, s: State, columns: Columns, payload: Json, createdAt: Time)
    requires Inv(c, s) && Enabled(c, s, Produce(columns, payload, createdAt))
    ensures Inv(c, Apply(c, s, Produce(columns, payload, createdAt)))
  {
    var t := Apply(c, s, Produce(columns, payload, createdAt));
    assert RowOk(c, NewRow(columns, payload, createdAt));
    forall m | 0 <= m < |t.messages| ensures MessageOk(c, t.rows, t.messages[m]) {
      assert MessageOk(c, s.rows, s.messages[m]);
    }
    forall w, k | w in t.workers && k in t.workers[w] ensures JobOk(t.rows, t.messages, w, k, t.workers[w][k]) {
      assert JobOk(s.rows, s.messages, w, k, s.workers[w][k]);
    }
    QueueSideKept(c, s, t);
  }

  lemma ClaimKeepsRows(c: Config, s: State, w: WorkerId, now: Time, chosen: set<nat>)
    requires RowsOk(c, s.rows) && forall k :: k in chosen ==> k < |s.rows| && s.rows[k].status.Pending?
    ensures RowsOk(c, LockRows(s.rows, chosen, w, now))
    ensures SameEvents(s.rows, LockRows(s.rows, chosen, w, now))
  {
    hide EventOk;
    forall k | 0 <= k < |s.rows| ensures RowOk(c, LockRows(s.rows, chosen, w, now)[k]) {
      assert RowOk(c, s.rows[k]);
    }
  }

  lemma ClaimKeepsHands(c: Config, s: State, w: WorkerId, now: Time, skipped: set<nat>, chosen: set<nat>, db: DbOutcome)
    requires HandsOk(s.rows, s.messages, s.workers) && Enabled(c, s, Claim(w, now, skipped, chosen, db))
    ensures var t := Apply(c, s, Claim(w, now, skipped, chosen, db)); HandsOk(t.rows, t.messages, t.workers)
  {
    hide SentFor, Eligible;
    var t := Apply(c, s, Claim(w, now, skipped, chosen, db));
    forall v, k | v in t.workers && k in t.workers[v] ensures JobOk(t.rows, t.messages, v, k, t.workers[v][k]) {
      if v != w {
        assert JobOk(s.rows, s.messages, v, k, s.workers[v][k]);
      }
    }
  }

  lemma ClaimKeepsInv(c: Config, s: State, w: WorkerId, now: Time, skipped: set<nat>, chosen: set<nat>, db: DbOutcome)
    requires Inv(c, s) && Enabled(c, s, Claim(w, now, skipped, chosen, db))
    ensures Inv(c, Apply(c, s, Claim(w, now, skipped, chosen, db)))
  {
    hide RowsOk, HandsOk, MessagesOk, AcksOk, AuditOk, ConsumersOk, SentFor;
    var t := Apply(c, s, Claim(w, now, skipped, chosen, db));
    ClaimKeepsRows(c, s, w, now, chosen);
    ClaimKeepsHands(c, s, w, now, skipped, chosen, db);
    assert SameEvents(s.rows, t.rows);
    MessagesKept(c, s.rows, t.rows, t.messages);
    QueueSideKept(c, s, t);
  }

  /** Both marks rewrite the one row their worker holds and then forget or demote jobs. */
  ghost predicate IsMark(c: Config, s: State, t: State, k: nat) {
    && t == s.(rows := t.rows, workers := t.workers)
    && |t.rows| == |s.rows| && k < |s.rows| && t.rows == s.rows[k := t.rows[k]]
    && (t.rows[k] == s.rows[k]
        || (t.rows[k].lockedBy.None? && t.rows[k].columns == s.rows[k].columns
            && t.rows[k].payload == s.rows[k].payload))
    && RowOk(c, t.rows[k])
    && (t.rows[k].status.Published? ==> SentFor(s.messages, k))
    && t.workers.Keys == s.workers.Keys
    && (forall v, j :: v in t.workers && j in t.workers[v] ==>
          && j in s.workers[v]
          && t.workers[v][j].event == s.workers[v][j].event
          && (t.workers[v][j].phase.Sent? ==> s.workers[v][j].phase.Sent?))
  }

  lemma MarkKeepsRows(c: Config, s: State, t: State, k: nat)
    requires RowsOk(c, s.rows) && PublishedOk(s.rows, s.messages) && HoldersOk(s) && IsMark(c, s, t, k)
    ensures RowsOk(c, t.rows) && PublishedOk(t.rows, t.messages) && HoldersOk(t) && SameEvents(s.rows, t.rows)
  {
    hide RowOk, SentFor;
    forall j | 0 <= j < |t.rows| ensures RowOk(c, t.rows[j]) {
      assert RowOk(c, s.rows[j]);
    }
  }

  lemma MarkKeepsHands(c: Config, s: State, t: State, k: nat)
    requires HandsOk(s.rows, s.messages, s.workers) && IsMark(c, s, t, k)
    ensures HandsOk(t.rows, t.messages, t.workers)
  {
    hide RowOk, SentFor;
    forall v, j | v in t.workers && j in t.workers[v] ensures JobOk(t.rows, t.messages, v, j, t.workers[v][j]) {
      assert JobOk(s.rows, s.messages, v, j, s.workers[v][j]);
    }
  }

  lemma MarkKeepsInv(c: Config, s: State, t: State, k: nat)
    requires Inv(c, s) && IsMark(c, s, t, k)
    ensures Inv(c, t)
  {
    hide RowsOk, HandsOk, HoldersOk, PublishedOk, MessagesOk, AcksOk, AuditOk, ConsumersOk, RowOk, SentFor;
    MarkKeepsRows(c, s, t, k);
    MarkKeepsHands(c, s, t, k);
    MessagesKept(c, s.rows, t.rows, t.messages);
    assert SameBodies(s.messages, t.messages);
    QueueSideKept(c, s, t);
  }

  lemma ConfirmPublishedKeepsInv(c: Config, s: State, w: WorkerId, k: nat, at: Time, target: string, db: DbOutcome)
    requires Inv(c, s) && Enabled(c, s, ConfirmPublished(w, k, at, target, db))
    ensures Inv(c, Apply(c, s, ConfirmPublished(w, k, at, target, db)))
  {
    hide EventOk, RowsOk, HandsOk, MessagesOk, PublishedOk, HoldersOk, AcksOk, AuditOk, ConsumersOk, SentFor;
    var t := Apply(c, s, ConfirmPublished(w, k, at, target, db));
    HeldJob(c, s, w, k);
    assert RowOk(c, t.rows[k]);
    assert IsMark(c, s, t, k);
    MarkKeepsInv(c, s, t, k);
  }

  lemma ConfirmFailedKeepsInv(c: Config, s: State, w: WorkerId, k: nat, error: string, at: Time, db: DbOutcome)
    requires Inv(c, s) && Enabled(c, s, ConfirmFailed(w, k, error, at, db))
    ensures Inv(c, Apply(c, s, ConfirmFailed(w, k, error, at, db)))
  {
    hide EventOk, RowsOk, HandsOk, MessagesOk, PublishedOk, HoldersOk, AcksOk, AuditOk, ConsumersOk, SentFor;
    var t := Apply(c, s, ConfirmFailed(w, k, error, at, db));
    HeldJob(c, s, w, k);
    assert RowOk(c, t.rows[k]);
    assert t.rows[k].status.Published? ==> SentFor(s.messages, k);
    assert IsMark(c, s, t, k);
    MarkKeepsInv(c, s, t, k);
  }

  /** What the invariant says of one job and its row. */
  lemma HeldJob(c: Config, s: State, w: WorkerId, k: nat)
    requires Inv(c, s) && w in s.workers && k in s.workers[w]
    ensures JobOk(s.rows, s.messages, w, k, s.workers[w][k]) && RowOk(c, s.rows[k])
    ensures s.rows[k].status.Published? ==> SentFor(s.messages, k)
  {
    hide EventOk, SentFor, MessagesOk, AcksOk, AuditOk, ConsumersOk;
    assert JobOk(s.rows, s.messages, w, k, s.workers[w][k]);
  }

  // ---- Steps that send ----

  /** A new message at the end of the queue. */
  lemma EnqueueKeepsInv(c: Config, s: State, message: Message)
    requires Inv(c, s) && MessageOk(c, s.rows, message) && !message.place.Deleted?
    ensures Inv(c, s.(messages := s.messages + [message]))
  {
    var t := s.(messages := s.messages + [message]);
    forall k | 0 <= k < |t.rows| && t.rows[k].status.Published? ensures SentFor(t.messages, k) {
      SentForKept(s.messages, t.messages, k);
    }
    forall v, k | v in t.workers && k in t.workers[v] ensures JobOk(t.rows, t.messages, v, k, t.workers[v][k]) {
      assert JobOk(s.rows, s.messages, v, k, s.workers[v][k]);
      if s.workers[v][k].phase.Sent? {
        SentForKept(s.messages, t.messages, k);
      }
    }
    QueueSideKept(c, s, t);
  }

  lemma SendKeepsInv(c: Config, s: State, w: WorkerId, k: nat, send: SendOutcome)
    requires Inv(c, s) && Enabled(c, s, Send(w, k, send))
    ensures Inv(c, Apply(c, s, Send(w, k, send)))
  {
    hide RowOk, EventOk, FromMessage, ConsumerOk, Audited, ValidateClaimed, BodyKey, BodyData;
    var t := Apply(c, s, Send(w, k, send));
    assert JobOk(s.rows, s.messages, w, k, s.workers[w][k]);
    var u := s.(messages := t.messages);
    if t.messages != s.messages {
      EnqueueKeepsInv(c, s, t.messages[|s.messages|]);
      assert u.messages[|s.messages|].row == Some(k);
      assert SentFor(u.messages, k);
    }
    forall v, j | v in t.workers && j in t.workers[v] ensures JobOk(t.rows, t.messages, v, j, t.workers[v][j]) {
      assert JobOk(u.rows, u.messages, v, j, u.workers[v][j]);
    }
  }

  // ---- Steps of the queue and its consumers ----

  /** One message moves or is counted once more. */
  lemma MessageStepKeepsInv(c: Config, s: State, m: nat, place: Place, receives: nat)
    requires Inv(c, s) && m < |s.messages|
    requires place.DeadLettered? ==> receives >= MAX_RECEIVE_COUNT
    requires place.Deleted? ==> Audited(s.audit, s.messages[m].body)
    ensures Inv(c, s.(messages := s.messages[m := s.messages[m].(place := place, receives := receives)]))
  {
    var t := s.(messages := s.messages[m := s.messages[m].(place := place, receives := receives)]);
    forall i | 0 <= i < |t.messages| ensures MessageOk(c, t.rows, t.messages[i]) {
      assert MessageOk(c, s.rows, s.messages[i]);
    }
    forall k | 0 <= k < |t.rows| && t.rows[k].status.Published? ensures SentFor(t.messages, k) {
      SentForKept(s.messages, t.messages, k);
    }
    forall v, k | v in t.workers && k in t.workers[v] ensures JobOk(t.rows, t.messages, v, k, t.workers[v][k]) {
      assert JobOk(s.rows, s.messages, v, k, s.workers[v][k]);
      if s.workers[v][k].phase.Sent? {
        SentForKept(s.messages, t.messages, k);
      }
    }
    ConsumersKept(c, s, t);
    forall i | 0 <= i < |t.audit| ensures FromMessage(c, t.messages, t.audit[i]) {
      FromMessageKept(c, s.messages, t.messages, t.audit[i]);
    }
  }

  lemma AppendKeepsInv(c: Config, s: State, consumer: nat, db: DbOutcome)
    requires Inv(c, s) && Enabled(c, s, Append(consumer, db))
    ensures Inv(c, Apply(c, s, Append(consumer, db)))
  {
    hide RowOk, EventOk, MessageOk, JobOk, SentFor, EventKey, BuildAuditData, ReadSqsRecordBody;
    var t := Apply(c, s, Append(consumer, db));
    var m, data := ConsumerOf(s, consumer).m, ConsumerOf(s, consumer).data;
    assert ConsumerOk(c, s.messages, s.audit, s.consumers[consumer]);
    assert BodyData(c, t.messages[m].body) == Ok(data);
    ConsumersKept(c, s, t);
    if t.audit != s.audit {
      assert t.audit[|s.audit|] == data;
      assert Audited(t.audit, t.messages[m].body);
    }
    forall i | 0 <= i < |t.messages| && t.messages[i].place.Deleted? ensures Audited(t.audit, t.messages[i].body) {
      AuditedKept(s.audit, t.audit, s.messages[i].body);
    }
  }

  lemma FindKeepsInv(c: Config, s: State, consumer: nat)
    requires Inv(c, s) && Enabled(c, s, Find(consumer))
    ensures Inv(c, Apply(c, s, Find(consumer)))
  {
    hide RowOk, EventOk, MessageOk, JobOk, SentFor, EventKey, BuildAuditData, ReadSqsRecordBody;
    var t := Apply(c, s, Find(consumer));
    assert ConsumerOk(c, t.messages, t.audit, t.consumers[consumer]);
  }

  lemma AcknowledgeKeepsInv(c: Config, s: State, consumer: nat, deleted: bool)
    requires Inv(c, s) && Enabled(c, s, Acknowledge(consumer, deleted))
    ensures Inv(c, Apply(c, s, Acknowledge(consumer, deleted)))
  {
    hide RowOk, EventOk, MessageOk, JobOk, SentFor, BodyKey, BodyData;
    var m := ConsumerOf(s, consumer).m;
    assert ConsumerOk(c, s.messages, s.audit, s.consumers[consumer]);
    if deleted && s.messages[m].place.Queued? {
      MessageStepKeepsInv(c, s, m, Deleted, s.messages[m].receives);
    }
  }

  lemma ReceiveKeepsInv(c: Config, s: State, consumer: nat, m: nat)
    requires Inv(c, s) && Enabled(c, s, Receive(consumer, m))
    ensures Inv(c, Apply(c, s, Receive(consumer, m)))
  {
    hide RowOk, EventOk, MessageOk, JobOk, SentFor, BodyKey, BodyData;
    assert MessageOk(c, s.rows, s.messages[m]);
    MessageStepKeepsInv(c, s, m, s.messages[m].place, s.messages[m].receives + 1);
  }

  lemma LifecycleKeepsInv(c: Config, s: State, a: Action)
    requires Inv(c, s) && Enabled(c, s, a) && (a.StartWorker? || a.Crash? || a.DropConsumer?)
    ensures Inv(c, Apply(c, s, a))
  {
    hide RowOk, EventOk, MessageOk, JobOk, SentFor, BodyKey, BodyData;
  }

  // ---- Every step ----

  lemma StepKeepsInv(c: Config, s: State, a: Action)
    requires Inv(c, s) && Enabled(c, s, a)
    ensures Inv(c, Apply(c, s, a))
  {
    hide RowsOk, HandsOk, HoldersOk, PublishedOk, MessagesOk, AcksOk, AuditOk;
    match a {
      case Produce(columns, payload, createdAt) => ProduceKeepsInv(c, s, columns, payload, createdAt);
      case StartWorker(w) => LifecycleKeepsInv(c, s, a);
      case Crash(w) => LifecycleKeepsInv(c, s, a);
      case Claim(w, now, skipped, chosen, db) => ClaimKeepsInv(c, s, w, now, skipped, chosen, db);
      case Send(w, k, send) => SendKeepsInv(c, s, w, k, send);
      case ConfirmPublished(w, k, at, target, db) => ConfirmPublishedKeepsInv(c, s, w, k, at, target, db);
      case ConfirmFailed(w, k, error, at, db) => ConfirmFailedKeepsInv(c, s, w, k, error, at, db);
      case ForeignSend(body) => EnqueueKeepsInv(c, s, Message(body, None, Queued, 0));
      case Receive(consumer, m) => ReceiveKeepsInv(c, s, consumer, m);
      case Find(consumer) => FindKeepsInv(c, s, consumer);
      case Append(consumer, db) => AppendKeepsInv(c, s, consumer, db);
      case Acknowledge(consumer, deleted) => AcknowledgeKeepsInv(c, s, consumer, deleted);
      case DropConsumer(consumer) => LifecycleKeepsInv(c, s, a);
      case Redrive(m) => MessageStepKeepsInv(c, s, m, DeadLettered, s.messages[m].receives);
    }
  }

  /** The invariant holds after every prefix of every run. */
  lemma {:induction false} RunKeepsInv(c: Config, run: Run, i: nat)
    requires IsRun(c, run) && i < |run.states|
    ensures Inv(c, run.states[i])
  {
    if i > 0 {
      RunKeepsInv(c, run, i - 1);
      assert StepAt(c, run, i - 1);
      StepKeepsInv(c, run.states[i - 1], run.actions[i - 1]);
    }
  }
}
