// The whole delivery path as a state machine: producers, any number of relay workers with
// their own clocks, a queue that delivers at least once, and racing audit consumers.
// Every step is one atomic database statement, one broker call or one failure.
module Protocol {
  import opened Common
  import opened Json
  import opened Text
  import opened Envelope
  import opened Outbox
  import opened Backoff

  /** `dateParses` stands for Date.parse succeeding. */
  datatype Config = Config(
    maxRetryCount: int, lockTimeoutSeconds: int, batchSize: nat, dateParses: string -> bool)

  /** infra/cdk/lib/gateway-service-stack.ts: receives after which SQS redrives a message. */
  const MAX_RECEIVE_COUNT := 5

  // ---- State ----

  /** Where `processEvent` stands with one claimed event: not yet sent, sent and about to
      be marked, or in its catch block. */
  datatype Phase = InHand | Sent | Caught
  datatype Job = Job(event: ClaimedEvent, phase: Phase)
  type Hand = map<nat, Job>

  datatype Place = Queued | DeadLettered | Deleted

  /** `row` is the outbox row a message was relayed from, absent for other publishers. */
  datatype Message = Message(body: Body, row: Option<nat>, place: Place, receives: nat)

  /** Where `processMessage` stands: received, looked up and not found, or recorded and
      about to be deleted from the queue. */
  datatype Consumer = Idle | Received(m: nat) | NotFound(m: nat, data: AuditData) | Recorded(m: nat)

  /** `messages` keeps every message ever sent. */
  datatype State = State(
    rows: seq<Row>, workers: map<WorkerId, Hand>, retired: set<WorkerId>,
    messages: seq<Message>, consumers: map<nat, Consumer>, audit: seq<AuditData>)

  const INITIAL := State([], map[], {}, [], map[], [])

  function ConsumerOf(s: State, c: nat): Consumer {
    if c in s.consumers then s.consumers[c] else Idle
  }

  function BodyKey(body: Body): Result<string, AuditError> {
    EventKey(ReadSqsRecordBody(body))
  }

  function BodyData(c: Config, body: Body): Result<AuditData, AuditError> {
    BuildAuditData(ReadSqsRecordBody(body), c.dateParses)
  }

  predicate HasAudit(audit: seq<AuditData>, eventId: string) {
    exists i :: 0 <= i < |audit| && audit[i].eventId == eventId
  }

  /** `nextRetryCount`, `isFailed` and `nextRetryAt` of the catch block. */
  function FailureOf(c: Config, retryCount: int, error: string, now: Time): Failure {
    var next := retryCount + 1;
    if next >= c.maxRetryCount then Failure(Failed, next, error, None)
    else Failure(Pending, next, error, Some(now + DelaySeconds(next) * 1000))
  }

  // ---- Steps ----

  /** A publish call may also throw although the broker took the message. */
  datatype SendOutcome = Accepted | Refused | AcceptedButThrew

  datatype Action =
    | Produce(columns: Columns, payload: Json, createdAt: Time)
    | StartWorker(w: WorkerId)
    | Crash(w: WorkerId)
    | Claim(w: WorkerId, now: Time, skipped: set<nat>, chosen: set<nat>, db: DbOutcome)
    | Send(w: WorkerId, k: nat, send: SendOutcome)
    | ConfirmPublished(w: WorkerId, k: nat, at: Time, target: string, db: DbOutcome)
    | ConfirmFailed(w: WorkerId, k: nat, error: string, at: Time, db: DbOutcome)
    | ForeignSend(body: Body)
    | Receive(c: nat, m: nat)
    | Find(c: nat)
    | Append(c: nat, db: DbOutcome)
    | Acknowledge(c: nat, deleted: bool)
    | DropConsumer(c: nat)
    | Redrive(m: nat)

  predicate HasJob(s: State, w: WorkerId, k: nat, phase: Phase) {
    w in s.workers && k in s.workers[w] && s.workers[w][k].phase == phase
  }

  predicate Enabled(c: Config, s: State, a: Action) {
    match a
    case Produce(columns, payload, _) =>
      // randomUUID: lower case and used nowhere else
      && IsUuid(columns.eventId) && Canonical(columns.eventId) == columns.eventId
      && (forall k :: 0 <= k < |s.rows| ==> s.rows[k].columns.eventId != columns.eventId)
      && (forall m :: 0 <= m < |s.messages| ==> BodyKey(s.messages[m].body) != Ok(columns.eventId))
      && Get(payload, "detail").None?
    case StartWorker(w) => w !in s.workers && w !in s.retired
    case Crash(w) => w in s.workers
    case Claim(w, now, skipped, chosen, _) =>
      && w in s.workers && s.workers[w] == map[]
      && OldestOf(s.rows, Candidates(s.rows, now, c.lockTimeoutSeconds, skipped), c.batchSize, chosen)
    case Send(w, k, _) => HasJob(s, w, k, InHand)
    case ConfirmPublished(w, k, _, _, _) => HasJob(s, w, k, Sent)
    case ConfirmFailed(w, k, _, _, _) => HasJob(s, w, k, Caught)
    case ForeignSend(body) =>
      forall k :: 0 <= k < |s.rows| ==> BodyKey(body) != Ok(s.rows[k].columns.eventId)
    case Receive(c, m) =>
      && ConsumerOf(s, c).Idle? && m < |s.messages|
      // at least once: a deleted message may still be delivered from a stale copy
      && !s.messages[m].place.DeadLettered?
      && (s.messages[m].place.Queued? ==> s.messages[m].receives < MAX_RECEIVE_COUNT)
    case Find(c) => ConsumerOf(s, c).Received? && ConsumerOf(s, c).m < |s.messages|
    case Append(c, _) => ConsumerOf(s, c).NotFound?
    case Acknowledge(c, _) => ConsumerOf(s, c).Recorded? && ConsumerOf(s, c).m < |s.messages|
    case DropConsumer(c) => true
    case Redrive(m) =>
      m < |s.messages| && s.messages[m].place.Queued? && s.messages[m].receives >= MAX_RECEIVE_COUNT
  }

  function SetJob(s: State, w: WorkerId, k: nat, phase: Phase): State
    requires w in s.workers && k in s.workers[w]
  {
    s.(workers := s.workers[w := s.workers[w][k := s.workers[w][k].(phase := phase)]])
  }

  function DropJob(s: State, w: WorkerId, k: nat): State
    requires w in s.workers
  {
    s.(workers := s.workers[w := s.workers[w] - {k}])
  }

  function SetConsumer(s: State, c: nat, consumer: Consumer): State {
    s.(consumers := s.consumers[c := consumer])
  }

  function ApplySend(c: Config, s: State, w: WorkerId, k: nat, send: SendOutcome): State
    requires HasJob(s, w, k, InHand)
  {
    var event := s.workers[w][k].event;
    match ValidateClaimed(event.columns, event.payload, c.dateParses)
    case Err(_) => SetJob(s, w, k, Caught)
    case Ok(payload) =>
      var after := SetJob(s, w, k, if send.Accepted? then Sent else Caught);
      if send.Refused? then after
      else after.(messages := s.messages + [Message(Parsed(payload), Some(k), Queued, 0)])
  }

  function ApplyFind(c: Config, s: State, consumer: nat, m: nat): State
    requires m < |s.messages|
  {
    var body := s.messages[m].body;
    match BodyKey(body)
    case Err(_) => SetConsumer(s, consumer, Idle)
    case Ok(key) =>
      if HasAudit(s.audit, key) then SetConsumer(s, consumer, Recorded(m))
      else match BodyData(c, body)
        case Err(_) => SetConsumer(s, consumer, Idle)
        case Ok(data) => SetConsumer(s, consumer, NotFound(m, data))
  }

  function ApplyAppend(s: State, consumer: nat, m: nat, data: AuditData, db: DbOutcome): State {
    if HasAudit(s.audit, data.eventId) then SetConsumer(s, consumer, Idle)  // unique key violated
    else
      var after := SetConsumer(s, consumer, if db.Done? then Recorded(m) else Idle);
      if Applied(db) then after.(audit := s.audit + [data]) else after
  }

  function Apply(c: Config, s: State, a: Action): State
    requires Enabled(c, s, a)
  {
    match a
    case Produce(columns, payload, createdAt) => s.(rows := s.rows + [NewRow(columns, payload, createdAt)])
    case StartWorker(w) => s.(workers := s.workers[w := map[]])
    case Crash(w) => s.(workers := s.workers - {w}, retired := s.retired + {w})
    case Claim(w, now, skipped, chosen, db) =>
      var hand: Hand := map k | k in chosen :: Job(ToClaimedEvent(s.rows[k]), InHand);
      var after := if db.Done? then s.(workers := s.workers[w := hand]) else s;
      if Applied(db) then after.(rows := LockRows(s.rows, chosen, w, now)) else after
    case Send(w, k, send) => ApplySend(c, s, w, k, send)
    case ConfirmPublished(w, k, at, target, db) =>
      var after := if db.Done? then DropJob(s, w, k) else SetJob(s, w, k, Caught);
      if Applied(db) then after.(rows := MarkPublished(s.rows, k, w, at, target)) else after
    case ConfirmFailed(w, k, error, at, db) =>
      // a throw here ends the whole run: the rest of the batch is dropped, still locked
      var after := if db.Done? then DropJob(s, w, k) else s.(workers := s.workers[w := map[]]);
      var failure := FailureOf(c, s.workers[w][k].event.retryCount, error, at);
      if Applied(db) then after.(rows := MarkFailed(s.rows, k, w, failure)) else after
    case ForeignSend(body) => s.(messages := s.messages + [Message(body, None, Queued, 0)])
    case Receive(consumer, m) =>
      var message := s.messages[m];
      SetConsumer(s.(messages := s.messages[m := message.(receives := message.receives + 1)]), consumer, Received(m))
    case Find(consumer) => ApplyFind(c, s, consumer, ConsumerOf(s, consumer).m)
    case Append(consumer, db) =>
      ApplyAppend(s, consumer, ConsumerOf(s, consumer).m, ConsumerOf(s, consumer).data, db)
    case Acknowledge(consumer, deleted) =>
      var m := ConsumerOf(s, consumer).m;
      var message := s.messages[m];
      var after := SetConsumer(s, consumer, Idle);
      if deleted && message.place.Queued? then
        after.(messages := s.messages[m := message.(place := Deleted)])
      else after
    case DropConsumer(consumer) => SetConsumer(s, consumer, Idle)
    case Redrive(m) => s.(messages := s.messages[m := s.messages[m].(place := DeadLettered)])
  }

  // ---- Runs ----

  datatype Run = Run(states: seq<State>, actions: seq<Action>)

  ghost predicate StepAt(c: Config, run: Run, i: nat)
    requires i < |run.actions| && |run.states| == |run.actions| + 1
  {
    && Enabled(c, run.states[i], run.actions[i])
    && run.states[i + 1] == Apply(c, run.states[i], run.actions[i])
  }

  /** `run` starts in the empty system and takes one enabled action after the other. */
  ghost predicate IsRun(c: Config, run: Run) {
    && |run.states| == |run.actions| + 1
    && run.states[0] == INITIAL
    && forall i :: 0 <= i < |run.actions| ==> StepAt(c, run, i)
  }
}
