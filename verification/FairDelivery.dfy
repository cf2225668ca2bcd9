// Over every fair schedule with a working queue and working consumers: what a producer
// recorded ends in the audit log.
module FairDelivery {
  import opened Common
  import opened Text
  import opened Envelope
  import opened RecordRoundTrip
  import opened Outbox
  import opened Protocol
  import opened ProtocolInvariant
  import opened RelayRun
  import opened RelayRefinement
  import opened FairSchedule
  import opened FairTurns
  import opened EndToEnd

  // ---- The queue's and the consumers' part ----

  ghost predicate ReceiveComes(h: Schedule, i: nat, m: nat) {
    exists j: nat, consumer: nat :: j >= i && h.rounds(j) == Elsewhere(Receive(consumer, m))
  }

  predicate Waiting(s: State, m: nat) {
    m < |s.messages| && s.messages[m].place.Queued? && s.messages[m].receives == 0
  }

  /** At least once: a message never received yet will be. */
  ghost predicate Delivers(h: Schedule, i: nat) {
    forall j: nat, m: nat :: j >= i && Waiting(h.states(j), m) ==> ReceiveComes(h, j, m)
  }

  predicate Busy(consumer: Consumer) {
    consumer.Received? || consumer.NotFound?
  }

  /** The step that consumer takes next, after a lookup or an insert. */
  predicate Proceeds(round: Round, consumer: nat, next: Consumer) {
    || (next.Received? && round == Elsewhere(Find(consumer)))
    || (next.NotFound? && round == Elsewhere(Append(consumer, Done)))
  }

  ghost predicate ProceedComes(h: Schedule, i: nat, consumer: nat, next: Consumer) {
    exists j: nat :: j >= i && Proceeds(h.rounds(j), consumer, next)
  }

  /** No consumer crashes and no insert fails but on the unique key. */
  predicate Unhindered(round: Round) {
    round.Elsewhere? ==> !round.action.DropConsumer? && (round.action.Append? ==> round.action.db.Done?)
  }

  ghost predicate ConsumersWork(h: Schedule, i: nat) {
    && (forall j: nat :: j >= i ==> Unhindered(h.rounds(j)))
    && (forall j: nat, consumer: nat :: j >= i && Busy(ConsumerOf(h.states(j), consumer)) ==>
          ProceedComes(h, j, consumer, ConsumerOf(h.states(j), consumer)))
  }

  ghost predicate HasBody(s: State, m: nat, body: Body) {
    m < |s.messages| && s.messages[m].body == body
  }

  lemma BatchGrowsMessages(c: Config, claimed: seq<Row>, rows: seq<Row>, messages: seq<Message>, w: WorkerId,
                           order: seq<nat>, env: nat -> Attempt)
    requires forall j :: 0 <= j < |order| ==> order[j] < |claimed|
    ensures messages <= ProcessAll(c, claimed, rows, messages, w, order, env).messages
    decreases |order|
  {
    hide ProcessEvent;
    if order != [] {
      var last := |order| - 1;
      BatchGrowsMessages(c, claimed, rows, messages, w, order[..last], env);
      var before := ProcessAll(c, claimed, rows, messages, w, order[..last], env);
      var k := order[last];
      MessagesGrow(c, before.rows, before.messages, w, k, ToClaimedEvent(claimed[k]), env(k));
    }
  }

  lemma PollKeepsQueueSide(c: Config, s: State, w: WorkerId, batch: Batch, env: nat -> Attempt)
    requires CompleteBatch(c, s.rows, batch, env)
    ensures var t := BatchEnd(c, s, w, batch, env); s.messages <= t.messages && t.consumers == s.consumers
  {
    hide ProcessAll, LockRows, OldestOf, Candidates;
    BatchGrowsMessages(c, s.rows, LockRows(s.rows, batch.chosen, w, batch.now), s.messages, w, batch.order, env);
  }

  lemma StepKeepsBody(c: Config, s: State, a: Action, m: nat, body: Body)
    requires Enabled(c, s, a) && HasBody(s, m, body)
    ensures HasBody(Apply(c, s, a), m, body)
  {
    hide ValidateClaimed, FailureOf, HasAudit, MarkPublished, MarkFailed, LockRows;
  }

  lemma StepKeepsConsumer(c: Config, s: State, a: Action, consumer: nat)
    requires Enabled(c, s, a) && Unhindered(Elsewhere(a))
    requires Busy(ConsumerOf(s, consumer))
    ensures ConsumerOf(Apply(c, s, a), consumer) == ConsumerOf(s, consumer)
         || Proceeds(Elsewhere(a), consumer, ConsumerOf(s, consumer))
  {
    hide ValidateClaimed, FailureOf, HasAudit, MarkPublished, MarkFailed, LockRows;
  }

  /** Until a consumer proceeds, it and its message stay. */
  lemma RoundKeepsConsumer(c: Config, s: State, round: Round, t: State, consumer: nat, m: nat, body: Body)
    requires RoundAt(c, s, round, t) && Unhindered(round) && HasBody(s, m, body)
    requires Busy(ConsumerOf(s, consumer))
    ensures HasBody(t, m, body)
    ensures ConsumerOf(t, consumer) == ConsumerOf(s, consumer) || Proceeds(round, consumer, ConsumerOf(s, consumer))
  {
    hide CompleteBatch, BatchEnd, Enabled, Apply, Proceeds, Unhindered;
    match round {
      case Poll(w, batch, env) => PollKeepsQueueSide(c, s, w, batch, env);
      case Elsewhere(action) =>
        StepKeepsBody(c, s, action, m, body);
        StepKeepsConsumer(c, s, action, consumer);
    }
  }

  lemma {:induction false} ConsumerWaits(c: Config, h: Schedule, i: nat, n: nat, consumer: nat, m: nat, body: Body)
    returns (j: nat)
    requires IsSchedule(c, h) && i <= n && HasBody(h.states(i), m, body)
    requires forall p: nat :: p >= i ==> Unhindered(h.rounds(p))
    requires Busy(ConsumerOf(h.states(i), consumer))
    requires Proceeds(h.rounds(n), consumer, ConsumerOf(h.states(i), consumer))
    ensures i <= j <= n && Proceeds(h.rounds(j), consumer, ConsumerOf(h.states(i), consumer))
    ensures ConsumerOf(h.states(j), consumer) == ConsumerOf(h.states(i), consumer) && HasBody(h.states(j), m, body)
    decreases n - i
  {
    hide RoundAt, Unhindered, Proceeds, HasBody;
    j := i;
    if !Proceeds(h.rounds(i), consumer, ConsumerOf(h.states(i), consumer)) {
      assert RoundOf(c, h, i) && Unhindered(h.rounds(i));
      RoundKeepsConsumer(c, h.states(i), h.rounds(i), h.states(i + 1), consumer, m, body);
      j := ConsumerWaits(c, h, i + 1, n, consumer, m, body);
    }
  }

  lemma FindFinds(c: Config, s: State, consumer: nat, m: nat, body: Body, t: State)
    requires RoundAt(c, s, Elsewhere(Find(consumer)), t) && ConsumerOf(s, consumer) == Received(m)
    requires HasBody(s, m, body) && BodyData(c, body).Ok?
    ensures Audited(s.audit, body) || ConsumerOf(t, consumer) == NotFound(m, BodyData(c, body).value)
    ensures HasBody(t, m, body)
  {
    hide BuildAuditData, EventKey, ReadSqsRecordBody, HasAudit;
    KeyOfData(c, body);
  }

  lemma AppendAppends(c: Config, s: State, consumer: nat, m: nat, body: Body, t: State)
    requires BodyData(c, body).Ok? && ConsumerOf(s, consumer) == NotFound(m, BodyData(c, body).value)
    requires RoundAt(c, s, Elsewhere(Append(consumer, Done)), t)
    ensures Audited(t.audit, body)
  {
    hide BuildAuditData, EventKey, ReadSqsRecordBody;
    KeyOfData(c, body);
    var data := BodyData(c, body).value;
    if !HasAudit(s.audit, data.eventId) {
      assert t.audit[|s.audit|] == data;
    }
  }

  lemma ReceiveHandsOver(c: Config, s: State, consumer: nat, m: nat, body: Body, t: State)
    requires RoundAt(c, s, Elsewhere(Receive(consumer, m)), t) && HasBody(s, m, body)
    ensures ConsumerOf(t, consumer) == Received(m) && HasBody(t, m, body)
  {
  }

  /** A waiting message's body is never lost from the record of what was sent. */
  lemma {:induction false} BodyStays(c: Config, h: Schedule, i: nat, n: nat, m: nat, body: Body)
    requires IsSchedule(c, h) && i <= n && HasBody(h.states(i), m, body)
    ensures HasBody(h.states(n), m, body)
    decreases n
  {
    hide RoundAt, HasBody;
    if i < n {
      BodyStays(c, h, i, n - 1, m, body);
      assert RoundOf(c, h, n - 1);
      RoundKeepsBody(c, h.states(n - 1), h.rounds(n - 1), h.states(n), m, body);
    }
  }

  lemma RoundKeepsBody(c: Config, s: State, round: Round, t: State, m: nat, body: Body)
    requires RoundAt(c, s, round, t) && HasBody(s, m, body)
    ensures HasBody(t, m, body)
  {
    hide CompleteBatch, BatchEnd, Enabled, Apply;
    match round {
      case Poll(w, batch, env) => PollKeepsQueueSide(c, s, w, batch, env);
      case Elsewhere(action) => StepKeepsBody(c, s, action, m, body);
    }
  }

  /** A message never received yet, with an acceptable body, ends in the audit log. */
  lemma WaitingMessageIsAudited(c: Config, h: Schedule, i: nat, m: nat, body: Body) returns (n: nat)
    requires IsSchedule(c, h) && Delivers(h, i) && ConsumersWork(h, i)
    requires Waiting(h.states(i), m) && HasBody(h.states(i), m, body) && BodyData(c, body).Ok?
    ensures n >= i && Audited(h.states(n).audit, body)
  {
    hide RoundAt, HasBody, Waiting, Unhindered, BodyData, Audited;
    assert ReceiveComes(h, i, m);
    var j: nat, consumer: nat :| j >= i && h.rounds(j) == Elsewhere(Receive(consumer, m));
    BodyStays(c, h, i, j, m, body);
    assert RoundOf(c, h, j);
    ReceiveHandsOver(c, h.states(j), consumer, m, body, h.states(j + 1));
    var found := Next(c, h, i, j + 1, consumer, m, body);
    FindFinds(c, h.states(found), consumer, m, body, h.states(found + 1));
    n := found;
    if !Audited(h.states(found).audit, body) {
      var stored := Next(c, h, i, found + 1, consumer, m, body);
      AppendAppends(c, h.states(stored), consumer, m, body, h.states(stored + 1));
      n := stored + 1;
    }
  }

  /** When a busy consumer proceeds. */
  lemma Next(c: Config, h: Schedule, i: nat, j: nat, consumer: nat, m: nat, body: Body) returns (n: nat)
    requires IsSchedule(c, h) && ConsumersWork(h, i) && j >= i
    requires HasBody(h.states(j), m, body) && Busy(ConsumerOf(h.states(j), consumer))
    ensures n >= j && ConsumerOf(h.states(n), consumer) == ConsumerOf(h.states(j), consumer)
    ensures HasBody(h.states(n), m, body)
    ensures h.rounds(n) == Elsewhere(if ConsumerOf(h.states(n), consumer).Received? then Find(consumer)
                                     else Append(consumer, Done))
    ensures RoundAt(c, h.states(n), h.rounds(n), h.states(n + 1))
  {
    hide RoundAt, HasBody, Unhindered;
    var next := ConsumerOf(h.states(j), consumer);
    assert ProceedComes(h, j, consumer, next);
    var p: nat :| p >= j && Proceeds(h.rounds(p), consumer, next);
    n := ConsumerWaits(c, h, j, p, consumer, m, body);
    assert RoundOf(c, h, n);
  }

  // ---- The whole way ----

  /** From round `i` on row `k` is claimed by complete polls only, and the broker takes its
      sends. */
  ghost predicate PollsSend(h: Schedule, i: nat, k: nat) {
    forall j: nat :: j >= i && Takes(h.rounds(j), k) ==>
      h.rounds(j).Poll? && !h.rounds(j).env(k).send.Refused?
  }

  lemma ChoosingPollSends(c: Config, s: State, round: Round, t: State, k: nat) returns (m: nat)
    requires Inv(c, s) && RoundAt(c, s, round, t) && round.Poll? && Takes(round, k) && k < |s.rows|
    requires !round.env(k).send.Refused?
    requires ValidateClaimed(s.rows[k].columns, s.rows[k].payload, c.dateParses).Ok?
    ensures Waiting(t, m) && HasBody(t, m, Parsed(s.rows[k].payload))
  {
    hide Inv, CompleteBatch, ValidateClaimed, RunBatch;
    InvRows(c, s);
    CompleteIsBatch(c, s.rows, round.batch, round.env);
    m := BatchSends(c, s, round.w, round.batch, round.env, k);
  }

  /** Under every fair schedule with a working queue and working consumers, a pending row in
      no worker's hand, whose payload is valid and acceptable and whose sends the broker
      takes, ends in the audit log: however many younger rows keep coming, and whatever
      becomes of its marks and of all other rows. */
  lemma PendingRowIsAudited(c: Config, h: Schedule, i: nat, k: nat) returns (n: nat)
    requires IsSchedule(c, h) && Fair(h) && Inv(c, h.states(i)) && c.batchSize >= 1
    requires Delivers(h, i) && ConsumersWork(h, i) && PollsSend(h, i, k)
    requires k < |h.states(i).rows| && h.states(i).rows[k].status.Pending? && InNoHand(h.states(i), k)
    requires YoungerFrom(h, i, h.states(i).rows[k].createdAt)
    requires ValidateClaimed(h.states(i).rows[k].columns, h.states(i).rows[k].payload, c.dateParses).Ok?
    requires BodyData(c, Parsed(h.states(i).rows[k].payload)).Ok?
    ensures n >= i && Audited(h.states(n).audit, Parsed(h.states(i).rows[k].payload))
  {
    hide Inv, RoundAt, AddsYounger, InNoHand, Takes, ValidateClaimed, BodyData, Audited, Waiting, HasBody, Unhindered;
    var body := Parsed(h.states(i).rows[k].payload);
    var j := EveryRowGetsItsTurn(c, h, i, k);
    assert RoundOf(c, h, j);
    var m := ChoosingPollSends(c, h.states(j), h.rounds(j), h.states(j + 1), k);
    WorksLater(h, i, j + 1);
    n := WaitingMessageIsAudited(c, h, j + 1, m, body);
  }

  lemma WorksLater(h: Schedule, i: nat, j: nat)
    requires Delivers(h, i) && ConsumersWork(h, i) && j >= i
    ensures Delivers(h, j) && ConsumersWork(h, j)
  {
  }

  /** So does every event a producer recorded with a lower-case tenant id and auditable
      values. */
  lemma RecordedRowIsAudited(c: Config, h: Schedule, i: nat, k: nat, service: string, eventId: string,
                             occurredAt: string, command: Envelope.Command) returns (n: nat)
    requires IsSchedule(c, h) && Fair(h) && Inv(c, h.states(i)) && c.batchSize >= 1
    requires Delivers(h, i) && ConsumersWork(h, i) && PollsSend(h, i, k)
    requires k < |h.states(i).rows| && h.states(i).rows[k].status.Pending? && InNoHand(h.states(i), k)
    requires YoungerFrom(h, i, h.states(i).rows[k].createdAt)
    requires h.states(i).rows[k].columns == RecordColumns(service, eventId, command)
    requires h.states(i).rows[k].payload == RecordPayload(service, eventId, occurredAt, command)
    requires IsUuid(eventId) && Canonical(eventId) == eventId && !Blank(occurredAt) && c.dateParses(occurredAt)
    requires IsUuid(command.context.tenantId) && Canonical(command.context.tenantId) == command.context.tenantId
    requires Auditable(service, command)
    ensures n >= i && HasAudit(h.states(n).audit, eventId)
  {
    hide Inv, ValidateClaimed, BuildAuditData, Auditable, IsUuid, Blank, RecordPayload, ReadSqsRecordBody,
         IsSchedule, Fair, YoungerFrom, Delivers, ConsumersWork, PollsSend, InNoHand;
    RecordPassesValidatorIff(service, eventId, occurredAt, command, c.dateParses);
    RecordAcceptedIff(service, eventId, occurredAt, command, c.dateParses);
    UuidIsTight(eventId);
    n := PendingRowIsAudited(c, h, i, k);
    assert BodyKey(Parsed(h.states(i).rows[k].payload)) == Ok(eventId) by {
      KeyOfData(c, Parsed(h.states(i).rows[k].payload));
    }
  }
}
