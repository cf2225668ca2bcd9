// The whole way of one event: recorded, relayed in a batch among others, received, audited.
module EndToEnd {
  import opened Common
  import opened Text
  import opened Json
  import opened Envelope
  import opened RecordRoundTrip
  import opened Outbox
  import opened Protocol
  import opened ProtocolInvariant
  import opened RelayRun
  import opened RelayRefinement
  import opened ConsumerRun

  ghost predicate IsQueued(messages: seq<Message>, m: nat, k: nat, payload: Json) {
    m < |messages| && messages[m] == Message(Parsed(payload), Some(k), Queued, 0)
  }

  lemma MessagesGrow(c: Config, rows: seq<Row>, messages: seq<Message>, w: WorkerId, k: nat, event: ClaimedEvent,
                     env: Attempt)
    ensures messages <= ProcessEvent(c, rows, messages, w, k, event, env).messages
  {
    hide ValidateClaimed, MarkPublished, MarkFailed;
  }

  lemma {:induction false} EventIsSent(c: Config, claimed: seq<Row>, rows: seq<Row>, messages: seq<Message>,
                                       w: WorkerId, order: seq<nat>, env: nat -> Attempt, i: nat) returns (m: nat)
    requires forall j :: 0 <= j < |order| ==> order[j] < |claimed|
    requires i < |order| && !env(order[i]).send.Refused?
    requires ValidateClaimed(claimed[order[i]].columns, claimed[order[i]].payload, c.dateParses).Ok?
    requires !ProcessAll(c, claimed, rows, messages, w, order, env).aborted
    ensures IsQueued(ProcessAll(c, claimed, rows, messages, w, order, env).messages,
                     m, order[i], claimed[order[i]].payload)
    decreases |order|
  {
    hide ValidateClaimed, MarkPublished, MarkFailed;
    var last := |order| - 1;
    var before := ProcessAll(c, claimed, rows, messages, w, order[..last], env);
    if i == last {
      m := |before.messages|;
    } else {
      m := EventIsSent(c, claimed, rows, messages, w, order[..last], env, i);
      var k := order[last];
      MessagesGrow(c, before.rows, before.messages, w, k, ToClaimedEvent(claimed[k]), env(k));
    }
  }

  lemma BatchSends(c: Config, s: State, w: WorkerId, batch: Batch, env: nat -> Attempt, k: nat) returns (m: nat)
    requires RowsOk(c, s.rows) && CompleteBatch(c, s.rows, batch, env) && k in batch.chosen && k < |s.rows|
    requires !env(k).send.Refused?
    requires ValidateClaimed(s.rows[k].columns, s.rows[k].payload, c.dateParses).Ok?
    ensures IsQueued(RunBatch(c, s.rows, s.messages, w, batch, env).messages, m, k, s.rows[k].payload)
  {
    hide RowsOk, LockRows, ProcessAll, ValidateClaimed, Lowered;
    InOrder(c, s.rows, batch);
    PrefixLowersWeight(c, s.rows, s.messages, w, batch, env, |batch.order|);
    assert batch.order[..|batch.order|] == batch.order;
    assert k in Processed(batch.order);
    var i :| 0 <= i < |batch.order| && batch.order[i] == k;
    m := EventIsSent(c, s.rows, LockRows(s.rows, batch.chosen, w, batch.now), s.messages, w, batch.order, env, i);
  }

  /** From any state satisfying the invariant: an event with a valid, acceptable payload that
      is claimed in a complete batch, and whose send the broker takes, whatever becomes of
      the others and of its own mark, reaches the audit log as soon as an idle consumer gets
      its message and meets no failure. */
  lemma ClaimedEventIsAudited(c: Config, s: State, w: WorkerId, batch: Batch, env: nat -> Attempt, k: nat, i: nat)
    returns (actions: seq<Action>, t: State)
    requires Inv(c, s) && w in s.workers && s.workers[w] == map[] && ConsumerOf(s, i).Idle?
    requires CompleteBatch(c, s.rows, batch, env) && k in batch.chosen && k < |s.rows| && !env(k).send.Refused?
    requires ValidateClaimed(s.rows[k].columns, s.rows[k].payload, c.dateParses).Ok?
    requires BodyData(c, Parsed(s.rows[k].payload)).Ok?
    ensures Reaches(c, s, actions, t) && Inv(c, t)
    ensures Audited(t.audit, Parsed(s.rows[k].payload))
  {
    hide Reaches, RowsOk, HandsOk, HoldersOk, MessagesOk, PublishedOk, AcksOk, AuditOk, ConsumersOk, ValidateClaimed,
         BodyData, Audited, RunBatch, IsBatch;
    var relayed := BatchEnd(c, s, w, batch, env);
    var m := BatchSends(c, s, w, batch, env, k);
    var first := BatchReaches(c, s, w, batch, env);
    BatchKeepsInv(c, s, w, batch, env);
    var second;
    second, t := AcceptableMessageIsAudited(c, relayed, i, m);
    ReachesThen(c, s, first, relayed, second, t);
    actions := first + second;
  }

  /** So does an event a producer recorded, if its tenant id was written in lower case and
      its texts, version, actor and data are as the consumer wants them. */
  lemma RecordedEventIsAudited(c: Config, s: State, w: WorkerId, batch: Batch, env: nat -> Attempt, k: nat, i: nat,
                               service: string, eventId: string, occurredAt: string, command: Command)
    returns (actions: seq<Action>, t: State)
    requires Inv(c, s) && w in s.workers && s.workers[w] == map[] && ConsumerOf(s, i).Idle?
    requires CompleteBatch(c, s.rows, batch, env) && k in batch.chosen && k < |s.rows| && !env(k).send.Refused?
    requires s.rows[k].columns == RecordColumns(service, eventId, command)
    requires s.rows[k].payload == RecordPayload(service, eventId, occurredAt, command)
    requires IsUuid(eventId) && Canonical(eventId) == eventId && !Blank(occurredAt) && c.dateParses(occurredAt)
    requires IsUuid(command.context.tenantId) && Canonical(command.context.tenantId) == command.context.tenantId
    requires Auditable(service, command)
    ensures Reaches(c, s, actions, t) && Inv(c, t)
    ensures HasAudit(t.audit, eventId)
  {
    hide Reaches, Inv, ValidateClaimed, BuildAuditData, Auditable, IsUuid, Blank, CompleteBatch, RecordPayload,
         ReadSqsRecordBody;
    RecordPassesValidatorIff(service, eventId, occurredAt, command, c.dateParses);
    RecordAcceptedIff(service, eventId, occurredAt, command, c.dateParses);
    UuidIsTight(eventId);
    actions, t := ClaimedEventIsAudited(c, s, w, batch, env, k, i);
    assert BodyKey(Parsed(s.rows[k].payload)) == Ok(eventId) by {
      KeyOfData(c, Parsed(s.rows[k].payload));
    }
  }

  lemma KeyOfData(c: Config, body: Body)
    requires BodyData(c, body).Ok?
    ensures BodyKey(body) == Ok(BodyData(c, body).value.eventId)
  {
  }
}
