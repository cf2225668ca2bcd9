// apps/audit-log-service: the audit log table, `recordFromEvent` and the queue worker that
// deletes a message only after its event was recorded.
module ConsumerRun {
  import opened Json
  import opened Envelope
  import opened Outbox
  import opened Protocol
  import opened ProtocolInvariant
  import opened RelayRun
  import opened RelayRefinement

  /** The world's answers while one message is processed. */
  datatype Answers = Answers(findThrows: bool, append: DbOutcome, deleted: bool)

  /** `recorded` is the method's normal return, its absence an exception. */
  datatype Recording = Recording(audit: seq<AuditData>, recorded: bool)

  function Record(c: Config, audit: seq<AuditData>, command: Json, answers: Answers): Recording {
    match EventKey(command)
    case Err(_) => Recording(audit, false)
    case Ok(key) =>
      if answers.findThrows then Recording(audit, false)
      else if HasAudit(audit, key) then Recording(audit, true)
      else match BuildAuditData(command, c.dateParses)
        case Err(_) => Recording(audit, false)
        case Ok(data) => Recording(if Applied(answers.append) then audit + [data] else audit, answers.append.Done?)
  }

  class AuditLogTable {
    var rows: seq<AuditData>

    constructor ()
      ensures rows == []
    {
      rows := [];
    }

    method FindByEventId(eventId: string) returns (found: bool)
      ensures found <==> HasAudit(rows, eventId)
    {
      found := false;
      var i := 0;
      while i < |rows| && !found
        invariant 0 <= i <= |rows|
        invariant found ==> HasAudit(rows, eventId)
        invariant !found ==> forall j :: 0 <= j < i ==> rows[j].eventId != eventId
      {
        found := rows[i].eventId == eventId;
        i := i + 1;
      }
    }

    /** Insert under the unique key on `event_id`. */
    method Append(data: AuditData, db: DbOutcome) returns (threw: bool)
      modifies this
      ensures HasAudit(old(rows), data.eventId) ==> threw && rows == old(rows)
      ensures !HasAudit(old(rows), data.eventId) ==>
                rows == (if Applied(db) then old(rows) + [data] else old(rows)) && threw == db.Threw?
    {
      var duplicate := FindByEventId(data.eventId);
      if duplicate {
        return true;
      }
      if Applied(db) {
        rows := rows + [data];
      }
      return db.Threw?;
    }
  }

  function Deleting(messages: seq<Message>, m: nat, delete: bool): seq<Message>
    requires m < |messages|
  {
    if delete && messages[m].place.Queued? then messages[m := messages[m].(place := Deleted)] else messages
  }

  datatype Stored = Stored(audit: seq<AuditData>, messages: seq<Message>)

  function ProcessReceived(c: Config, st: Stored, m: nat, answers: Answers): Stored
    requires m < |st.messages|
  {
    var result := Record(c, st.audit, ReadSqsRecordBody(st.messages[m].body), answers);
    Stored(result.audit, Deleting(st.messages, m, result.recorded && answers.deleted))
  }

  /** One poll: the received messages, one after the other. */
  function ProcessEach(c: Config, st: Stored, ids: seq<nat>, answers: nat -> Answers): (r: Stored)
    requires forall i :: 0 <= i < |ids| ==> ids[i] < |st.messages|
    ensures |r.messages| == |st.messages|
  {
    if ids == [] then st
    else
      var last := |ids| - 1;
      ProcessReceived(c, ProcessEach(c, st, ids[..last], answers), ids[last], answers(ids[last]))
  }

  class AuditWorker {
    const config: Config
    const table: AuditLogTable
    const queue: Broker

    constructor (config: Config, table: AuditLogTable, queue: Broker)
      ensures this.config == config && this.table == table && this.queue == queue
    {
      this.config := config;
      this.table := table;
      this.queue := queue;
    }

    method RecordFromEvent(command: Json, answers: Answers) returns (recorded: bool)
      modifies table
      ensures Recording(table.rows, recorded) == Record(config, old(table.rows), command, answers)
    {
      var key := EventKey(command);
      if key.Err? || answers.findThrows {
        return false;
      }
      var existing := table.FindByEventId(key.value);
      if existing {
        return true;
      }
      var data := BuildAuditData(command, config.dateParses);
      if data.Err? {
        return false;
      }
      var threw := table.Append(data.value, answers.append);
      return !threw;
    }

    /** A failure is logged and the message stays; a recorded event is deleted, which may
        fail in turn. */
    method ProcessMessage(m: nat, answers: Answers)
      requires m < |queue.messages|
      modifies table, queue
      ensures Stored(table.rows, queue.messages)
        == ProcessReceived(config, old(Stored(table.rows, queue.messages)), m, answers)
    {
      var recorded := RecordFromEvent(ReadSqsRecordBody(queue.messages[m].body), answers);
      if recorded && answers.deleted && queue.messages[m].place.Queued? {
        queue.messages := queue.messages[m := queue.messages[m].(place := Deleted)];
      }
    }

    /** `ids` are the messages of one ReceiveMessage response. */
    method PollOnce(ids: seq<nat>, answers: nat -> Answers)
      requires forall i :: 0 <= i < |ids| ==> ids[i] < |queue.messages|
      modifies table, queue
      ensures Stored(table.rows, queue.messages)
        == ProcessEach(config, old(Stored(table.rows, queue.messages)), ids, answers)
    {
      ghost var before := Stored(table.rows, queue.messages);
      for n := 0 to |ids|
        invariant Stored(table.rows, queue.messages) == ProcessEach(config, before, ids[..n], answers)
        invariant |queue.messages| == |before.messages|
      {
        assert ids[..n + 1][..n] == ids[..n];
        ProcessMessage(ids[n], answers(ids[n]));
      }
      assert ids[..|ids|] == ids;
    }
  }

  /** The protocol state after a consumer has processed the message it received. */
  function Consumed(c: Config, s: State, i: nat, m: nat, answers: Answers): State
    requires m < |s.messages|
  {
    var after := ProcessReceived(c, Stored(s.audit, s.messages), m, answers);
    s.(audit := after.audit, messages := after.messages, consumers := s.consumers[i := Idle])
  }

  /** `processMessage` is a run of the protocol's consumer steps. */
  lemma ProcessMessageReaches(c: Config, s: State, i: nat, m: nat, answers: Answers) returns (actions: seq<Action>)
    requires ConsumerOf(s, i) == Received(m) && m < |s.messages|
    ensures Reaches(c, s, actions, Consumed(c, s, i, m, answers))
  {
    hide Reaches, EventKey, BuildAuditData, ReadSqsRecordBody, HasAudit;
    var end := Consumed(c, s, i, m, answers);
    if answers.findThrows {
      ReachesOne(c, s, DropConsumer(i));
      return [DropConsumer(i)];
    }
    var found := Apply(c, s, Find(i));
    ReachesOne(c, s, Find(i));
    actions := [Find(i)];
    match ConsumerOf(found, i) {
      case Idle =>
        assert found == end;
      case Received(_) =>
      case Recorded(_) =>
        actions := AcknowledgeReaches(c, s, actions, found, i, m, answers);
        assert found.consumers[i := Idle] == end.consumers;
      case NotFound(_, data) =>
        var stored := Apply(c, found, Append(i, answers.append));
        ReachesOne(c, found, Append(i, answers.append));
        ReachesThen(c, s, actions, found, [Append(i, answers.append)], stored);
        actions := actions + [Append(i, answers.append)];
        if answers.append.Done? {
          actions := AcknowledgeReaches(c, s, actions, stored, i, m, answers);
          assert stored.consumers[i := Idle] == end.consumers;
        } else {
          assert stored.consumers == end.consumers;
        }
    }
  }

  lemma AcknowledgeReaches(c: Config, s: State, before: seq<Action>, t: State, i: nat, m: nat, answers: Answers)
    returns (actions: seq<Action>)
    requires Reaches(c, s, before, t)
    requires ConsumerOf(t, i) == Recorded(m) && m < |t.messages|
    ensures Reaches(c, s, actions,
                    t.(messages := Deleting(t.messages, m, answers.deleted), consumers := t.consumers[i := Idle]))
  {
    hide Reaches;
    ReachesOne(c, t, Acknowledge(i, answers.deleted));
    ReachesThen(c, s, before, t, [Acknowledge(i, answers.deleted)], Apply(c, t, Acknowledge(i, answers.deleted)));
    actions := before + [Acknowledge(i, answers.deleted)];
  }

  /** Progress: from any state satisfying the invariant, an idle consumer that receives a
      queued, acceptable message and meets no failure leaves its event in the audit log
      and the message deleted. */
  lemma AcceptableMessageIsAudited(c: Config, s: State, i: nat, m: nat) returns (actions: seq<Action>, t: State)
    requires Inv(c, s) && ConsumerOf(s, i).Idle? && m < |s.messages|
    requires s.messages[m].place.Queued? && s.messages[m].receives < MAX_RECEIVE_COUNT
    requires BodyData(c, s.messages[m].body).Ok?
    ensures Reaches(c, s, actions, t) && Inv(c, t)
    ensures |t.messages| == |s.messages| && t.messages[m].place.Deleted?
    ensures Audited(t.audit, s.messages[m].body)
  {
    hide Reaches, Inv, EventKey, BuildAuditData, ReadSqsRecordBody, HasAudit;
    var received := Apply(c, s, Receive(i, m));
    ReachesOne(c, s, Receive(i, m));
    var answers := Answers(false, Done, true);
    var rest := ProcessMessageReaches(c, received, i, m, answers);
    t := Consumed(c, received, i, m, answers);
    ReachesThen(c, s, [Receive(i, m)], received, rest, t);
    actions := [Receive(i, m)] + rest;
    ReachesKeepsInv(c, s, actions, t);
    DeletedMessageIsAudited(c, t, m);
  }

  lemma DeletedMessageIsAudited(c: Config, s: State, m: nat)
    requires Inv(c, s) && m < |s.messages| && s.messages[m].place.Deleted?
    ensures Audited(s.audit, s.messages[m].body)
  {
    hide Audited, RowsOk, HandsOk, HoldersOk, MessagesOk, PublishedOk, AuditOk, ConsumersOk;
  }

  // ---- One poll ----

  /** The consumers from `base` on have received the messages of one response. */
  predicate HasReceived(s: State, base: nat, ids: seq<nat>) {
    forall n :: 0 <= n < |ids| ==> ConsumerOf(s, base + n) == Received(ids[n]) && ids[n] < |s.messages|
  }

  /** The `n` consumers from `base` on are idle. */
  function Idled(consumers: map<nat, Consumer>, base: nat, n: nat): (r: map<nat, Consumer>)
    ensures forall i :: i >= base + n ==> (i in r <==> i in consumers) && (i in r ==> r[i] == consumers[i])
  {
    if n == 0 then consumers else Idled(consumers, base, n - 1)[base + n - 1 := Idle]
  }

  /** The protocol state after the poll has worked them off. */
  function Polled(c: Config, s: State, base: nat, ids: seq<nat>, answers: nat -> Answers): State
    requires HasReceived(s, base, ids)
  {
    var after := ProcessEach(c, Stored(s.audit, s.messages), ids, answers);
    s.(audit := after.audit, messages := after.messages,
       consumers := Idled(s.consumers, base, |ids|))
  }

  /** `pollOnce` is a run of the protocol's consumer steps. */
  lemma {:induction false} PollReaches(c: Config, s: State, base: nat, ids: seq<nat>, answers: nat -> Answers)
    returns (actions: seq<Action>)
    requires HasReceived(s, base, ids)
    ensures Reaches(c, s, actions, Polled(c, s, base, ids, answers))
    decreases |ids|
  {
    hide Reaches, ProcessReceived;
    if ids == [] {
      actions := NothingReaches(c, s);
      return;
    }
    var last := |ids| - 1;
    var before := Polled(c, s, base, ids[..last], answers);
    var first := PollReaches(c, s, base, ids[..last], answers);
    LaterConsumers(s, base, ids, before);
    var second := ProcessMessageReaches(c, before, base + last, ids[last], answers(ids[last]));
    var end := Consumed(c, before, base + last, ids[last], answers(ids[last]));
    ReachesThen(c, s, first, before, second, end);
    return first + second;
  }

  lemma LaterConsumers(s: State, base: nat, ids: seq<nat>, before: State)
    requires HasReceived(s, base, ids) && ids != [] && |before.messages| == |s.messages|
    requires before.consumers == Idled(s.consumers, base, |ids| - 1)
    ensures ConsumerOf(before, base + |ids| - 1) == Received(ids[|ids| - 1]) && ids[|ids| - 1] < |before.messages|
  {
    assert ConsumerOf(s, base + (|ids| - 1)) == Received(ids[|ids| - 1]);
  }

  lemma NothingReaches(c: Config, s: State) returns (actions: seq<Action>)
    ensures Reaches(c, s, actions, s)
  {
    actions := [];
  }

  ghost predicate Grown(before: Stored, after: Stored) {
    && Extends(before.audit, after.audit) && |after.messages| == |before.messages|
    && forall m :: 0 <= m < |before.messages| ==>
      && after.messages[m].body == before.messages[m].body
      && (!before.messages[m].place.Queued? ==> !after.messages[m].place.Queued?)
  }

  lemma ProcessingGrows(c: Config, st: Stored, m: nat, answers: Answers)
    requires m < |st.messages|
    ensures Grown(st, ProcessReceived(c, st, m, answers))
  {
    hide EventKey, BuildAuditData, ReadSqsRecordBody, HasAudit;
  }

  lemma {:induction false} PollGrows(c: Config, st: Stored, ids: seq<nat>, answers: nat -> Answers)
    requires forall i :: 0 <= i < |ids| ==> ids[i] < |st.messages|
    ensures Grown(st, ProcessEach(c, st, ids, answers))
    decreases |ids|
  {
    if ids != [] {
      hide ProcessReceived;
      var last := |ids| - 1;
      PollGrows(c, st, ids[..last], answers);
      ProcessingGrows(c, ProcessEach(c, st, ids[..last], answers), ids[last], answers(ids[last]));
    }
  }

  lemma ProcessingRecords(c: Config, st: Stored, m: nat)
    requires m < |st.messages| && BodyData(c, st.messages[m].body).Ok?
    ensures var after := ProcessReceived(c, st, m, Answers(false, Done, true));
      Audited(after.audit, st.messages[m].body) && !after.messages[m].place.Queued?
  {
    hide BuildAuditData, ReadSqsRecordBody;
    var data := BodyData(c, st.messages[m].body).value;
    var after := ProcessReceived(c, st, m, Answers(false, Done, true));
    if !HasAudit(st.audit, data.eventId) {
      assert after.audit[|st.audit|] == data;
    }
  }

  /** A message that cannot be recorded does not hold up the others of its poll: each
      acceptable one that meets no failure itself ends in the audit log and off the queue. */
  lemma {:induction false} FailuresDoNotBlockThePoll(c: Config, st: Stored, ids: seq<nat>, answers: nat -> Answers,
                                                     i: nat)
    requires forall j :: 0 <= j < |ids| ==> ids[j] < |st.messages|
    requires i < |ids| && BodyData(c, st.messages[ids[i]].body).Ok? && answers(ids[i]) == Answers(false, Done, true)
    ensures var after := ProcessEach(c, st, ids, answers);
      Audited(after.audit, st.messages[ids[i]].body) && !after.messages[ids[i]].place.Queued?
    decreases |ids|
  {
    hide ProcessReceived, Audited, BodyData;
    var last := |ids| - 1;
    var before := ProcessEach(c, st, ids[..last], answers);
    PollGrows(c, st, ids[..last], answers);
    if i == last {
      ProcessingRecords(c, before, ids[i]);
    } else {
      FailuresDoNotBlockThePoll(c, st, ids[..last], answers, i);
      ProcessingGrows(c, before, ids[last], answers(ids[last]));
      AuditedKept(before.audit, ProcessEach(c, st, ids, answers).audit, st.messages[ids[i]].body);
    }
  }
}
