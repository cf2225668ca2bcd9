// What becomes of an event written by a producer's `record`: when the relay's validator
// lets it pass, and when the audit consumer accepts it.
module RecordRoundTrip {
  import opened Common
  import opened Text
  import opened Json
  import opened SensitiveKeys
  import opened Envelope

  lemma {:induction false} LookupAt(fields: seq<Field>, i: nat)
    requires i < |fields|
    requires forall j :: 0 <= j < i ==> fields[j].key != fields[i].key
    ensures Lookup(fields, fields[i].key) == Some(fields[i].value)
  {
    if i > 0 {
      LookupAt(fields[1..], i - 1);
    }
  }

  lemma {:induction false} LookupAbsent(fields: seq<Field>, key: string)
    requires forall j :: 0 <= j < |fields| ==> fields[j].key != key
    ensures Lookup(fields, key).None?
  {
    if fields != [] {
      LookupAbsent(fields[1..], key);
    }
  }

  /** Property access on a freshly recorded payload. */
  lemma PayloadFields(service: string, eventId: string, occurredAt: string, command: Command)
    ensures var p := RecordPayload(service, eventId, occurredAt, command);
      && Get(p, "eventId") == Some(Str(eventId))
      && Get(p, "eventType") == Some(Str(command.eventType))
      && Get(p, "schemaVersion") == Some(Num(SchemaVersion(command) as real))
      && SchemaVersion(command) == (if command.schemaVersion.Some? then command.schemaVersion.value else 1)
      && Get(p, "tenantId") == Some(Str(command.context.tenantId))
      && Get(p, "requestId") == Some(Str(RequestId(command.context)))
      && RequestId(command.context)
         == (if command.context.requestId.Some? then command.context.requestId.value else "unknown")
      && Get(p, "occurredAt") == Some(Str(occurredAt))
      && Get(p, "source") == Some(Str(service))
      && Get(p, "aggregateType") == Some(Str(command.aggregateType))
      && Get(p, "aggregateId") == Some(Str(command.aggregateId))
      && Get(p, "actor") == Some(RecordActor(command.context))
      && Get(p, "data") == Some(Obj(command.data))
      && Get(p, "detail") == None
  {
    var p := RecordPayload(service, eventId, occurredAt, command);
    forall i | 0 <= i < |p.fields| ensures Get(p, p.fields[i].key) == Some(p.fields[i].value) {
      LookupAt(p.fields, i);
    }
    LookupAbsent(p.fields, "detail");
    assert Get(p, p.fields[0].key) == Some(p.fields[0].value);
    assert Get(p, p.fields[1].key) == Some(p.fields[1].value);
    assert Get(p, p.fields[2].key) == Some(p.fields[2].value);
    assert Get(p, p.fields[3].key) == Some(p.fields[3].value);
    assert Get(p, p.fields[4].key) == Some(p.fields[4].value);
    assert Get(p, p.fields[5].key) == Some(p.fields[5].value);
    assert Get(p, p.fields[6].key) == Some(p.fields[6].value);
    assert Get(p, p.fields[7].key) == Some(p.fields[7].value);
    assert Get(p, p.fields[8].key) == Some(p.fields[8].value);
    assert Get(p, p.fields[9].key) == Some(p.fields[9].value);
    assert Get(p, p.fields[10].key) == Some(p.fields[10].value);
  }

  /** Every field the validator compares is written equal to its column, the two ids up to
      the lower case in which the columns hold them. */
  lemma PayloadAgainstColumns(service: string, eventId: string, occurredAt: string, command: Command, f: Field)
    requires f in Expected(RecordColumns(service, eventId, command))
    ensures var written := Get(RecordPayload(service, eventId, occurredAt, command), f.key);
      && written.Some?
      && (if f.key in {"eventId", "tenantId"} then written.value.Str? && f.value == Str(Canonical(written.value.s))
          else written.value == f.value)
  {
    PayloadFields(service, eventId, occurredAt, command);
  }

  // ---- Relay ----

  /** The columns come back from `uuid` columns in lower case while the JSON payload keeps
      the caller's text, so a recorded event passes the validator exactly when its tenant
      id was already written in lower case; otherwise `tenantId` is reported. */
  lemma RecordPassesValidatorIff(service: string, eventId: string, occurredAt: string, command: Command,
                                 dateParses: string -> bool)
    requires Canonical(eventId) == eventId
    requires dateParses(occurredAt)
    ensures var columns := RecordColumns(service, eventId, command);
      var payload := RecordPayload(service, eventId, occurredAt, command);
      ValidateClaimed(columns, payload, dateParses) ==
        if Canonical(command.context.tenantId) == command.context.tenantId then Ok(payload)
        else Err(FieldMismatch("tenantId"))
  {
    PayloadFields(service, eventId, occurredAt, command);
    var columns := RecordColumns(service, eventId, command);
    var payload := RecordPayload(service, eventId, occurredAt, command);
    var e := Expected(columns);
    assert e[3..] == [e[3]] + e[4..];
    MismatchSkips(payload, e, 3);
    if Canonical(command.context.tenantId) == command.context.tenantId {
      MismatchSkips(payload, e, 8);
    }
  }

  lemma {:induction false} MismatchSkips(payload: Json, expected: seq<Field>, n: nat)
    requires n <= |expected|
    requires forall i :: 0 <= i < n ==> Get(payload, expected[i].key) == Some(expected[i].value)
    ensures FirstMismatch(payload, expected) == FirstMismatch(payload, expected[n..])
  {
    if n > 0 {
      MismatchSkips(payload, expected[1..], n - 1);
      assert expected[1..][n - 1..] == expected[n..];
    } else {
      assert expected[0..] == expected;
    }
  }

  /** A tenant id that passes every UUID check of the services, and whose events never
      leave the outbox. */
  lemma UpperCaseTenantIsRejected(service: string, eventId: string, occurredAt: string, command: Command,
                                  dateParses: string -> bool)
    requires Canonical(eventId) == eventId && dateParses(occurredAt)
    requires command.context.tenantId == "A1111111-1111-4111-8111-111111111111"
    ensures ValidateClaimed(RecordColumns(service, eventId, command),
                            RecordPayload(service, eventId, occurredAt, command), dateParses)
         == Err(FieldMismatch("tenantId"))
  {
    RecordPassesValidatorIff(service, eventId, occurredAt, command, dateParses);
    assert Canonical(command.context.tenantId)[0] == 'a';
  }

  lemma UpperCaseTenantIsUuid()
    ensures IsUuid("A1111111-1111-4111-8111-111111111111")
  {
  }

  // ---- Audit consumer ----

  /** A user actor keeps its id; without a user the actor is the system and has none. */
  function RecordedActorOf(context: Context): Result<Actor, AuditError> {
    match context.userId
    case None => Ok(Actor(SystemActor, None))
    case Some(user) =>
      if user == "" then Ok(Actor(SystemActor, None))
      else if Blank(user) then Err(ValidationFailed("actor.userId"))
      else Ok(Actor(UserActor, Some(Trim(user))))
  }

  /** What a producer must supply for its event to be auditable. */
  ghost predicate Auditable(service: string, command: Command) {
    && !Blank(service) && !Blank(command.eventType)
    && !Blank(command.aggregateType) && !Blank(command.aggregateId)
    && !Blank(RequestId(command.context))
    && SchemaVersion(command) >= 1
    && RecordedActorOf(command.context).Ok?
    && Clean(Obj(command.data))
  }

  lemma RecordedActor(context: Context, source: string)
    ensures ReadEventActor(Some(RecordActor(context)), source) == RecordedActorOf(context)
  {
    var a := RecordActor(context);
    LookupAt(a.fields, 0);
    LookupAt(a.fields, 1);
    LookupAbsent(a.fields, "id");
  }

  /** The same for any command object with these properties. */
  lemma AcceptedIff(json: Json, service: string, eventId: string, occurredAt: string, command: Command,
                    actor: Json, data: Json, dateParses: string -> bool)
    requires IsUuid(eventId) && IsUuid(command.context.tenantId)
    requires !Blank(occurredAt) && dateParses(occurredAt)
    requires Get(json, "eventId") == Some(Str(eventId))
    requires Get(json, "eventType") == Some(Str(command.eventType))
    requires Get(json, "schemaVersion") == Some(Num(SchemaVersion(command) as real))
    requires Get(json, "tenantId") == Some(Str(command.context.tenantId))
    requires Get(json, "requestId") == Some(Str(RequestId(command.context)))
    requires Get(json, "occurredAt") == Some(Str(occurredAt))
    requires Get(json, "source") == Some(Str(service))
    requires Get(json, "aggregateType") == Some(Str(command.aggregateType))
    requires Get(json, "aggregateId") == Some(Str(command.aggregateId))
    requires Get(json, "actor") == Some(actor)
    requires Get(json, "data") == Some(data) && data.Obj? && data.fields == command.data
    requires !Blank(service) ==> ReadEventActor(Some(actor), Trim(service)) == RecordedActorOf(command.context)
    ensures var audit := BuildAuditData(json, dateParses);
      && (audit.Ok? <==> Auditable(service, command))
      && (audit.Ok? ==> audit.value == RecordedAudit(eventId, occurredAt, command))
  {
    hide ReadDetails, ReadEventActor, RecordedActorOf, IsSchemaVersion, Blank, Trim, IsUuid;
    UuidIsTight(eventId);
    UuidIsTight(command.context.tenantId);
    SchemaVersionIsNumber(SchemaVersion(command));
  }

  /** The audit row a recorded event turns into. */
  function RecordedAudit(eventId: string, occurredAt: string, command: Command): AuditData
    requires RecordedActorOf(command.context).Ok?
  {
    AuditData(Canonical(eventId), Canonical(command.context.tenantId), Trim(RequestId(command.context)),
              Some(occurredAt),
              RecordedActorOf(command.context).value,
              Trim(command.eventType), Trim(command.aggregateType), Trim(command.aggregateId),
              Obj(command.data))
  }

  /** The consumer accepts a recorded event exactly when the producer supplied auditable
      values, and then stores them under the row's own columns: a system actor without
      an id, a user actor with the user's. */
  lemma RecordAcceptedIff(service: string, eventId: string, occurredAt: string, command: Command,
                          dateParses: string -> bool)
    requires IsUuid(eventId) && IsUuid(command.context.tenantId)
    requires !Blank(occurredAt) && dateParses(occurredAt)
    ensures var audit := BuildAuditData(
        ReadSqsRecordBody(Parsed(RecordPayload(service, eventId, occurredAt, command))), dateParses);
      && (audit.Ok? <==> Auditable(service, command))
      && (audit.Ok? ==>
            && audit.value == RecordedAudit(eventId, occurredAt, command)
            && Describes(audit.value, RecordColumns(service, eventId, command)))
  {
    PayloadFields(service, eventId, occurredAt, command);
    var payload := RecordPayload(service, eventId, occurredAt, command);
    assert ReadSqsRecordBody(Parsed(payload)) == payload;
    RecordedActor(command.context, Trim(service));
    AcceptedIff(payload, service, eventId, occurredAt, command, RecordActor(command.context), Obj(command.data),
         dateParses);
    UuidIsTight(eventId);
    UuidIsTight(command.context.tenantId);
    UuidIsTight(Canonical(eventId));
    UuidIsTight(Canonical(command.context.tenantId));
    CanonicalIsIdempotent(eventId);
    CanonicalIsIdempotent(command.context.tenantId);
  }

  lemma SchemaVersionIsNumber(version: int)
    ensures IsSchemaVersion(Some(Num(version as real))) <==> version >= 1
  {
  }
}
