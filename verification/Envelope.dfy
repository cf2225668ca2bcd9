// The event envelope on its whole way: written by a producer's `record`, checked by
// the relay, parsed and validated by the audit consumer.
module Envelope {
  import opened Common
  import opened Text
  import opened Json
  import opened SensitiveKeys

  /** The columns of an outbox row, as PostgreSQL gives them back. */
  datatype Columns = Columns(
    eventId: string, eventType: string, schemaVersion: int, tenantId: string,
    requestId: string, source: string, aggregateType: string, aggregateId: string)

  // ---- Producers: outbox-event.service.ts ----

  datatype Context = Context(tenantId: string, userId: Option<string>, requestId: Option<string>)

  datatype Command = Command(
    context: Context, eventType: string, aggregateType: string, aggregateId: string,
    data: seq<Field>, schemaVersion: Option<int>)

  function RequestId(context: Context): string {
    if context.requestId.Some? then context.requestId.value else "unknown"
  }

  function SchemaVersion(command: Command): int {
    if command.schemaVersion.Some? then command.schemaVersion.value else 1
  }

  /** The row's columns. `event_id` and `tenant_id` are `uuid` columns, the others text. */
  function RecordColumns(service: string, eventId: string, command: Command): Columns {
    Columns(Canonical(eventId), command.eventType, SchemaVersion(command),
            Canonical(command.context.tenantId), RequestId(command.context), service,
            command.aggregateType, command.aggregateId)
  }

  function RecordActor(context: Context): Json {
    Obj([
      Field("type", Str(if context.userId.Some? && context.userId.value != "" then "user" else "system")),
      Field("userId", if context.userId.Some? then Str(context.userId.value) else Null)])
  }

  /** The JSON payload stored beside the columns. */
  function RecordPayload(service: string, eventId: string, occurredAt: string, command: Command): Json {
    Obj([
      Field("eventId", Str(eventId)),
      Field("eventType", Str(command.eventType)),
      Field("schemaVersion", Num(SchemaVersion(command) as real)),
      Field("tenantId", Str(command.context.tenantId)),
      Field("requestId", Str(RequestId(command.context))),
      Field("occurredAt", Str(occurredAt)),
      Field("source", Str(service)),
      Field("aggregateType", Str(command.aggregateType)),
      Field("aggregateId", Str(command.aggregateId)),
      Field("actor", RecordActor(command.context)),
      Field("data", Obj(command.data))])
  }

  // ---- Relay: event-envelope.validator.ts ----

  datatype EnvelopeError =
    | PayloadNotObject
    | FieldMismatch(field: string)
    | BadOccurredAt
    | DataMissing

  /** The first field, in the source's order, whose payload value is not strictly equal
      to the column. */
  function FirstMismatch(payload: Json, expected: seq<Field>): Option<string> {
    if expected == [] then None
    else if Get(payload, expected[0].key) != Some(expected[0].value) then Some(expected[0].key)
    else FirstMismatch(payload, expected[1..])
  }

  function Expected(columns: Columns): seq<Field> {
    [ Field("eventId", Str(columns.eventId)),
      Field("eventType", Str(columns.eventType)),
      Field("schemaVersion", Num(columns.schemaVersion as real)),
      Field("tenantId", Str(columns.tenantId)),
      Field("requestId", Str(columns.requestId)),
      Field("source", Str(columns.source)),
      Field("aggregateType", Str(columns.aggregateType)),
      Field("aggregateId", Str(columns.aggregateId)) ]
  }

  /** `dateParses` stands for "`Date.parse` yields a number". */
  function ValidateClaimed(columns: Columns, payload: Json, dateParses: string -> bool): (r: Result<Json,
                           EnvelopeError>)
    ensures r.Ok? ==> r.value == payload
  {
    if !payload.Obj? then Err(PayloadNotObject)
    else
      var mismatch := FirstMismatch(payload, Expected(columns));
      if mismatch.Some? then Err(FieldMismatch(mismatch.value))
      else
        match Get(payload, "occurredAt")
        case Some(Str(text)) =>
          if !dateParses(text) then Err(BadOccurredAt)
          else if Get(payload, "data").None? then Err(DataMissing)
          else Ok(payload)
        case _ => Err(BadOccurredAt)
  }

  // ---- Audit consumer: audit-log-event.consumer.ts and audit-logs.service.ts ----

  /** An SQS message body after JSON.parse; blank text and text that is no JSON are one case. */
  datatype Body = Unparsable | Parsed(json: Json)

  function ReadDetail(event: Json): Json {
    match Get(event, "detail")
    case None => event
    case Some(detail) => if detail.Obj? then detail else Obj([])
  }

  function ReadSqsRecordBody(body: Body): Json {
    if body.Unparsable? || !body.json.Obj? then Obj([]) else ReadDetail(body.json)
  }

  datatype ActorType = UserActor | SystemActor | ServiceActor
  datatype Actor = Actor(kind: ActorType, id: Option<string>)

  /** `occurredAt` is None when the command has none and the clock is read instead. */
  datatype AuditData = AuditData(
    eventId: string, tenantId: string, requestId: string, occurredAt: Option<string>,
    actor: Actor, action: string, resourceType: string, resourceId: string, details: Json)

  /** VALIDATION_FAILED on a field. */
  datatype AuditError = ValidationFailed(field: string)

  function RequireString(value: Option<Json>, field: string): (r: Result<string, AuditError>)
    ensures r.Ok? <==> value.Some? && value.value.Str? && !Blank(value.value.s)
    ensures r.Ok? ==> r.value == Trim(value.value.s)
  {
    match value
    case Some(Str(text)) => if Blank(text) then Err(ValidationFailed(field)) else Ok(Trim(text))
    case _ => Err(ValidationFailed(field))
  }

  function RequireUuid(value: Option<Json>, field: string): (r: Result<string, AuditError>)
    ensures r.Ok? <==> value.Some? && value.value.Str? && IsUuid(Trim(value.value.s))
    ensures r.Ok? ==> r.value == Trim(value.value.s)
  {
    match RequireString(value, field)
    case Ok(text) => if IsUuid(text) then Ok(text) else Err(ValidationFailed(field))
    case Err(e) => Err(e)
  }

  predicate IsSchemaVersion(value: Option<Json>) {
    value.Some? && value.value.Num? && value.value.n == value.value.n.Floor as real && value.value.n >= 1.0
  }

  function ReadOccurredAt(value: Option<Json>, dateParses: string -> bool): Result<Option<string>, AuditError> {
    match value
    case None => Ok(None)
    case Some(Str(text)) =>
      if Blank(text) || !dateParses(text) then Err(ValidationFailed("occurredAt")) else Ok(Some(text))
    case _ => Err(ValidationFailed("occurredAt"))
  }

  function ReadNullableString(value: Option<Json>, field: string): Result<Option<string>, AuditError> {
    if value.None? || value.value.Null? || value.value == Str("") then Ok(None)
    else match RequireString(value, field)
      case Ok(text) => Ok(Some(text))
      case Err(e) => Err(e)
  }

  function ReadActorType(value: Json): Result<ActorType, AuditError> {
    if value == Str("user") then Ok(UserActor)
    else if value == Str("system") then Ok(SystemActor)
    else if value == Str("service") then Ok(ServiceActor)
    else Err(ValidationFailed("actor.type"))
  }

  function ReadActorId(kind: ActorType, actor: Json, source: string): Result<Option<string>, AuditError> {
    match kind
    case UserActor => ReadNullableString(Coalesce(Get(actor, "userId"), Get(actor, "id")), "actor.userId")
    case ServiceActor => ReadNullableString(Coalesce(Get(actor, "serviceId"), Some(Str(source))), "actor.serviceId")
    case SystemActor => ReadNullableString(Get(actor, "id"), "actor.id")
  }

  function ReadEventActor(value: Option<Json>, source: string): Result<Actor, AuditError> {
    if value.None? || !(value.value.Obj? || value.value.Arr?) then Ok(Actor(ServiceActor, Some(source)))
    else
      var actor := value.value;
      var fallback := Str(if Truthy(Get(actor, "userId")) then "user" else "service");
      match ReadActorType(Coalesce(Get(actor, "type"), Some(fallback)).value)
      case Err(e) => Err(e)
      case Ok(kind) =>
        match ReadActorId(kind, actor, source)
        case Err(e) => Err(e)
        case Ok(id) => Ok(Actor(kind, id))
  }

  /** Details are accepted exactly if no key at any depth spells a listed word, and then as
      they are. */
  function ReadDetails(value: Json): (r: Result<Json, AuditError>)
    ensures r == if Clean(value) then Ok(value) else Err(ValidationFailed("details"))
    ensures r.Ok? <==> Secretless(value)
  {
    ScanDecidesCleanliness(value, "");
    if First(Occurrences(value, "")).Some? then Err(ValidationFailed("details")) else Ok(value)
  }

  /** `recordFromEvent` reads the event id first; the stored row is keyed by the `uuid`
      column, hence by the canonical text. */
  function EventKey(command: Json): Result<string, AuditError> {
    match RequireUuid(Get(command, "eventId"), "eventId")
    case Ok(text) => Ok(Canonical(text))
    case Err(e) => Err(e)
  }

  datatype Subject = Subject(
    tenantId: string, requestId: string, occurredAt: Option<string>,
    action: string, resourceType: string, resourceId: string, source: string)

  function ReadSubject(command: Json, dateParses: string -> bool): Result<Subject, AuditError> {
    var tenantId := RequireUuid(Get(command, "tenantId"), "tenantId");
    var requestId := RequireString(Get(command, "requestId"), "requestId");
    var occurredAt := ReadOccurredAt(Get(command, "occurredAt"), dateParses);
    var action := RequireString(Get(command, "eventType"), "eventType");
    var resourceType := RequireString(Get(command, "aggregateType"), "aggregateType");
    var resourceId := RequireString(Get(command, "aggregateId"), "aggregateId");
    var source := RequireString(Get(command, "source"), "source");
    if tenantId.Err? then Err(tenantId.error)
    else if requestId.Err? then Err(requestId.error)
    else if occurredAt.Err? then Err(occurredAt.error)
    else if action.Err? then Err(action.error)
    else if resourceType.Err? then Err(resourceType.error)
    else if resourceId.Err? then Err(resourceId.error)
    else if source.Err? then Err(source.error)
    else Ok(Subject(Canonical(tenantId.value), requestId.value, occurredAt.value,
                    action.value, resourceType.value, resourceId.value, source.value))
  }

  /** Everything `recordFromEvent` validates, in its order, once no row with the same
      event id was found. */
  function BuildAuditData(command: Json, dateParses: string -> bool): (r: Result<AuditData, AuditError>)
    ensures r.Ok? ==> EventKey(command) == Ok(r.value.eventId) && Clean(r.value.details)
  {
    match EventKey(command)
    case Err(e) => Err(e)
    case Ok(eventId) =>
      if !IsSchemaVersion(Get(command, "schemaVersion")) then Err(ValidationFailed("schemaVersion"))
      else
        match ReadSubject(command, dateParses)
        case Err(e) => Err(e)
        case Ok(subject) =>
          match ReadEventActor(Get(command, "actor"), subject.source)
          case Err(e) => Err(e)
          case Ok(actor) =>
            match ReadDetails(Coalesce(Get(command, "data"), Some(Obj([]))).value)
            case Err(e) => Err(e)
            case Ok(details) =>
              Ok(AuditData(eventId, subject.tenantId, subject.requestId, subject.occurredAt, actor,
                           subject.action, subject.resourceType, subject.resourceId, details))
  }

  // ---- From column to audit row ----

  /** The validator passes exactly an object whose eight fields are the columns, whose time
      parses and which has data. */
  lemma ValidatorPassesIff(columns: Columns, payload: Json, dateParses: string -> bool)
    ensures ValidateClaimed(columns, payload, dateParses).Ok? <==>
      && Get(payload, "eventId") == Some(Str(columns.eventId))
      && Get(payload, "eventType") == Some(Str(columns.eventType))
      && Get(payload, "schemaVersion") == Some(Num(columns.schemaVersion as real))
      && Get(payload, "tenantId") == Some(Str(columns.tenantId))
      && Get(payload, "requestId") == Some(Str(columns.requestId))
      && Get(payload, "source") == Some(Str(columns.source))
      && Get(payload, "aggregateType") == Some(Str(columns.aggregateType))
      && Get(payload, "aggregateId") == Some(Str(columns.aggregateId))
      && (exists text :: Get(payload, "occurredAt") == Some(Str(text)) && dateParses(text))
      && Get(payload, "data").Some?
  {
    hide FirstMismatch;
    MatchesExactly(payload, Expected(columns));
    EightFields(columns, payload);
    var e := Expected(columns);
    assert Agrees(payload, e[0]) && Agrees(payload, e[1]) && Agrees(payload, e[2]) && Agrees(payload, e[3])
        && Agrees(payload, e[4]) && Agrees(payload, e[5]) && Agrees(payload, e[6]) && Agrees(payload, e[7])
      <==> forall i :: 0 <= i < 8 ==> Agrees(payload, e[i]);
  }

  /** The payload's field has the expected value. */
  predicate Agrees(payload: Json, expected: Field) {
    Get(payload, expected.key) == Some(expected.value)
  }

  lemma EightFields(columns: Columns, payload: Json)
    ensures (forall f :: f in Expected(columns) ==> Agrees(payload, f)) <==>
      forall i :: 0 <= i < 8 ==> Agrees(payload, Expected(columns)[i])
  {
    hide Agrees;
    var e := Expected(columns);
    if forall i :: 0 <= i < 8 ==> Agrees(payload, e[i]) {
      forall f | f in e ensures Agrees(payload, f) {
        var i :| 0 <= i < |e| && e[i] == f;
      }
    }
  }

  lemma {:induction false} MatchesExactly(payload: Json, expected: seq<Field>)
    ensures FirstMismatch(payload, expected).None? <==>
      forall f :: f in expected ==> Agrees(payload, f)
  {
    if expected != [] {
      MatchesExactly(payload, expected[1..]);
      assert expected[0] in expected;
      assert forall f :: f in expected <==> f == expected[0] || f in expected[1..];
    }
  }

  lemma ValidatedFields(columns: Columns, payload: Json, dateParses: string -> bool)
    requires ValidateClaimed(columns, payload, dateParses).Ok?
    ensures Get(payload, "eventId") == Some(Str(columns.eventId))
    ensures Get(payload, "eventType") == Some(Str(columns.eventType))
    ensures Get(payload, "tenantId") == Some(Str(columns.tenantId))
    ensures Get(payload, "requestId") == Some(Str(columns.requestId))
    ensures Get(payload, "aggregateType") == Some(Str(columns.aggregateType))
    ensures Get(payload, "aggregateId") == Some(Str(columns.aggregateId))
  {
    ValidatorPassesIff(columns, payload, dateParses);
  }

  predicate IsTextValue(value: Option<Json>) {
    value.Some? && value.value.Str? && !Blank(value.value.s)
  }

  predicate IsUuidValue(value: Option<Json>) {
    value.Some? && value.value.Str? && IsUuid(Trim(value.value.s))
  }

  function Whole(n: int): Json {
    Num(n as real)
  }

  /** A whole number from 1 on. */
  ghost predicate IsVersionValue(value: Option<Json>) {
    exists n :: n >= 1 && value == Some(Whole(n))
  }

  /** Absent, or a text that is a date. */
  predicate IsTimeValue(value: Option<Json>, dateParses: string -> bool) {
    value.None? || (value.value.Str? && !Blank(value.value.s) && dateParses(value.value.s))
  }

  /** `command.data ?? {}` */
  function DataOf(command: Json): Json {
    Coalesce(Get(command, "data"), Some(Obj([]))).value
  }

  lemma VersionsAreWhole(value: Option<Json>)
    ensures IsSchemaVersion(value) <==> IsVersionValue(value)
  {
    if IsSchemaVersion(value) {
      assert value == Some(Whole(value.value.n.Floor));
    }
  }

  /** A command is accepted exactly if all its fields are well-formed and its data clean,
      whatever the order of the checks; the row then holds these very fields. */
  lemma CommandIsAcceptedIff(command: Json, dateParses: string -> bool)
    ensures BuildAuditData(command, dateParses).Ok? <==>
      && IsUuidValue(Get(command, "eventId")) && IsUuidValue(Get(command, "tenantId"))
      && IsTextValue(Get(command, "requestId")) && IsTextValue(Get(command, "eventType"))
      && IsTextValue(Get(command, "aggregateType")) && IsTextValue(Get(command, "aggregateId"))
      && IsTextValue(Get(command, "source")) && IsVersionValue(Get(command, "schemaVersion"))
      && IsTimeValue(Get(command, "occurredAt"), dateParses)
      && ReadEventActor(Get(command, "actor"), Trim(Get(command, "source").value.s)).Ok?
      && Clean(DataOf(command))
    ensures BuildAuditData(command, dateParses).Ok? ==>
      BuildAuditData(command, dateParses).value == AuditData(
        Canonical(Trim(Get(command, "eventId").value.s)), Canonical(Trim(Get(command, "tenantId").value.s)),
        Trim(Get(command, "requestId").value.s),
        if Get(command, "occurredAt").None? then None else Some(Get(command, "occurredAt").value.s),
        ReadEventActor(Get(command, "actor"), Trim(Get(command, "source").value.s)).value,
        Trim(Get(command, "eventType").value.s), Trim(Get(command, "aggregateType").value.s),
        Trim(Get(command, "aggregateId").value.s), DataOf(command))
  {
    hide ReadEventActor, IsSchemaVersion, IsVersionValue, Blank, Trim, IsUuid, Get, Clean;
    VersionsAreWhole(Get(command, "schemaVersion"));
  }

  /** The audit row describes the outbox row: same tenant, request, action and resource,
      up to the trimming `requireString` does. */
  ghost predicate Describes(data: AuditData, columns: Columns) {
    && data.eventId == Canonical(Trim(columns.eventId))
    && data.tenantId == Canonical(Trim(columns.tenantId))
    && data.requestId == Trim(columns.requestId)
    && data.action == Trim(columns.eventType)
    && data.resourceType == Trim(columns.aggregateType)
    && data.resourceId == Trim(columns.aggregateId)
  }

  lemma RelayedBodyKeepsColumns(columns: Columns, payload: Json, dateParses: string -> bool)
    requires ValidateClaimed(columns, payload, dateParses).Ok?
    requires Get(payload, "detail").None?
    ensures var command := ReadSqsRecordBody(Parsed(payload));
      && command == payload
      && (EventKey(command).Ok? ==> EventKey(command).value == Canonical(Trim(columns.eventId)))
      && (BuildAuditData(command, dateParses).Ok? ==> Describes(BuildAuditData(command, dateParses).value, columns))
  {
    hide ReadDetails, ReadEventActor, IsSchemaVersion, ReadOccurredAt;
    ValidatedFields(columns, payload, dateParses);
  }
}
