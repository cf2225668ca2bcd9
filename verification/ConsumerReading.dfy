// How the audit consumer reads what it is sent: bare or wrapped envelopes, and their actors.
module ConsumerReading {
  import opened Common
  import opened Text
  import opened Json
  import opened Envelope
  import opened RecordRoundTrip

  // ---- Bodies ----

  /** The consumer throws over this body, naming its event id. */
  predicate IsRefused(body: Body, dateParses: string -> bool) {
    var command := ReadSqsRecordBody(body);
    EventKey(command) == Err(ValidationFailed("eventId")) && BuildAuditData(command, dateParses).Err?
  }

  /** An object is read as it is, an object in an EventBridge envelope as its detail; all
      other bodies are refused. */
  lemma BodyMeaning(body: Body, dateParses: string -> bool)
    ensures body.Unparsable? ==> IsRefused(body, dateParses)
    ensures body.Parsed? && !body.json.Obj? ==> IsRefused(body, dateParses)
    ensures body.Parsed? && Get(body.json, "detail").Some? && !Get(body.json, "detail").value.Obj? ==>
      IsRefused(body, dateParses)
    ensures body.Parsed? && Get(body.json, "detail").Some? && Get(body.json, "detail").value.Obj? ==>
      ReadSqsRecordBody(body) == Get(body.json, "detail").value
    ensures body.Parsed? && body.json.Obj? && Get(body.json, "detail").None? ==> ReadSqsRecordBody(body) == body.json
  {
  }

  /** So whether a recorded event arrives bare or wrapped by EventBridge makes no difference. */
  lemma WrappingMakesNoDifference(service: string, eventId: string, occurredAt: string, command: Envelope.Command,
                                  before: seq<Field>, after: seq<Field>)
    requires forall i :: 0 <= i < |before| ==> before[i].key != "detail"
    ensures var payload := RecordPayload(service, eventId, occurredAt, command);
      ReadSqsRecordBody(Parsed(Obj(before + [Field("detail", payload)] + after))) == ReadSqsRecordBody(Parsed(payload))
  {
    hide Lookup;
    var payload := RecordPayload(service, eventId, occurredAt, command);
    var fields := before + [Field("detail", payload)] + after;
    PayloadFields(service, eventId, occurredAt, command);
    LookupAt(fields, |before|);
    assert fields[|before|] == Field("detail", payload);
  }

  // ---- Actors ----

  function MaybeText(value: Option<string>): Json {
    if value.Some? then Str(value.value) else Null
  }

  /** An actor as the event contract writes it. */
  function WriteActor(actor: Actor): Json {
    match actor.kind
    case UserActor => Obj([Field("type", Str("user")), Field("userId", MaybeText(actor.id))])
    case SystemActor => Obj([Field("type", Str("system")), Field("id", MaybeText(actor.id))])
    case ServiceActor => Obj([Field("type", Str("service")), Field("serviceId", MaybeText(actor.id))])
  }

  lemma TwoFields(first: Field, second: Field, key: string)
    requires first.key != second.key
    ensures Lookup([first, second], first.key) == Some(first.value)
    ensures Lookup([first, second], second.key) == Some(second.value)
    ensures key != first.key && key != second.key ==> Lookup([first, second], key).None?
  {
    if key != first.key && key != second.key {
      LookupAbsent([first, second], key);
    }
  }

  /** Every actor reads back as it was written, a service without an id as the source. */
  lemma ActorReadsBack(actor: Actor, source: string)
    requires actor.id.Some? ==> !Blank(actor.id.value) && Tight(actor.id.value)
    requires !Blank(source) && Tight(source)
    ensures ReadEventActor(Some(WriteActor(actor)), source)
         == Ok(if actor.kind.ServiceActor? && actor.id.None? then Actor(ServiceActor, Some(source)) else actor)
  {
    hide Lookup;
    var fields := WriteActor(actor).fields;
    TwoFields(fields[0], fields[1], "id");
    TwoFields(fields[0], fields[1], "userId");
    TrimFixesTight(source);
    if actor.id.Some? {
      TrimFixesTight(actor.id.value);
    }
  }

  /** Without an actor object the source is the actor. */
  lemma NoActorIsTheSource(value: Option<Json>, source: string)
    requires value.None? || value.value.Null? || value.value.Bool? || value.value.Num? || value.value.Str?
    ensures ReadEventActor(value, source) == Ok(Actor(ServiceActor, Some(source)))
  {
  }

  /** Without a type a user id makes a user; a user's `userId` counts before its `id`. */
  lemma UserIdCounts(user: string, other: Json, source: string)
    requires !Blank(user) && Tight(user)
    ensures ReadEventActor(Some(Obj([Field("userId", Str(user)), Field("id", other)])), source)
         == Ok(Actor(UserActor, Some(user)))
  {
    hide Lookup;
    TwoFields(Field("userId", Str(user)), Field("id", other), "type");
    TrimFixesTight(user);
    assert user != "";
  }

  /** Without a type and a user id the actor is a service. */
  lemma UntypedActorIsService(id: Json, other: Json, source: string)
    requires !Blank(source) && Tight(source)
    ensures ReadEventActor(Some(Obj([Field("id", id), Field("name", other)])), source)
         == Ok(Actor(ServiceActor, Some(source)))
  {
    hide Lookup;
    TwoFields(Field("id", id), Field("name", other), "type");
    TwoFields(Field("id", id), Field("name", other), "userId");
    TwoFields(Field("id", id), Field("name", other), "serviceId");
    TrimFixesTight(source);
  }

  /** An actor of another type is refused, and so is an id that is neither empty nor a text. */
  lemma OtherActorsAreRefused(kind: Json, other: Field, source: string)
    requires !kind.Null? && other.key != "type"
    requires kind != Str("user") && kind != Str("system") && kind != Str("service")
    ensures ReadEventActor(Some(Obj([Field("type", kind), other])), source) == Err(ValidationFailed("actor.type"))
  {
    hide Lookup;
    TwoFields(Field("type", kind), other, "userId");
  }

  lemma IdsAreTexts(id: Json, source: string)
    requires if id.Str? then id.s != "" && Blank(id.s) else !id.Null?
    ensures ReadEventActor(Some(Obj([Field("type", Str("user")), Field("userId", id)])), source)
         == Err(ValidationFailed("actor.userId"))
    ensures ReadEventActor(Some(Obj([Field("type", Str("system")), Field("id", id)])), source)
         == Err(ValidationFailed("actor.id"))
    ensures ReadEventActor(Some(Obj([Field("type", Str("service")), Field("serviceId", id)])), source)
         == Err(ValidationFailed("actor.serviceId"))
  {
    hide Lookup, Blank;
    TwoFields(Field("type", Str("user")), Field("userId", id), "id");
    TwoFields(Field("type", Str("system")), Field("id", id), "userId");
    TwoFields(Field("type", Str("service")), Field("serviceId", id), "userId");
  }
}
