// What a reader gets out of the events as they are written: from the event-type names and
// data keys alone every event comes back, so a log of stored envelopes, or of audit rows,
// replays to the tables.
module EventReaders {
  import opened Common
  import opened Text
  import opened Json
  import opened Envelope
  import opened RecordRoundTrip
  import opened EventPayloads
  import T = Tenants
  import TR = TenantReplay
  import A = AuthModel
  import AR = AuthReplay
  import AuthRuns

  // ---- Reading texts, ids and lists ----

  /** The id a text denotes. */
  type Ids = string -> Option<nat>

  ghost predicate Denotes(idOf: Ids, text: nat -> string) {
    forall n: nat :: idOf(text(n)) == Some(n)
  }

  /** `list` lists exactly the members of each set. */
  ghost predicate Lists(list: set<string> -> seq<string>) {
    forall s :: (set x | x in list(s)) == s
  }

  function TextAt(data: seq<Field>, key: string): Option<string> {
    match Lookup(data, key)
    case Some(Str(s)) => Some(s)
    case _ => None
  }

  /** A text, or null for none. */
  function MaybeTextAt(data: seq<Field>, key: string): Option<Option<string>> {
    match Lookup(data, key)
    case Some(Str(s)) => Some(Some(s))
    case Some(Null) => Some(None)
    case _ => None
  }

  function IdAt(data: seq<Field>, key: string, idOf: Ids): Option<nat> {
    match TextAt(data, key)
    case Some(s) => idOf(s)
    case None => None
  }

  /** The id the event is about, written twice. */
  function SubjectAt(content: Content, key: string, idOf: Ids): Option<nat> {
    if TextAt(content.data, key) == Some(content.aggregateId) then idOf(content.aggregateId) else None
  }

  function SetAt(data: seq<Field>, key: string): Option<set<string>> {
    match Lookup(data, key)
    case Some(Arr(items)) =>
      if forall i :: 0 <= i < |items| ==> items[i].Str? then
        Some(set i | 0 <= i < |items| :: items[i].s)
      else None
    case _ => None
  }

  // ---- Tenant events ----

  function ReadTenantStatus(text: string): Option<T.TenantStatus> {
    if text == "provisioning" then Some(T.Provisioning)
    else if text == "active" then Some(T.Active)
    else if text == "suspended" then Some(T.Suspended)
    else if text == "deleted" then Some(T.Removed)
    else None
  }

  function TenantStatusAt(data: seq<Field>, key: string): Option<T.TenantStatus> {
    match TextAt(data, key)
    case Some(s) => ReadTenantStatus(s)
    case None => None
  }

  function ReadTenantEvent(content: Content, idOf: Ids): Option<T.TenantEvent> {
    var data := content.data;
    match SubjectAt(content, "tenantId", idOf)
    case None => None
    case Some(id) =>
      if content.aggregateType != "tenant" then None
      else if content.eventType == "tenant.created" then
        match (TextAt(data, "code"), TextAt(data, "name"), MaybeTextAt(data, "domain"), TenantStatusAt(data, "status"))
        case (Some(code), Some(name), Some(domain), Some(status)) => Some(T.Created(id, code, name, domain, status))
        case _ => None
      else if content.eventType == "tenant.status.changed" then
        match (TenantStatusAt(data, "previousStatus"), TenantStatusAt(data, "status"), MaybeTextAt(data, "reason"))
        case (Some(previous), Some(status), Some(reason)) => Some(T.StatusChanged(id, previous, status, reason))
        case _ => None
      else
        match TextAt(data, "moduleCode")
        case None => None
        case Some(code) =>
          if content.eventType == "tenant.module.enabled" then Some(T.ModuleEnabled(id, code))
          else if content.eventType == "tenant.module.disabled" then Some(T.ModuleDisabled(id, code))
          else None
  }

  /** Property access on a list of at most five fields with distinct keys. */
  lemma FieldsRead(data: seq<Field>)
    requires |data| <= 5 && forall i, j :: 0 <= i < j < |data| ==> data[i].key != data[j].key
    ensures |data| > 0 ==> Lookup(data, data[0].key) == Some(data[0].value)
    ensures |data| > 1 ==> Lookup(data, data[1].key) == Some(data[1].value)
    ensures |data| > 2 ==> Lookup(data, data[2].key) == Some(data[2].value)
    ensures |data| > 3 ==> Lookup(data, data[3].key) == Some(data[3].value)
    ensures |data| > 4 ==> Lookup(data, data[4].key) == Some(data[4].value)
  {
    hide Lookup;
    forall i | 0 <= i < |data| ensures Lookup(data, data[i].key) == Some(data[i].value) {
      LookupAt(data, i);
    }
  }

  lemma CreationReadsBack(event: T.TenantEvent, text: nat -> string, idOf: Ids)
    requires Denotes(idOf, text) && event.Created?
    ensures ReadTenantEvent(TenantContent(event, text), idOf) == Some(event)
  {
    hide Lookup;
    FieldsRead(TenantContent(event, text).data);
  }

  lemma StatusChangeReadsBack(event: T.TenantEvent, text: nat -> string, idOf: Ids)
    requires Denotes(idOf, text) && event.StatusChanged?
    ensures ReadTenantEvent(TenantContent(event, text), idOf) == Some(event)
  {
    hide Lookup;
    FieldsRead(TenantContent(event, text).data);
  }

  lemma ModuleEventReadsBack(event: T.TenantEvent, text: nat -> string, idOf: Ids)
    requires Denotes(idOf, text) && (event.ModuleEnabled? || event.ModuleDisabled?)
    ensures ReadTenantEvent(TenantContent(event, text), idOf) == Some(event)
  {
    hide Lookup;
    FieldsRead(TenantContent(event, text).data);
  }

  /** Every tenant event reads back as what it was. */
  lemma TenantEventReadsBack(event: T.TenantEvent, text: nat -> string, idOf: Ids)
    requires Denotes(idOf, text)
    ensures ReadTenantEvent(TenantContent(event, text), idOf) == Some(event)
  {
    hide ReadTenantEvent, TenantContent, Denotes;
    match event {
      case Created(_, _, _, _, _) => CreationReadsBack(event, text, idOf);
      case StatusChanged(_, _, _, _) => StatusChangeReadsBack(event, text, idOf);
      case ModuleEnabled(_, _) => ModuleEventReadsBack(event, text, idOf);
      case ModuleDisabled(_, _) => ModuleEventReadsBack(event, text, idOf);
    }
  }

  // ---- Account events ----

  function ReadUserStatus(text: string): Option<A.UserStatus> {
    if text == "active" then Some(A.Active)
    else if text == "inactive" then Some(A.Inactive)
    else if text == "locked" then Some(A.Locked)
    else None
  }

  function UserStatusAt(data: seq<Field>, key: string): Option<A.UserStatus> {
    match TextAt(data, key)
    case Some(s) => ReadUserStatus(s)
    case None => None
  }

  function UserTypeAt(data: seq<Field>, key: string): Option<A.UserType> {
    match TextAt(data, key)
    case Some(s) =>
      if s == "system_admin" then Some(A.SystemAdmin) else if s == "general_user" then Some(A.GeneralUser) else None
    case None => None
  }

  /** An id, or null for none. */
  function MaybeIdAt(data: seq<Field>, key: string, idOf: Ids): Option<Option<nat>> {
    match MaybeTextAt(data, key)
    case Some(None) => Some(None)
    case Some(Some(s)) => if idOf(s).Some? then Some(idOf(s)) else None
    case None => None
  }

  function ReadUserEvent(tenantId: nat, content: Content, idOf: Ids): Option<A.AuthEvent> {
    var data := content.data;
    match SubjectAt(content, "userId", idOf)
    case None => None
    case Some(id) =>
      if content.eventType == "auth.user.created" then
        match (UserTypeAt(data, "userType"), UserStatusAt(data, "status"))
        case (Some(userType), Some(status)) => Some(A.UserCreated(tenantId, id, userType, status))
        case _ => None
      else if content.eventType == "auth.user.updated" then
        match SetAt(data, "changedFields")
        case Some(fields) => Some(A.UserUpdated(tenantId, id, fields))
        case None => None
      else if content.eventType == "auth.user.statusChanged" then
        match UserStatusAt(data, "status")
        case Some(status) => Some(A.UserStatusChanged(tenantId, id, status))
        case None => None
      else None
  }

  function ReadRoleEvent(tenantId: nat, content: Content, idOf: Ids): Option<A.AuthEvent> {
    var data := content.data;
    match SubjectAt(content, "roleId", idOf)
    case None => None
    case Some(id) =>
      if content.eventType == "auth.role.created" then
        match TextAt(data, "code")
        case Some(code) => Some(A.RoleCreated(tenantId, id, code))
        case None => None
      else if content.eventType == "auth.role.updated" then
        match SetAt(data, "changedFields")
        case Some(fields) => Some(A.RoleUpdated(tenantId, id, fields))
        case None => None
      else if content.eventType == "auth.role.permissionsReplaced" then
        match SetAt(data, "permissionCodes")
        case Some(codes) => Some(A.PermissionsReplaced(tenantId, id, codes))
        case None => None
      else None
  }

  function ReadAssignmentEvent(tenantId: nat, content: Content, idOf: Ids): Option<A.AuthEvent> {
    var data := content.data;
    match (SubjectAt(content, "userRoleId", idOf), IdAt(data, "targetUserId", idOf), IdAt(data, "roleId", idOf),
           TextAt(data, "roleCode"), MaybeIdAt(data, "warehouseId", idOf))
    case (Some(id), Some(userId), Some(roleId), Some(code), Some(warehouse)) =>
      if content.eventType == "auth.userRole.assigned" then
        Some(A.RoleAssigned(tenantId, id, userId, roleId, code, warehouse))
      else if content.eventType == "auth.userRole.removed" then
        Some(A.RoleRemoved(tenantId, id, userId, roleId, code, warehouse))
      else None
    case _ => None
  }

  function ReadPermissionEvent(tenantId: nat, content: Content): Option<A.AuthEvent> {
    match (TextAt(content.data, "permissionId"), TextAt(content.data, "code"))
    case (Some(id), Some(code)) =>
      if content.eventType == "auth.permission.created" && id == content.aggregateId then
        Some(A.PermissionCreated(tenantId, code))
      else None
    case _ => None
  }

  /** The event's tenant is the envelope's. */
  function ReadAuthEvent(tenantId: nat, content: Content, idOf: Ids): Option<A.AuthEvent> {
    if content.aggregateType == "auth_user" then ReadUserEvent(tenantId, content, idOf)
    else if content.aggregateType == "role" then ReadRoleEvent(tenantId, content, idOf)
    else if content.aggregateType == "user_role" then ReadAssignmentEvent(tenantId, content, idOf)
    else if content.aggregateType == "permission" then ReadPermissionEvent(tenantId, content)
    else None
  }

  lemma ListReadsBack(data: seq<Field>, key: string, values: seq<string>)
    requires Lookup(data, key) == Some(Strings(values))
    ensures SetAt(data, key) == Some(set x | x in values)
  {
    var items := Strings(values).items;
    assert forall i :: 0 <= i < |items| ==> items[i].Str? && items[i].s == values[i];
    var read := set i | 0 <= i < |items| :: items[i].s;
    forall x | x in values ensures x in read {
      var i :| 0 <= i < |values| && values[i] == x;
      assert items[i].s == x;
    }
    assert read == set x | x in values;
  }

  lemma UserEventReadsBack(event: A.AuthEvent, text: nat -> string, permissionId: string,
                           list: set<string> -> seq<string>, idOf: Ids)
    requires Denotes(idOf, text) && Lists(list)
    requires event.UserCreated? || event.UserUpdated? || event.UserStatusChanged?
    ensures ReadUserEvent(event.tenantId, AuthContent(event, text, permissionId, list), idOf) == Some(event)
  {
    hide Lookup, SetAt, Strings;
    var content := AuthContent(event, text, permissionId, list);
    FieldsRead(content.data);
    if event.UserUpdated? {
      ListReadsBack(content.data, "changedFields", list(event.changedFields));
    }
  }

  lemma RoleEventReadsBack(event: A.AuthEvent, text: nat -> string, permissionId: string,
                           list: set<string> -> seq<string>, idOf: Ids)
    requires Denotes(idOf, text) && Lists(list)
    requires event.RoleCreated? || event.RoleUpdated? || event.PermissionsReplaced?
    ensures ReadRoleEvent(event.tenantId, AuthContent(event, text, permissionId, list), idOf) == Some(event)
  {
    hide Lookup, SetAt, Strings;
    var content := AuthContent(event, text, permissionId, list);
    FieldsRead(content.data);
    if event.RoleUpdated? {
      ListReadsBack(content.data, "changedFields", list(event.changedFields));
    } else if event.PermissionsReplaced? {
      ListReadsBack(content.data, "permissionCodes", list(event.codes));
    }
  }

  lemma AssignmentDataReadsBack(text: nat -> string, id: A.AssignmentId, userId: A.UserId, roleId: A.RoleId,
                                code: string, warehouse: Option<A.WarehouseId>, idOf: Ids)
    requires Denotes(idOf, text)
    ensures var data := AssignmentData(text, id, userId, roleId, code, warehouse);
      && TextAt(data, "userRoleId") == Some(text(id)) && IdAt(data, "targetUserId", idOf) == Some(userId)
      && IdAt(data, "roleId", idOf) == Some(roleId) && TextAt(data, "roleCode") == Some(code)
      && MaybeIdAt(data, "warehouseId", idOf) == Some(warehouse)
  {
    hide Lookup;
    FieldsRead(AssignmentData(text, id, userId, roleId, code, warehouse));
  }

  lemma AssignmentEventReadsBack(event: A.AuthEvent, text: nat -> string, permissionId: string,
                                 list: set<string> -> seq<string>, idOf: Ids)
    requires Denotes(idOf, text) && (event.RoleAssigned? || event.RoleRemoved?)
    ensures ReadAssignmentEvent(event.tenantId, AuthContent(event, text, permissionId, list), idOf) == Some(event)
  {
    hide AssignmentData, TextAt, IdAt, MaybeIdAt;
    AssignmentDataReadsBack(text, event.id, event.userId, event.roleId, event.roleCode, event.warehouseId, idOf);
  }

  lemma PermissionEventReadsBack(event: A.AuthEvent, text: nat -> string, permissionId: string,
                                 list: set<string> -> seq<string>)
    requires event.PermissionCreated?
    ensures ReadPermissionEvent(event.tenantId, AuthContent(event, text, permissionId, list)) == Some(event)
  {
    hide Lookup;
    FieldsRead(AuthContent(event, text, permissionId, list).data);
  }

  /** Every account event reads back as what it was. */
  lemma AuthEventReadsBack(event: A.AuthEvent, text: nat -> string, permissionId: string,
                           list: set<string> -> seq<string>, idOf: Ids)
    requires Denotes(idOf, text) && Lists(list)
    ensures ReadAuthEvent(event.tenantId, AuthContent(event, text, permissionId, list), idOf) == Some(event)
  {
    hide ReadUserEvent, ReadRoleEvent, ReadAssignmentEvent, ReadPermissionEvent, Lists, Denotes, Strings,
         AssignmentData;
    match event {
      case UserCreated(_, _, _, _) => UserEventReadsBack(event, text, permissionId, list, idOf);
      case UserUpdated(_, _, _) => UserEventReadsBack(event, text, permissionId, list, idOf);
      case UserStatusChanged(_, _, _) => UserEventReadsBack(event, text, permissionId, list, idOf);
      case RoleCreated(_, _, _) => RoleEventReadsBack(event, text, permissionId, list, idOf);
      case RoleUpdated(_, _, _) => RoleEventReadsBack(event, text, permissionId, list, idOf);
      case PermissionsReplaced(_, _, _) => RoleEventReadsBack(event, text, permissionId, list, idOf);
      case RoleAssigned(_, _, _, _, _, _) => AssignmentEventReadsBack(event, text, permissionId, list, idOf);
      case RoleRemoved(_, _, _, _, _, _) => AssignmentEventReadsBack(event, text, permissionId, list, idOf);
      case PermissionCreated(_, _) => PermissionEventReadsBack(event, text, permissionId, list);
    }
  }

  // ---- Envelopes ----

  /** What an envelope says of its event. */
  function ContentOf(payload: Json): Option<Content> {
    match (Get(payload, "eventType"), Get(payload, "aggregateType"), Get(payload, "aggregateId"), Get(payload, "data"))
    case (Some(Str(eventType)), Some(Str(aggregateType)), Some(Str(aggregateId)), Some(Obj(data))) =>
      Some(Content(eventType, aggregateType, aggregateId, data))
    case _ => None
  }

  function TenantOf(payload: Json, idOf: Ids): Option<nat> {
    match Get(payload, "tenantId")
    case Some(Str(s)) => idOf(s)
    case _ => None
  }

  /** How one event was written. */
  datatype Entry = Entry(eventId: string, occurredAt: string, context: Context, text: nat -> string,
                         permissionId: string, list: set<string> -> seq<string>)

  function TenantEnvelope(event: T.TenantEvent, entry: Entry): Json {
    RecordPayload("tenant-service", entry.eventId, entry.occurredAt,
                  CommandOf(entry.context, TenantContent(event, entry.text)))
  }

  function AuthEnvelope(event: A.AuthEvent, entry: Entry): Json {
    RecordPayload("auth-iam-service", entry.eventId, entry.occurredAt,
                  CommandOf(entry.context, AuthContent(event, entry.text, entry.permissionId, entry.list)))
  }

  function ReadTenantEnvelope(payload: Json, idOf: Ids): Option<T.TenantEvent> {
    match ContentOf(payload)
    case Some(content) => ReadTenantEvent(content, idOf)
    case None => None
  }

  function ReadAuthEnvelope(payload: Json, idOf: Ids): Option<A.AuthEvent> {
    match (TenantOf(payload, idOf), ContentOf(payload))
    case (Some(tenantId), Some(content)) => ReadAuthEvent(tenantId, content, idOf)
    case _ => None
  }

  lemma TenantEnvelopeReadsBack(event: T.TenantEvent, entry: Entry, idOf: Ids)
    requires Denotes(idOf, entry.text)
    ensures ReadTenantEnvelope(TenantEnvelope(event, entry), idOf) == Some(event)
  {
    hide ReadTenantEvent, TenantContent, RecordPayload;
    TenantEventReadsBack(event, entry.text, idOf);
    PayloadFields("tenant-service", entry.eventId, entry.occurredAt,
                  CommandOf(entry.context, TenantContent(event, entry.text)));
  }

  lemma AuthEnvelopeReadsBack(event: A.AuthEvent, entry: Entry, idOf: Ids)
    requires Denotes(idOf, entry.text) && Lists(entry.list) && idOf(entry.context.tenantId) == Some(event.tenantId)
    ensures ReadAuthEnvelope(AuthEnvelope(event, entry), idOf) == Some(event)
  {
    hide ReadAuthEvent, AuthContent, RecordPayload, Lists;
    AuthEventReadsBack(event, entry.text, entry.permissionId, entry.list, idOf);
    PayloadFields("auth-iam-service", entry.eventId, entry.occurredAt,
                  CommandOf(entry.context, AuthContent(event, entry.text, entry.permissionId, entry.list)));
  }

  // ---- Replay of the stored envelopes ----

  function TenantEnvelopes(log: seq<T.TenantEvent>, entries: nat -> Entry): seq<Json> {
    seq(|log|, i requires 0 <= i < |log| => TenantEnvelope(log[i], entries(i)))
  }

  function AuthEnvelopes(log: seq<A.AuthEvent>, entries: nat -> Entry): seq<Json> {
    seq(|log|, i requires 0 <= i < |log| => AuthEnvelope(log[i], entries(i)))
  }

  /** The view after the stored envelopes, if all of them can be read. */
  function ReplayTenantEnvelopes(seed: T.TenantDb, payloads: seq<Json>, idOf: Ids): Option<TR.View> {
    if payloads == [] then Some(TR.ViewOf(seed))
    else
      var last := |payloads| - 1;
      match (ReplayTenantEnvelopes(seed, payloads[..last], idOf), ReadTenantEnvelope(payloads[last], idOf))
      case (Some(view), Some(event)) => Some(TR.Fold(view, event))
      case _ => None
  }

  function ReplayAuthEnvelopes(view: AR.View, payloads: seq<Json>, idOf: Ids): Option<AR.View> {
    if payloads == [] then Some(view)
    else
      var last := |payloads| - 1;
      match (ReplayAuthEnvelopes(view, payloads[..last], idOf), ReadAuthEnvelope(payloads[last], idOf))
      case (Some(before), Some(event)) => Some(AR.Fold(before, event))
      case _ => None
  }

  lemma {:induction false} TenantEnvelopesReplay(seed: T.TenantDb, log: seq<T.TenantEvent>,
                                                 entries: nat -> Entry, idOf: Ids)
    requires forall i :: Denotes(idOf, entries(i).text)
    ensures ReplayTenantEnvelopes(seed, TenantEnvelopes(log, entries), idOf) == Some(TR.Replay(seed, log))
    decreases |log|
  {
    hide TenantEnvelope, ReadTenantEnvelope, TR.Fold, TR.ViewOf, Denotes;
    if log != [] {
      var last := |log| - 1;
      TenantEnvelopesReplay(seed, log[..last], entries, idOf);
      assert TenantEnvelopes(log, entries)[..last] == TenantEnvelopes(log[..last], entries);
      TenantEnvelopeReadsBack(log[last], entries(last), idOf);
    }
  }

  /** The envelopes a run of the tenant service has stored, read and folded over the seeded
      tables, give every tenant's status and enabled modules. */
  lemma StoredTenantEventsReplay(p: T.TenantCodes.Platform, seed: T.TenantDb, calls: seq<TR.Call>,
                                 entries: nat -> Entry, idOf: Ids)
    requires forall i :: Denotes(idOf, entries(i).text)
    ensures var db := TR.Run(p, seed, calls);
      ReplayTenantEnvelopes(seed, TenantEnvelopes(db.log, entries), idOf) == Some(TR.ViewOf(db))
  {
    hide TR.Run, TR.Replay, TR.Consistent, TR.ViewOf, Denotes;
    TR.LogReplaysToTables(p, seed, calls);
    TenantEnvelopesReplay(seed, TR.Run(p, seed, calls).log, entries, idOf);
  }

  /** The event was written for its own tenant, in texts that denote its ids. */
  ghost predicate Wrote(event: A.AuthEvent, entry: Entry, idOf: Ids) {
    Denotes(idOf, entry.text) && Lists(entry.list) && idOf(entry.context.tenantId) == Some(event.tenantId)
  }

  lemma {:induction false} AuthEnvelopesReplay(c: AuthRuns.Config, log: seq<A.AuthEvent>,
                                               entries: nat -> Entry, idOf: Ids)
    requires forall i: nat :: i < |log| ==> Wrote(log[i], entries(i), idOf)
    ensures ReplayAuthEnvelopes(AR.ViewOf(AuthRuns.Seeded(c)), AuthEnvelopes(log, entries), idOf)
         == Some(AR.Replay(c, log))
    decreases |log|
  {
    hide AuthEnvelope, ReadAuthEnvelope, AR.Fold, AR.ViewOf, AuthRuns.Seeded;
    if log != [] {
      var last := |log| - 1;
      assert Wrote(log[last], entries(last), idOf);
      hide Wrote;
      AuthEnvelopesReplay(c, log[..last], entries, idOf);
      assert AuthEnvelopes(log, entries)[..last] == AuthEnvelopes(log[..last], entries);
      AuthEnvelopeReadsBack(log[last], entries(last), idOf);
    }
  }

  /** The envelopes a run of the account service has stored, read and folded over the seeded
      tables, give the users, their statuses, the roles, grants and assignments. */
  lemma StoredAuthEventsReplay(c: AuthRuns.Config, run: AuthRuns.Run, i: nat, entries: nat -> Entry, idOf: Ids)
    requires AuthRuns.ValidSeed(c) && AuthRuns.IsRun(c, run) && i < |run.states|
    requires forall j: nat :: j < |run.states[i].log| ==> Wrote(run.states[i].log[j], entries(j), idOf)
    ensures ReplayAuthEnvelopes(AR.ViewOf(AuthRuns.Seeded(c)), AuthEnvelopes(run.states[i].log, entries), idOf)
         == Some(AR.ViewOf(run.states[i]))
  {
    hide AuthRuns.ValidSeed, AuthRuns.IsRun, AR.Replay, AR.Consistent, AR.ViewOf, Wrote, AuthRuns.Seeded;
    AR.LogReplaysToTables(c, run, i);
    AuthEnvelopesReplay(c, run.states[i].log, entries, idOf);
  }

  // ---- Audit rows ----

  /** The part of an audit row that tells its event. */
  function AuditContent(row: AuditData): Option<Content> {
    match row.details
    case Obj(data) => Some(Content(row.action, row.resourceType, row.resourceId, data))
    case _ => None
  }

  /** An acceptable envelope is stored as a row with the same content. */
  lemma AuditRowKeepsContent(service: string, entry: Entry, content: Content, dateParses: string -> bool)
    requires IsUuid(entry.eventId) && IsUuid(entry.context.tenantId) && IsUuid(content.aggregateId)
    requires !Blank(entry.occurredAt) && dateParses(entry.occurredAt)
    requires Tight(content.eventType) && Tight(content.aggregateType)
    ensures var command := CommandOf(entry.context, content);
      var audit := BuildAuditData(
        ReadSqsRecordBody(Parsed(RecordPayload(service, entry.eventId, entry.occurredAt, command))), dateParses);
      && (audit.Ok? <==> Auditable(service, command))
      && (audit.Ok? ==> AuditContent(audit.value) == Some(content))
  {
    hide BuildAuditData, IsUuid, ReadSqsRecordBody, RecordPayload, Auditable, Blank, RecordedActorOf;
    RecordAcceptedIff(service, entry.eventId, entry.occurredAt, CommandOf(entry.context, content), dateParses);
    UuidIsTight(content.aggregateId);
    TrimFixesTight(content.eventType);
    TrimFixesTight(content.aggregateType);
  }

  lemma TenantNamesAreTight(event: T.TenantEvent, text: nat -> string)
    ensures var content := TenantContent(event, text);
      Tight(content.eventType) && Tight(content.aggregateType) && content.aggregateId == text(event.id)
  {
  }

  lemma AuthNamesAreTight(event: A.AuthEvent, text: nat -> string, permissionId: string,
                          list: set<string> -> seq<string>)
    ensures var content := AuthContent(event, text, permissionId, list);
      Tight(content.eventType) && Tight(content.aggregateType)
  {
    hide Strings, AssignmentData;
  }

  /** The audit row stored for a tenant event, if its request was auditable, tells the event. */
  lemma AuditRowTellsTenantEvent(event: T.TenantEvent, entry: Entry, idOf: Ids, dateParses: string -> bool)
    requires Denotes(idOf, entry.text) && IsUuid(entry.text(event.id))
    requires IsUuid(entry.eventId) && IsUuid(entry.context.tenantId)
    requires !Blank(entry.occurredAt) && dateParses(entry.occurredAt)
    ensures var audit := BuildAuditData(ReadSqsRecordBody(Parsed(TenantEnvelope(event, entry))), dateParses);
      && (audit.Ok? <==> !Blank(RequestId(entry.context)) && RecordedActorOf(entry.context).Ok?)
      && (audit.Ok? ==> AuditContent(audit.value).Some?
                        && ReadTenantEvent(AuditContent(audit.value).value, idOf) == Some(event))
  {
    hide Denotes, ReadTenantEvent, BuildAuditData, RecordedActorOf, IsUuid, ReadSqsRecordBody, RecordPayload, Auditable,
         Blank, Tight, TenantContent, AuditContent, CommandOf, RequestId;
    TenantNamesAreTight(event, entry.text);
    AuditRowKeepsContent("tenant-service", entry, TenantContent(event, entry.text), dateParses);
    TenantEventIsAuditableIff(event, entry.text, entry.context);
    TenantEventReadsBack(event, entry.text, idOf);
  }

  /** And so does the audit row of an account event. */
  lemma AuditRowTellsAuthEvent(event: A.AuthEvent, entry: Entry, idOf: Ids, dateParses: string -> bool)
    requires Denotes(idOf, entry.text) && Lists(entry.list)
    requires IsUuid(AuthContent(event, entry.text, entry.permissionId, entry.list).aggregateId)
    requires IsUuid(entry.eventId) && IsUuid(entry.context.tenantId)
    requires !Blank(entry.occurredAt) && dateParses(entry.occurredAt)
    ensures var audit := BuildAuditData(ReadSqsRecordBody(Parsed(AuthEnvelope(event, entry))), dateParses);
      && (audit.Ok? <==> !Blank(RequestId(entry.context)) && RecordedActorOf(entry.context).Ok?)
      && (audit.Ok? ==> AuditContent(audit.value).Some?
                        && ReadAuthEvent(event.tenantId, AuditContent(audit.value).value, idOf) == Some(event))
  {
    hide Denotes, Lists, ReadAuthEvent, BuildAuditData, RecordedActorOf, IsUuid, ReadSqsRecordBody, RecordPayload,
         Auditable, Blank, Tight, AuthContent, AuditContent, CommandOf, RequestId;
    AuthNamesAreTight(event, entry.text, entry.permissionId, entry.list);
    AuditRowKeepsContent("auth-iam-service", entry,
                         AuthContent(event, entry.text, entry.permissionId, entry.list), dateParses);
    AuthEventIsAuditableIff(event, entry.text, entry.permissionId, entry.list, entry.context);
    AuthEventReadsBack(event, entry.text, entry.permissionId, entry.list, idOf);
  }
}
