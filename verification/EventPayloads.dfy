// The events the tenant and auth services record, as commands for `record`: whatever they
// tell, the audit consumer can accept it.
module EventPayloads {
  import opened Common
  import opened Text
  import opened Json
  import opened SensitiveKeys
  import opened Envelope
  import opened RecordRoundTrip
  import T = Tenants
  import A = AuthModel

  /** What an event adds to its context. */
  datatype Content = Content(eventType: string, aggregateType: string, aggregateId: string, data: seq<Field>)

  function Optional(value: Option<string>): Json {
    if value.Some? then Str(value.value) else Null
  }

  function Strings(values: seq<string>): Json {
    Arr(seq(|values|, i requires 0 <= i < |values| => Str(values[i])))
  }

  function TenantStatusText(status: T.TenantStatus): string {
    match status
    case Provisioning => "provisioning"
    case Active => "active"
    case Suspended => "suspended"
    case Removed => "deleted"
  }

  /** tenants.service.ts; `text` is the text of an id. */
  function TenantContent(event: T.TenantEvent, text: nat -> string): Content {
    match event
    case Created(id, code, name, domain, status) =>
      Content("tenant.created", "tenant", text(id), [
        Field("tenantId", Str(text(id))), Field("code", Str(code)), Field("name", Str(name)),
        Field("domain", Optional(domain)), Field("status", Str(TenantStatusText(status)))])
    case StatusChanged(id, previous, status, reason) =>
      Content("tenant.status.changed", "tenant", text(id), [
        Field("tenantId", Str(text(id))), Field("previousStatus", Str(TenantStatusText(previous))),
        Field("status", Str(TenantStatusText(status))), Field("reason", Optional(reason))])
    case ModuleEnabled(id, code) =>
      Content("tenant.module.enabled", "tenant", text(id), [
        Field("tenantId", Str(text(id))), Field("moduleCode", Str(code))])
    case ModuleDisabled(id, code) =>
      Content("tenant.module.disabled", "tenant", text(id), [
        Field("tenantId", Str(text(id))), Field("moduleCode", Str(code))])
  }

  function UserStatusText(status: A.UserStatus): string {
    match status
    case Active => "active"
    case Inactive => "inactive"
    case Locked => "locked"
  }

  function UserTypeText(userType: A.UserType): string {
    if userType == A.SystemAdmin then "system_admin" else "general_user"
  }

  function WarehouseText(warehouse: Option<A.WarehouseId>, text: nat -> string): Json {
    if warehouse.Some? then Str(text(warehouse.value)) else Null
  }

  /** rbac.service.ts, users.service.ts and permissions.service.ts; `list` is the order in
      which a request listed its codes or fields. */
  function AuthContent(event: A.AuthEvent, text: nat -> string, permissionId: string, list: set<string> -> seq<string>)
    : Content
  {
    match event
    case UserCreated(_, id, userType, status) =>
      Content("auth.user.created", "auth_user", text(id), [
        Field("userId", Str(text(id))), Field("userType", Str(UserTypeText(userType))),
        Field("status", Str(UserStatusText(status)))])
    case UserUpdated(_, id, fields) =>
      Content("auth.user.updated", "auth_user", text(id), [
        Field("userId", Str(text(id))), Field("changedFields", Strings(list(fields)))])
    case UserStatusChanged(_, id, status) =>
      Content("auth.user.statusChanged", "auth_user", text(id), [
        Field("userId", Str(text(id))), Field("status", Str(UserStatusText(status)))])
    case RoleCreated(_, id, code) =>
      Content("auth.role.created", "role", text(id), [Field("roleId", Str(text(id))), Field("code", Str(code))])
    case RoleUpdated(_, id, fields) =>
      Content("auth.role.updated", "role", text(id), [
        Field("roleId", Str(text(id))), Field("changedFields", Strings(list(fields)))])
    case PermissionsReplaced(_, id, codes) =>
      Content("auth.role.permissionsReplaced", "role", text(id), [
        Field("roleId", Str(text(id))), Field("permissionCodes", Strings(list(codes)))])
    case RoleAssigned(_, id, userId, roleId, code, warehouse) =>
      Content("auth.userRole.assigned", "user_role", text(id),
              AssignmentData(text, id, userId, roleId, code, warehouse))
    case RoleRemoved(_, id, userId, roleId, code, warehouse) =>
      Content("auth.userRole.removed", "user_role", text(id),
              AssignmentData(text, id, userId, roleId, code, warehouse))
    case PermissionCreated(_, code) =>
      Content("auth.permission.created", "permission", permissionId, [
        Field("permissionId", Str(permissionId)), Field("code", Str(code))])
  }

  function AssignmentData(text: nat -> string, id: A.AssignmentId, userId: A.UserId, roleId: A.RoleId, code: string,
                          warehouse: Option<A.WarehouseId>): seq<Field>
  {
    [ Field("userRoleId", Str(text(id))), Field("targetUserId", Str(text(userId))), Field("roleId", Str(text(roleId))),
      Field("roleCode", Str(code)), Field("warehouseId", WarehouseText(warehouse, text)) ]
  }

  function CommandOf(context: Context, content: Content): Command {
    Command(context, content.eventType, content.aggregateType, content.aggregateId, content.data, None)
  }

  // ---- Keys ----

  predicate IsLetter(c: char) {
    'a' <= c <= 'z' || 'A' <= c <= 'Z'
  }

  lemma {:induction false} NormalizeLetters(key: string)
    requires forall i :: 0 <= i < |key| ==> IsLetter(key[i])
    ensures |Normalize(key)| == |key| && forall i :: 0 <= i < |key| ==> Normalize(key)[i] == LowerAscii(key[i])
  {
    if key != "" {
      NormalizeLetters(key[1..]);
    }
  }

  /** No listed key has this length and these first two letters. */
  predicate Unlisted(key: string)
    requires |key| >= 2
  {
    forall s :: s in SENSITIVE_DETAIL_KEYS ==> |s| != |key| || s[..2] != [LowerAscii(key[0]), LowerAscii(key[1])]
  }

  lemma UnlistedIsSafe(key: string)
    requires |key| >= 2 && Unlisted(key) && forall i :: 0 <= i < |key| ==> IsLetter(key[i])
    ensures !Sensitive(key)
  {
    NormalizeLetters(key);
    var n := Normalize(key);
    assert n[..2] == [LowerAscii(key[0]), LowerAscii(key[1])];
  }

  const EVENT_KEYS: set<string> := {
    "tenantId", "code", "name", "domain", "status", "previousStatus", "reason", "moduleCode", "userId",
    "userType", "changedFields", "roleId", "permissionCodes", "userRoleId", "targetUserId", "roleCode",
    "warehouseId", "permissionId"
  }

  lemma EventKeysAreLetters(key: string)
    requires key in EVENT_KEYS
    ensures |key| >= 2 && forall i :: 0 <= i < |key| ==> IsLetter(key[i])
  {
  }

  lemma EventKeysAreUnlisted(key: string)
    requires key in EVENT_KEYS && |key| >= 2
    ensures Unlisted(key)
  {
  }

  lemma EventKeysAreSafe(key: string)
    requires key in EVENT_KEYS
    ensures !Sensitive(key)
  {
    hide Unlisted, IsLetter;
    EventKeysAreLetters(key);
    EventKeysAreUnlisted(key);
    UnlistedIsSafe(key);
  }

  lemma {:induction false} TextsHaveNoKeys(items: seq<Json>)
    requires forall i :: 0 <= i < |items| ==> items[i].Str?
    ensures ItemKeys(items) == {}
  {
    if items != [] {
      TextsHaveNoKeys(items[1..]);
    }
  }

  lemma StringsHaveNoKeys(values: seq<string>)
    ensures KeysOf(Strings(values)) == {}
  {
    TextsHaveNoKeys(Strings(values).items);
  }

  ghost predicate Plain(f: Field) {
    f.key in EVENT_KEYS && KeysOf(f.value) == {}
  }

  lemma {:induction false} PlainFieldsAreClean(fields: seq<Field>)
    requires forall i :: 0 <= i < |fields| ==> Plain(fields[i])
    ensures forall key :: key in FieldKeys(fields) ==> !Sensitive(key)
  {
    if fields != [] {
      assert Plain(fields[0]);
      EventKeysAreSafe(fields[0].key);
      PlainFieldsAreClean(fields[1..]);
    }
  }

  // ---- Events ----

  lemma Visible(s: string)
    requires s != "" && !IsSpace(s[0]) && !IsSpace(s[|s| - 1])
    ensures !Blank(s)
  {
    TrimFixesTight(s);
  }

  /** A command whose own texts are visible and fields plain is as auditable as its context. */
  lemma PlainContentIsAuditable(service: string, context: Context, content: Content)
    requires !Blank(service) && !Blank(content.eventType) && !Blank(content.aggregateType)
    requires !Blank(content.aggregateId) && forall i :: 0 <= i < |content.data| ==> Plain(content.data[i])
    ensures Auditable(service, CommandOf(context, content)) <==>
      !Blank(RequestId(context)) && RecordedActorOf(context).Ok?
  {
    hide Blank, RecordedActorOf, Plain;
    PlainFieldsAreClean(content.data);
  }

  lemma TenantContentIsPlain(event: T.TenantEvent, text: nat -> string)
    ensures var content := TenantContent(event, text);
      && !Blank(content.eventType) && !Blank(content.aggregateType)
      && forall i :: 0 <= i < |content.data| ==> Plain(content.data[i])
  {
    hide Blank;
    var content := TenantContent(event, text);
    Visible(content.eventType);
    Visible(content.aggregateType);
  }

  lemma AuthContentIsPlain(event: A.AuthEvent, text: nat -> string, permissionId: string,
                           list: set<string> -> seq<string>)
    ensures var content := AuthContent(event, text, permissionId, list);
      && !Blank(content.eventType) && !Blank(content.aggregateType)
      && forall i :: 0 <= i < |content.data| ==> Plain(content.data[i])
  {
    hide Blank, Strings;
    var content := AuthContent(event, text, permissionId, list);
    Visible(content.eventType);
    Visible(content.aggregateType);
    match event {
      case UserUpdated(_, _, fields) => StringsHaveNoKeys(list(fields));
      case RoleUpdated(_, _, fields) => StringsHaveNoKeys(list(fields));
      case PermissionsReplaced(_, _, codes) => StringsHaveNoKeys(list(codes));
      case _ =>
    }
  }

  /** Every tenant event is auditable exactly if the request it was recorded for has a
      readable request id and user. */
  lemma TenantEventIsAuditableIff(event: T.TenantEvent, text: nat -> string, context: Context)
    requires IsUuid(text(event.id))
    ensures Auditable("tenant-service", CommandOf(context, TenantContent(event, text))) <==>
      !Blank(RequestId(context)) && RecordedActorOf(context).Ok?
  {
    hide Blank, RecordedActorOf, Plain, Auditable, IsUuid;
    UuidIsTight(text(event.id));
    TenantContentIsPlain(event, text);
    Visible("tenant-service");
    assert TenantContent(event, text).aggregateId == text(event.id);
    PlainContentIsAuditable("tenant-service", context, TenantContent(event, text));
  }

  /** And so is every auth event. */
  lemma AuthEventIsAuditableIff(event: A.AuthEvent, text: nat -> string, permissionId: string,
                                list: set<string> -> seq<string>, context: Context)
    requires IsUuid(AuthContent(event, text, permissionId, list).aggregateId)
    ensures Auditable("auth-iam-service", CommandOf(context, AuthContent(event, text, permissionId, list))) <==>
      !Blank(RequestId(context)) && RecordedActorOf(context).Ok?
  {
    hide Blank, RecordedActorOf, Plain, Auditable, IsUuid, AuthContent;
    UuidIsTight(AuthContent(event, text, permissionId, list).aggregateId);
    AuthContentIsPlain(event, text, permissionId, list);
    Visible("auth-iam-service");
    PlainContentIsAuditable("auth-iam-service", context, AuthContent(event, text, permissionId, list));
  }
}
