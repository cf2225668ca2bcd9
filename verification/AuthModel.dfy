// apps/auth-iam-service: users, roles, role permissions, role assignments, refresh tokens,
// and what each service call does to them. A call is one atomic step.
module AuthModel {
  import opened Common
  import opened Text

  // ---- Tables (prisma/schema.prisma) ----

  /** Identifiers already parsed as UUIDs. */
  type TenantId = nat
  type UserId = nat
  type RoleId = nat
  type AssignmentId = nat
  type WarehouseId = nat
  type Time = int

  /** An id as a caller wrote it: which one it denotes, and whether it is in lower case, the
      text in which a `uuid` column gives it back. The database compares the ids themselves,
      the services' own code compares the texts. */
  datatype IdText = IdText(id: nat, lower: bool)

  /** `===` between an id read from the database and a caller's. */
  predicate SameText(own: Option<nat>, given: IdText) {
    own == Some(given.id) && given.lower
  }

  /** The id in the database whose text is the caller's. */
  function Written(given: IdText): Option<nat> {
    if given.lower then Some(given.id) else None
  }

  datatype UserType = SystemAdmin | GeneralUser
  datatype UserStatus = Active | Inactive | Locked

  /** `password` is the one whose hash is stored. */
  datatype User = User(
    tenantId: Option<TenantId>, email: string, displayName: string, password: string,
    userType: UserType, status: UserStatus)

  datatype Role = Role(tenantId: TenantId, code: string, name: string, description: Option<string>)

  datatype Assignment = Assignment(userId: UserId, roleId: RoleId, warehouseId: Option<WarehouseId>)

  /** `secret` stands for the stored hash, which is collision-free. A token's id is its
      position in the table, to which rows are only ever added. */
  datatype Token = Token(
    tenantId: Option<TenantId>, userId: UserId, secret: string, expiresAt: Time,
    revokedAt: Option<Time>, replacedBy: Option<nat>)

  datatype AuthEvent =
    | UserCreated(tenantId: TenantId, userId: UserId, userType: UserType, status: UserStatus)
    | UserUpdated(tenantId: TenantId, userId: UserId, changedFields: set<string>)
    | UserStatusChanged(tenantId: TenantId, userId: UserId, status: UserStatus)
    | RoleCreated(tenantId: TenantId, roleId: RoleId, code: string)
    | RoleUpdated(tenantId: TenantId, roleId: RoleId, changedFields: set<string>)
    | PermissionsReplaced(tenantId: TenantId, roleId: RoleId, codes: set<string>)
    | RoleAssigned(tenantId: TenantId, id: AssignmentId, userId: UserId, roleId: RoleId, roleCode: string,
                   warehouseId: Option<WarehouseId>)
    | RoleRemoved(tenantId: TenantId, id: AssignmentId, userId: UserId, roleId: RoleId, roleCode: string,
                  warehouseId: Option<WarehouseId>)
    | PermissionCreated(tenantId: TenantId, code: string)

  /** `permissions` is the catalogue; `grants` are the rows of `role_permissions`. */
  datatype Db = Db(
    users: map<UserId, User>, roles: map<RoleId, Role>, permissions: set<string>, grants: set<(RoleId, string)>,
    assignments: map<AssignmentId, Assignment>, tokens: seq<Token>, log: seq<AuthEvent>)

  /** The unique index on (tenant_id, email), in which NULLs are distinct. */
  ghost predicate UniqueEmails(users: map<UserId, User>) {
    forall a, b :: a in users && b in users && a != b && users[a].tenantId.Some? ==>
      users[a].tenantId == users[b].tenantId ==> users[a].email != users[b].email
  }

  datatype AuthError =
    | TenantRequired | ValidationFailed | AdminScopeMismatch | RoleCodeConflict | RoleNotFound | UserNotFound
    | AccountLocked | UserRoleConflict | UserRoleNotFound | PermissionCodeConflict | EmailConflict
    | InvalidCredentials | LoginAmbiguous | InvalidToken | TenantMismatch | Forbidden

  // ---- Permission codes (rbac-utils.ts) ----

  predicate IsAlphanumeric(c: char) {
    'a' <= c <= 'z' || 'A' <= c <= 'Z' || '0' <= c <= '9'
  }

  /** The rest of a code, at the start of a segment or inside one, with `dots` already read. */
  predicate CodeFrom(s: string, atStart: bool, dots: nat) {
    if s == [] then !atStart && dots >= 2
    else if atStart then 'a' <= s[0] <= 'z' && CodeFrom(s[1..], false, dots)
    else if s[0] == '.' then CodeFrom(s[1..], true, dots + 1)
    else IsAlphanumeric(s[0]) && CodeFrom(s[1..], false, dots)
  }

  /** {domain}.{resource}.{action}: three or more segments [a-z][a-zA-Z0-9]*. */
  predicate IsPermissionCode(s: string) {
    CodeFrom(s, true, 0)
  }

  predicate IsSystemCode(code: string) {
    "system." <= code
  }

  function ReadPermissionCode(value: string): Result<string, AuthError> {
    if IsPermissionCode(Trim(value)) then Ok(Trim(value)) else Err(ValidationFailed)
  }

  function ReadPermissionCodes(values: seq<string>): Result<set<string>, AuthError> {
    if values == [] then Ok({})
    else
      var last := |values| - 1;
      match (ReadPermissionCodes(values[..last]), ReadPermissionCode(values[last]))
      case (Ok(codes), Ok(code)) => Ok(codes + {code})
      case _ => Err(ValidationFailed)
  }

  // ---- Administrators ----

  predicate FindSystemAdmin(db: Db, userId: Option<UserId>) {
    && userId.Some? && userId.value in db.users
    && var user := db.users[userId.value];
      user.userType == SystemAdmin && user.tenantId.None? && user.status == Active
  }

  datatype ActorLevel = SuperAdmin | PlainSystemAdmin | TenantAdmin | TenantUser

  predicate HoldsTenantAdmin(db: Db, tenantId: TenantId, userId: UserId) {
    exists id | id in db.assignments ::
      var a := db.assignments[id];
      && a.userId == userId && a.roleId in db.roles && userId in db.users
      && db.roles[a.roleId].tenantId == tenantId && db.roles[a.roleId].code == "tenant_admin"
      && db.users[userId].tenantId == Some(tenantId) && db.users[userId].status == Active
      && db.users[userId].userType == GeneralUser
  }

  function FindActorLevel(db: Db, bootstrap: UserId, actor: Option<UserId>, tenantId: TenantId): ActorLevel {
    if actor.None? then TenantUser
    else if actor.value == bootstrap && FindSystemAdmin(db, actor) then SuperAdmin
    else if FindSystemAdmin(db, actor) then PlainSystemAdmin
    else if HoldsTenantAdmin(db, tenantId, actor.value) then TenantAdmin
    else TenantUser
  }

  // ---- rbac.service.ts: roles and their permissions ----

  predicate RoleIn(db: Db, tenantId: TenantId, id: RoleId) {
    id in db.roles && db.roles[id].tenantId == tenantId
  }

  predicate UserIn(db: Db, tenantId: TenantId, id: UserId) {
    id in db.users && db.users[id].tenantId == Some(tenantId)
  }

  /** Another role than `except` has this code in the tenant. */
  predicate CodeTaken(db: Db, tenantId: TenantId, code: string, except: Option<RoleId>) {
    exists id | id in db.roles :: RoleIn(db, tenantId, id) && db.roles[id].code == code && Some(id) != except
  }

  function CreateRole(db: Db, tenant: Option<TenantId>, id: RoleId, code: string, name: string,
                      description: Option<string>): Result<Db, AuthError>
  {
    if tenant.None? then Err(TenantRequired)
    else if code == "system_admin" then Err(AdminScopeMismatch)
    else if CodeTaken(db, tenant.value, code, None) then Err(RoleCodeConflict)
    else
      Ok(db.(roles := db.roles[id := Role(tenant.value, code, name, description)],
             log := db.log + [RoleCreated(tenant.value, id, code)]))
  }

  /** Which fields of a role a request changes. */
  datatype RoleChange = RoleChange(code: Option<string>, name: Option<string>, description: Option<Option<string>>)

  function Or<T>(x: Option<T>, y: T): T {
    if x.Some? then x.value else y
  }

  function Named<T>(x: Option<T>, name: string): set<string> {
    if x.Some? then {name} else {}
  }

  function ApplyChange(role: Role, change: RoleChange): Role {
    Role(role.tenantId, Or(change.code, role.code), Or(change.name, role.name),
         Or(change.description, role.description))
  }

  function UpdateRole(db: Db, tenant: Option<TenantId>, given: IdText, change: RoleChange): Result<Db, AuthError> {
    var id := given.id;
    if tenant.None? then Err(TenantRequired)
    else if change == RoleChange(None, None, None) then Err(ValidationFailed)
    else if !RoleIn(db, tenant.value, id) then Err(RoleNotFound)
    else if change.code == Some("system_admin") then Err(AdminScopeMismatch)
    else if change.code.Some? && CodeTaken(db, tenant.value, change.code.value, Written(given)) then
      Err(RoleCodeConflict)
    else
      var fields := Named(change.code, "code") + Named(change.name, "name") + Named(change.description, "description");
      Ok(db.(roles := db.roles[id := ApplyChange(db.roles[id], change)],
             log := db.log + [RoleUpdated(tenant.value, id, fields)]))
  }

  /** deleteMany and createMany on one role's rows. */
  function SetGrants(grants: set<(RoleId, string)>, id: RoleId, codes: set<string>): set<(RoleId, string)> {
    (set g | g in grants && g.0 != id) + (set code | code in codes :: (id, code))
  }

  function ReplaceRolePermissions(db: Db, tenant: Option<TenantId>, id: RoleId, values: seq<string>)
    : Result<Db, AuthError>
  {
    if tenant.None? then Err(TenantRequired)
    else match ReadPermissionCodes(values)
      case Err(e) => Err(e)
      case Ok(codes) =>
        if exists code | code in codes :: IsSystemCode(code) then Err(AdminScopeMismatch)
        else if !RoleIn(db, tenant.value, id) then Err(RoleNotFound)
        else if !(codes <= db.permissions) then Err(ValidationFailed)
        else
          Ok(db.(grants := SetGrants(db.grants, id, codes),
                 log := db.log + [PermissionsReplaced(tenant.value, id, codes)]))
  }

  /** permissions.service.ts: the catalogue is shared by all tenants. */
  function CreatePermission(db: Db, tenant: Option<TenantId>, value: string): Result<Db, AuthError> {
    if tenant.None? then Err(TenantRequired)
    else match ReadPermissionCode(value)
      case Err(e) => Err(e)
      case Ok(code) =>
        if code in db.permissions then Err(PermissionCodeConflict)
        else Ok(db.(permissions := db.permissions + {code}, log := db.log + [PermissionCreated(tenant.value, code)]))
  }

  // ---- rbac.service.ts: assignments ----

  function AssignUserRole(db: Db, bootstrap: UserId, tenant: Option<TenantId>, actor: Option<UserId>,
                          id: AssignmentId, a: Assignment): Result<Db, AuthError>
  {
    if tenant.None? then Err(TenantRequired)
    else if !UserIn(db, tenant.value, a.userId) then Err(UserNotFound)
    else if !RoleIn(db, tenant.value, a.roleId) then Err(RoleNotFound)
    else
      var code := db.roles[a.roleId].code;
      if code == "tenant_admin" && a.warehouseId.Some? then Err(AdminScopeMismatch)
      else if code == "tenant_admin"
        && FindActorLevel(db, bootstrap, actor, tenant.value) in {TenantAdmin, TenantUser} then Err(AdminScopeMismatch)
      else if exists other | other in db.assignments :: db.assignments[other] == a then Err(UserRoleConflict)
      else
        Ok(db.(assignments := db.assignments[id := a],
               log := db.log + [RoleAssigned(tenant.value, id, a.userId, a.roleId, code, a.warehouseId)]))
  }

  function RemoveUserRole(db: Db, tenant: Option<TenantId>, id: AssignmentId): Result<Db, AuthError> {
    if tenant.None? then Err(TenantRequired)
    else if id !in db.assignments || !RoleIn(db, tenant.value, db.assignments[id].roleId) then Err(UserRoleNotFound)
    else
      var a := db.assignments[id];
      var code := db.roles[a.roleId].code;
      Ok(db.(assignments := db.assignments - {id},
             log := db.log + [RoleRemoved(tenant.value, id, a.userId, a.roleId, code, a.warehouseId)]))
  }

  // ---- users.service.ts ----

  predicate EmailTaken(db: Db, tenant: Option<TenantId>, email: string, except: Option<UserId>) {
    exists id | id in db.users ::
      && db.users[id].tenantId == tenant && db.users[id].email == email && Some(id) != except
      && (tenant.None? ==> db.users[id].userType == SystemAdmin)
  }

  datatype NewUser = NewUser(
    email: string, displayName: string, password: string, userType: UserType, status: UserStatus)

  function CreateUser(db: Db, bootstrap: UserId, tenant: Option<TenantId>, actor: Option<UserId>,
                      id: UserId, u: NewUser): Result<Db, AuthError>
  {
    var user := User(tenant, u.email, u.displayName, u.password, u.userType, u.status);
    if u.userType == SystemAdmin then
      if tenant.Some? then Err(AdminScopeMismatch)
      else if actor != Some(bootstrap) || !FindSystemAdmin(db, actor) then Err(AdminScopeMismatch)
      else if EmailTaken(db, None, u.email, None) then Err(EmailConflict)
      else Ok(db.(users := db.users[id := user]))
    else if tenant.None? then Err(TenantRequired)
    else if EmailTaken(db, tenant, u.email, None) then Err(EmailConflict)
    else
      Ok(db.(users := db.users[id := user],
             log := db.log + [UserCreated(tenant.value, id, u.userType, u.status)]))
  }

  function UpdateUser(db: Db, tenant: Option<TenantId>, actor: Option<UserId>, given: IdText,
                      email: Option<string>, displayName: Option<string>): Result<Db, AuthError>
  {
    var id := given.id;
    if email.None? && displayName.None? then Err(ValidationFailed)
    else if tenant.None? && (!SameText(actor, given) || !FindSystemAdmin(db, actor)) then Err(TenantRequired)
    else if tenant.Some? && !UserIn(db, tenant.value, id) then Err(UserNotFound)
    else if email.Some? && EmailTaken(db, tenant, email.value, Written(given)) then Err(EmailConflict)
    else
      var user := db.users[id].(email := Or(email, db.users[id].email),
                                displayName := Or(displayName, db.users[id].displayName));
      var fields := Named(email, "email") + Named(displayName, "displayName");
      Ok(db.(users := db.users[id := user],
             log := if tenant.Some? then db.log + [UserUpdated(tenant.value, id, fields)] else db.log))
  }

  /** The WHERE part of an UPDATE of `refresh_tokens`, beside `revoked_at IS NULL`. */
  datatype Filter = ById(id: nat) | OfUser(userId: UserId, tenant: Option<TenantId>)

  predicate Selects(filter: Filter, i: nat, token: Token) {
    match filter
    case ById(id) => i == id
    case OfUser(userId, tenant) => token.userId == userId && (tenant.Some? ==> token.tenantId == tenant)
  }

  function Revoked(tokens: seq<Token>, filter: Filter, now: Time): seq<Token> {
    seq(|tokens|, i requires 0 <= i < |tokens| =>
      if Selects(filter, i, tokens[i]) && tokens[i].revokedAt.None?
      then tokens[i].(revokedAt := Some(now)) else tokens[i])
  }

  /** What an UPDATE reports: how many rows it changed. */
  function RevokedCount(tokens: seq<Token>, filter: Filter): nat {
    |set i: nat | i < |tokens| && Selects(filter, i, tokens[i]) && tokens[i].revokedAt.None?|
  }

  function UpdateUserStatus(db: Db, tenant: Option<TenantId>, id: UserId, status: UserStatus, now: Time)
    : Result<Db, AuthError>
  {
    if tenant.None? then Err(TenantRequired)
    else if !UserIn(db, tenant.value, id) then Err(UserNotFound)
    else
      Ok(db.(users := db.users[id := db.users[id].(status := status)],
             tokens := if status != Active then Revoked(db.tokens, OfUser(id, tenant), now) else db.tokens,
             log := db.log + [UserStatusChanged(tenant.value, id, status)]))
  }

  // ---- auth.service.ts ----

  const ADMIN_LOGIN_PERMISSIONS := {
    "tenant.tenants.read", "auth.users.read", "auth.roles.read", "auth.permissions.read", "audit.logs.read"
  }

  predicate IsAdminLoginEligible(db: Db, id: UserId)
    requires id in db.users
  {
    || (db.users[id].userType == SystemAdmin && db.users[id].tenantId.None?)
    || (exists other | other in db.assignments ::
          var a := db.assignments[other];
          && a.userId == id && a.roleId in db.roles
          && (|| db.roles[a.roleId].code == "tenant_admin"
              || exists code | code in ADMIN_LOGIN_PERMISSIONS :: (a.roleId, code) in db.grants))
  }

  function AdminMatches(db: Db, email: string, password: string): set<UserId> {
    set id | id in db.users && db.users[id].email == email && IsAdminLoginEligible(db, id)
             && db.users[id].password == password
  }

  lemma OnlyElement(s: set<UserId>, id: UserId)
    requires id in s && |s| <= 1
    ensures forall other :: other in s ==> other == id
  {
    forall other | other in s ensures other == id {
      assert |s - {id}| == |s| - 1;
    }
  }

  function TenantUsers(db: Db, tenantId: TenantId, email: string): set<UserId> {
    set id | id in db.users && db.users[id].tenantId == Some(tenantId) && db.users[id].email == email
  }

  /** The user who logs in. */
  ghost function LoginUser(db: Db, tenant: Option<TenantId>, email: string, password: string)
    : Result<UserId, AuthError>
  {
    if tenant.Some? then
      if TenantUsers(db, tenant.value, email) == {} then Err(InvalidCredentials)
      else
        var id :| id in TenantUsers(db, tenant.value, email);
        if db.users[id].status != Active then Err(AccountLocked)
        else if db.users[id].password != password then Err(InvalidCredentials)
        else Ok(id)
    else
      var matches := AdminMatches(db, email, password);
      if |matches| > 1 then Err(LoginAmbiguous)
      else if matches == {} then Err(InvalidCredentials)
      else
        var id :| id in matches;
        if db.users[id].status != Active then Err(AccountLocked) else Ok(id)
  }

  ghost function Login(db: Db, tenant: Option<TenantId>, email: string, password: string,
                       secret: string, expiresAt: Time): Result<Db, AuthError>
  {
    match LoginUser(db, tenant, email, password)
    case Err(e) => Err(e)
    case Ok(id) => Ok(db.(tokens := db.tokens + [Token(db.users[id].tenantId, id, secret, expiresAt, None, None)]))
  }

  /** findUnique on `token_hash`. */
  function FindToken(tokens: seq<Token>, secret: string): (r: Option<nat>)
    ensures match r
      case Some(i) => i < |tokens| && tokens[i].secret == secret
      case None => forall i :: 0 <= i < |tokens| ==> tokens[i].secret != secret
  {
    if tokens == [] then None
    else if tokens[|tokens| - 1].secret == secret then Some(|tokens| - 1)
    else FindToken(tokens[..|tokens| - 1], secret)
  }

  /** Refresh accepts token `i`. */
  predicate Usable(db: Db, i: nat, now: Time)
    requires i < |db.tokens|
  {
    var token := db.tokens[i];
    && token.revokedAt.None? && now < token.expiresAt
    && token.userId in db.users && db.users[token.userId].status == Active
  }

  function Rotated(tokens: seq<Token>, i: nat, next: string, now: Time, expiresAt: Time): seq<Token>
    requires i < |tokens|
  {
    var current := tokens[i];
    tokens[i := current.(revokedAt := Some(now), replacedBy := Some(|tokens|))]
      + [Token(current.tenantId, current.userId, next, expiresAt, None, None)]
  }

  function Refresh(db: Db, secret: string, tenant: Option<IdText>, next: string, now: Time, expiresAt: Time)
    : Result<Db, AuthError>
  {
    match FindToken(db.tokens, secret)
    case None => Err(InvalidToken)
    case Some(i) =>
      if !Usable(db, i, now) then Err(InvalidToken)
      else if tenant.Some? && !SameText(db.tokens[i].tenantId, tenant.value) then Err(TenantMismatch)
      else Ok(db.(tokens := Rotated(db.tokens, i, next, now, expiresAt)))
  }

  function Revoke(db: Db, secret: Option<string>, tenant: Option<IdText>, userId: Option<UserId>, now: Time)
    : Result<Db, AuthError>
  {
    if secret.Some? then
      match FindToken(db.tokens, secret.value)
      case None => Ok(db)
      case Some(i) =>
        if tenant.Some? && !SameText(db.tokens[i].tenantId, tenant.value) then Err(TenantMismatch)
        else if userId.Some? && db.tokens[i].userId != userId.value then Err(Forbidden)
        else Ok(db.(tokens := Revoked(db.tokens, ById(i), now)))
    else if userId.None? then Err(ValidationFailed)
    else Ok(db.(tokens := Revoked(db.tokens, OfUser(userId.value, TenantOf(tenant)), now)))
  }

  /** The tenant a caller's text denotes for the database. */
  function TenantOf(tenant: Option<IdText>): Option<TenantId> {
    if tenant.Some? then Some(tenant.value.id) else None
  }

  // ---- Decisions ----

  /** The user's assignments whose role belongs to the tenant. */
  function AssignmentsIn(db: Db, tenantId: TenantId, userId: UserId): set<AssignmentId> {
    set id | id in db.assignments && db.assignments[id].userId == userId
             && RoleIn(db, tenantId, db.assignments[id].roleId)
  }

  function ActiveAssignments(db: Db, tenantId: TenantId, userId: UserId): Result<set<AssignmentId>, AuthError> {
    if !UserIn(db, tenantId, userId) then Err(UserNotFound)
    else if db.users[userId].status != Active then Err(AccountLocked)
    else Ok(AssignmentsIn(db, tenantId, userId))
  }

  /** Some assignment among `ids` carries the code. */
  predicate Carried(db: Db, ids: set<AssignmentId>, code: string) {
    exists id | id in ids :: id in db.assignments && (db.assignments[id].roleId, code) in db.grants
  }

  function CodesOf(db: Db, ids: set<AssignmentId>): set<string> {
    set g | g in db.grants && Carried(db, ids, g.1) :: g.1
  }

  datatype RoleView = RoleView(roleId: RoleId, code: string, warehouseId: Option<WarehouseId>)

  function RolesOf(db: Db, ids: set<AssignmentId>): map<AssignmentId, RoleView> {
    map id | id in ids && id in db.assignments && db.assignments[id].roleId in db.roles ::
      RoleView(db.assignments[id].roleId, db.roles[db.assignments[id].roleId].code, db.assignments[id].warehouseId)
  }

  datatype Summary = Everything(permissions: set<string>)
                   | OfRoles(roles: map<AssignmentId, RoleView>, permissions: set<string>)

  function Summarize(db: Db, tenant: Option<TenantId>, userId: UserId): Result<Summary, AuthError> {
    if FindSystemAdmin(db, Some(userId)) then Ok(Everything(db.permissions))
    else if tenant.None? then Err(TenantRequired)
    else match ActiveAssignments(db, tenant.value, userId)
      case Err(e) => Err(e)
      case Ok(ids) => Ok(OfRoles(RolesOf(db, ids), CodesOf(db, ids)))
  }

  /** An assignment for one warehouse counts only for a request about that warehouse. */
  predicate ScopeCovers(own: Option<WarehouseId>, requested: Option<IdText>) {
    && !(own.Some? && requested.Some? && !SameText(own, requested.value))
    && !(own.Some? && requested.None?)
  }

  function CheckPermission(db: Db, tenant: Option<TenantId>, userId: UserId, value: string,
                           warehouse: Option<IdText>): Result<bool, AuthError>
  {
    match ReadPermissionCode(value)
    case Err(e) => Err(e)
    case Ok(code) =>
      if FindSystemAdmin(db, Some(userId)) then Ok(true)
      else if tenant.None? then Err(TenantRequired)
      else if IsSystemCode(code) then Err(AdminScopeMismatch)
      else match ActiveAssignments(db, tenant.value, userId)
        case Err(e) => Err(e)
        case Ok(ids) =>
          Ok(exists id | id in ids :: id in db.assignments && ScopeCovers(db.assignments[id].warehouseId, warehouse)
                                      && (db.assignments[id].roleId, code) in db.grants)
  }

  function AllAssignments(db: Db, userId: UserId): set<AssignmentId> {
    set id | id in db.assignments && db.assignments[id].userId == userId
  }

  /** auth.service.ts `me`: all assignments of the user, whatever the role's tenant. */
  function Me(db: Db, tenant: Option<IdText>, userId: UserId): Result<Summary, AuthError> {
    if userId !in db.users then Err(UserNotFound)
    else if db.users[userId].status != Active then Err(AccountLocked)
    else if tenant.Some? && !SameText(db.users[userId].tenantId, tenant.value) then Err(TenantMismatch)
    else if tenant.None? && db.users[userId].userType != SystemAdmin then Err(TenantRequired)
    else if db.users[userId].userType == SystemAdmin then Ok(Everything(db.permissions))
    else
      var ids := AllAssignments(db, userId);
      Ok(OfRoles(RolesOf(db, ids), CodesOf(db, ids)))
  }
}
