// Runs of the auth service: any calls in any order, each one atomic, refused ones included;
// and what the role, permission and assignment tables keep over every run.
module AuthRuns {
  import opened Common
  import opened AuthModel

  /** prisma/seed.ts fills the tables before the first call; it writes no token and no event. */
  datatype Config = Config(bootstrap: UserId, seed: Db)

  datatype Call =
    | RoleCreation(tenant: Option<TenantId>, roleId: RoleId, code: string, name: string, description: Option<string>)
    | RoleUpdate(tenant: Option<TenantId>, given: IdText, change: RoleChange)
    | PermissionReplacement(tenant: Option<TenantId>, roleId: RoleId, values: seq<string>)
    | PermissionCreation(tenant: Option<TenantId>, value: string)
    | RoleAssignment(tenant: Option<TenantId>, actor: Option<UserId>, id: AssignmentId, assignment: Assignment)
    | RoleRemoval(tenant: Option<TenantId>, id: AssignmentId)
    | UserCreation(tenant: Option<TenantId>, actor: Option<UserId>, userId: UserId, user: NewUser)
    | UserUpdate(tenant: Option<TenantId>, actor: Option<UserId>, given: IdText, email: Option<string>,
                 displayName: Option<string>)
    | StatusChange(tenant: Option<TenantId>, userId: UserId, status: UserStatus, now: Time)
    | SignIn(tenant: Option<TenantId>, login: string, password: string, next: string, expiresAt: Time)
    | Rotation(shown: Option<IdText>, secret: string, next: string, now: Time, expiresAt: Time)
    | Revocation(shown: Option<IdText>, which: Option<string>, actor: Option<UserId>, now: Time)

  predicate FreshSecret(db: Db, next: string) {
    forall i :: 0 <= i < |db.tokens| ==> db.tokens[i].secret != next
  }

  /** Generated keys and tokens are new. */
  predicate Admissible(db: Db, call: Call) {
    match call
    case RoleCreation(_, id, _, _, _) => id !in db.roles
    case RoleAssignment(_, _, id, _) => id !in db.assignments
    case UserCreation(_, _, id, _) => id !in db.users
    case SignIn(_, _, _, next, _) => FreshSecret(db, next)
    case Rotation(_, _, next, _, _) => FreshSecret(db, next)
    case _ => true
  }

  ghost function Attempt(c: Config, db: Db, call: Call): Result<Db, AuthError> {
    match call
    case RoleCreation(tenant, id, code, name, description) => CreateRole(db, tenant, id, code, name, description)
    case RoleUpdate(tenant, id, change) => UpdateRole(db, tenant, id, change)
    case PermissionReplacement(tenant, id, values) => ReplaceRolePermissions(db, tenant, id, values)
    case PermissionCreation(tenant, value) => CreatePermission(db, tenant, value)
    case RoleAssignment(tenant, actor, id, a) => AssignUserRole(db, c.bootstrap, tenant, actor, id, a)
    case RoleRemoval(tenant, id) => RemoveUserRole(db, tenant, id)
    case UserCreation(tenant, actor, id, user) => CreateUser(db, c.bootstrap, tenant, actor, id, user)
    case UserUpdate(tenant, actor, id, email, name) => UpdateUser(db, tenant, actor, id, email, name)
    case StatusChange(tenant, id, status, now) => UpdateUserStatus(db, tenant, id, status, now)
    case SignIn(tenant, email, password, next, expiresAt) => Login(db, tenant, email, password, next, expiresAt)
    case Rotation(tenant, secret, next, now, expiresAt) => Refresh(db, secret, tenant, next, now, expiresAt)
    case Revocation(tenant, secret, actor, now) => Revoke(db, secret, tenant, actor, now)
  }

  /** A call that throws leaves every table and the log as they were. */
  ghost function Step(c: Config, db: Db, call: Call): Db {
    var r := Attempt(c, db, call);
    if Admissible(db, call) && r.Ok? then r.value else db
  }

  function Seeded(c: Config): Db {
    c.seed.(tokens := [], log := [])
  }

  datatype Run = Run(states: seq<Db>, calls: seq<Call>)

  ghost predicate StepAt(c: Config, run: Run, i: nat)
    requires i < |run.calls| && |run.states| == |run.calls| + 1
  {
    run.states[i + 1] == Step(c, run.states[i], run.calls[i])
  }

  /** `run` starts in the seeded database and makes one call after the other. */
  ghost predicate IsRun(c: Config, run: Run) {
    && |run.states| == |run.calls| + 1
    && run.states[0] == Seeded(c)
    && forall i :: 0 <= i < |run.calls| ==> StepAt(c, run, i)
  }

  /** One more call at the end of a run. */
  ghost function Then(c: Config, run: Run, call: Call): Run
    requires |run.states| == |run.calls| + 1
  {
    Run(run.states + [Step(c, run.states[|run.calls|], call)], run.calls + [call])
  }

  lemma ThenIsRun(c: Config, run: Run, call: Call)
    requires IsRun(c, run)
    ensures IsRun(c, Then(c, run, call))
  {
    hide Step;
    var longer := Then(c, run, call);
    forall i | 0 <= i < |longer.calls| ensures StepAt(c, longer, i) {
      assert i < |run.calls| ==> StepAt(c, run, i);
    }
  }

  // ---- What every run keeps ----

  ghost predicate UsersAreTyped(users: map<UserId, User>) {
    && (forall id :: id in users ==> (users[id].userType == SystemAdmin <==> users[id].tenantId.None?))
    && UniqueEmails(users)
  }

  ghost predicate RolesAreDistinct(roles: map<RoleId, Role>) {
    && (forall id :: id in roles ==> roles[id].code != "system_admin")
    && (forall a, b :: a in roles && b in roles && a != b && roles[a].tenantId == roles[b].tenantId ==>
          roles[a].code != roles[b].code)
  }

  ghost predicate GrantsAreTenantPermissions(db: Db) {
    && (forall code :: code in db.permissions ==> IsPermissionCode(code))
    && (forall g :: g in db.grants ==> g.0 in db.roles && g.1 in db.permissions && !IsSystemCode(g.1))
  }

  /** An assignment's user and role belong to one tenant. */
  ghost predicate AssignmentsStayInTenant(db: Db) {
    forall id :: id in db.assignments ==>
      var a := db.assignments[id];
      a.roleId in db.roles && a.userId in db.users && db.users[a.userId].tenantId == Some(db.roles[a.roleId].tenantId)
  }

  ghost predicate RbacInv(db: Db) {
    && UsersAreTyped(db.users) && RolesAreDistinct(db.roles)
    && GrantsAreTenantPermissions(db) && AssignmentsStayInTenant(db)
  }

  lemma CreationKeepsRbac(db: Db, tenant: Option<TenantId>, id: RoleId, code: string, name: string,
                           description: Option<string>)
    requires RbacInv(db) && id !in db.roles && CreateRole(db, tenant, id, code, name, description).Ok?
    ensures RbacInv(CreateRole(db, tenant, id, code, name, description).value)
  {
    hide IsPermissionCode, IsSystemCode, UsersAreTyped;
    assert forall other :: RoleIn(db, tenant.value, other) && db.roles[other].code == code ==>
      CodeTaken(db, tenant.value, code, None);
  }

  lemma UpdateKeepsRbac(db: Db, tenant: Option<TenantId>, given: IdText, change: RoleChange)
    requires RbacInv(db) && UpdateRole(db, tenant, given, change).Ok?
    ensures RbacInv(UpdateRole(db, tenant, given, change).value)
  {
    hide IsPermissionCode, IsSystemCode, UsersAreTyped, Named;
    if change.code.Some? {
      assert forall other ::
        (RoleIn(db, tenant.value, other) && db.roles[other].code == change.code.value && other != given.id) ==>
        CodeTaken(db, tenant.value, change.code.value, Written(given));
    }
  }

  lemma ReplacementKeepsRbac(db: Db, tenant: Option<TenantId>, id: RoleId, values: seq<string>)
    requires RbacInv(db) && ReplaceRolePermissions(db, tenant, id, values).Ok?
    ensures RbacInv(ReplaceRolePermissions(db, tenant, id, values).value)
  {
    hide IsPermissionCode, IsSystemCode, UsersAreTyped, RolesAreDistinct, ReadPermissionCodes;
  }

  lemma CatalogueKeepsRbac(db: Db, tenant: Option<TenantId>, value: string)
    requires RbacInv(db) && CreatePermission(db, tenant, value).Ok?
    ensures RbacInv(CreatePermission(db, tenant, value).value)
  {
    hide IsSystemCode, CodeFrom, UsersAreTyped, RolesAreDistinct;
  }

  lemma AssignmentKeepsRbac(db: Db, bootstrap: UserId, tenant: Option<TenantId>, actor: Option<UserId>,
                            id: AssignmentId, a: Assignment)
    requires RbacInv(db) && AssignUserRole(db, bootstrap, tenant, actor, id, a).Ok?
    ensures RbacInv(AssignUserRole(db, bootstrap, tenant, actor, id, a).value)
  {
    hide IsPermissionCode, IsSystemCode, FindActorLevel, UsersAreTyped, RolesAreDistinct;
  }

  lemma RemovalKeepsRbac(db: Db, tenant: Option<TenantId>, id: AssignmentId)
    requires RbacInv(db) && RemoveUserRole(db, tenant, id).Ok?
    ensures RbacInv(RemoveUserRole(db, tenant, id).value)
  {
    hide IsPermissionCode, IsSystemCode, UsersAreTyped, RolesAreDistinct;
  }

  /** Users may be added or changed, as long as they keep their tenants. */
  lemma SameButUsers(db: Db, after: Db)
    requires RbacInv(db) && UsersAreTyped(after.users)
    requires after.roles == db.roles && after.permissions == db.permissions && after.grants == db.grants
    requires after.assignments == db.assignments
    requires forall id :: id in db.users ==> id in after.users && after.users[id].tenantId == db.users[id].tenantId
    ensures RbacInv(after)
  {
    hide IsPermissionCode, IsSystemCode, UsersAreTyped, RolesAreDistinct;
  }

  lemma UserCreationKeepsRbac(db: Db, bootstrap: UserId, tenant: Option<TenantId>, actor: Option<UserId>,
                              id: UserId, u: NewUser)
    requires RbacInv(db) && id !in db.users && CreateUser(db, bootstrap, tenant, actor, id, u).Ok?
    ensures RbacInv(CreateUser(db, bootstrap, tenant, actor, id, u).value)
  {
    hide RolesAreDistinct, GrantsAreTenantPermissions, AssignmentsStayInTenant;
    assert forall other ::
      (other in db.users && db.users[other].tenantId == tenant && tenant.Some? && db.users[other].email == u.email) ==>
      EmailTaken(db, tenant, u.email, None);
    SameButUsers(db, CreateUser(db, bootstrap, tenant, actor, id, u).value);
  }

  lemma UserUpdateKeepsRbac(db: Db, tenant: Option<TenantId>, actor: Option<UserId>, given: IdText,
                            email: Option<string>, displayName: Option<string>)
    requires RbacInv(db) && UpdateUser(db, tenant, actor, given, email, displayName).Ok?
    ensures RbacInv(UpdateUser(db, tenant, actor, given, email, displayName).value)
  {
    hide RolesAreDistinct, GrantsAreTenantPermissions, AssignmentsStayInTenant, Named;
    if email.Some? {
      assert forall other :: (other in db.users && db.users[other].tenantId == tenant && tenant.Some?
                              && db.users[other].email == email.value && other != given.id) ==>
        EmailTaken(db, tenant, email.value, Written(given));
    }
    SameButUsers(db, UpdateUser(db, tenant, actor, given, email, displayName).value);
  }

  lemma StatusKeepsRbac(db: Db, tenant: Option<TenantId>, id: UserId, status: UserStatus, now: Time)
    requires RbacInv(db) && UpdateUserStatus(db, tenant, id, status, now).Ok?
    ensures RbacInv(UpdateUserStatus(db, tenant, id, status, now).value)
  {
    hide RolesAreDistinct, GrantsAreTenantPermissions, AssignmentsStayInTenant, Revoked;
    SameButUsers(db, UpdateUserStatus(db, tenant, id, status, now).value);
  }

  predicate OnTokensOnly(call: Call) {
    call.SignIn? || call.Rotation? || call.Revocation?
  }

  /** Token calls touch the token table and nothing else, not even the log. */
  lemma TokenCallsTouchTokensOnly(c: Config, db: Db, call: Call)
    requires OnTokensOnly(call)
    ensures Step(c, db, call) == db.(tokens := Step(c, db, call).tokens)
  {
    hide Revoked, Rotated, LoginUser, FindToken, Usable;
  }

  lemma TokensDoNotMatter(db: Db, tokens: seq<Token>)
    requires RbacInv(db)
    ensures RbacInv(db.(tokens := tokens))
  {
    hide IsPermissionCode, IsSystemCode, UsersAreTyped, RolesAreDistinct;
  }

  lemma StepKeepsRbac(c: Config, db: Db, call: Call)
    requires RbacInv(db)
    ensures RbacInv(Step(c, db, call))
  {
    hide RbacInv, CreateRole, UpdateRole, ReplaceRolePermissions, CreatePermission, AssignUserRole, RemoveUserRole,
         CreateUser, UpdateUser, UpdateUserStatus, Login, Refresh, Revoke;
    if Admissible(db, call) && Attempt(c, db, call).Ok? {
      match call {
        case RoleCreation(tenant, id, code, name, description) =>
          CreationKeepsRbac(db, tenant, id, code, name, description);
        case RoleUpdate(tenant, id, change) => UpdateKeepsRbac(db, tenant, id, change);
        case PermissionReplacement(tenant, id, values) => ReplacementKeepsRbac(db, tenant, id, values);
        case PermissionCreation(tenant, value) => CatalogueKeepsRbac(db, tenant, value);
        case RoleAssignment(tenant, actor, id, a) => AssignmentKeepsRbac(db, c.bootstrap, tenant, actor, id, a);
        case RoleRemoval(tenant, id) => RemovalKeepsRbac(db, tenant, id);
        case UserCreation(tenant, actor, id, user) => UserCreationKeepsRbac(db, c.bootstrap, tenant, actor, id, user);
        case UserUpdate(tenant, actor, id, email, name) => UserUpdateKeepsRbac(db, tenant, actor, id, email, name);
        case StatusChange(tenant, id, status, now) => StatusKeepsRbac(db, tenant, id, status, now);
        case _ =>
          TokenCallsTouchTokensOnly(c, db, call);
          TokensDoNotMatter(db, Step(c, db, call).tokens);
      }
    }
  }

  /** What the seed must satisfy, and does: it creates a system administrator, a tenant user
      and role, catalogue permissions granted to that role, and its assignment. */
  ghost predicate ValidSeed(c: Config) {
    RbacInv(c.seed)
  }

  /** The tables as prisma/seed.ts leaves them, which grants its role all its permissions. */
  function SeedScript(admin: User, adminId: UserId, user: User, userId: UserId, role: Role,
                      roleId: RoleId, id: AssignmentId, permissions: set<string>): Db
  {
    Db(map[adminId := admin, userId := user], map[roleId := role], permissions,
       set code | code in permissions :: (roleId, code), map[id := Assignment(userId, roleId, None)], [], [])
  }

  lemma SeedScriptIsValid(bootstrap: UserId, tenantId: TenantId, admin: User, adminId: UserId, user: User,
                          userId: UserId, role: Role, roleId: RoleId, id: AssignmentId, permissions: set<string>)
    requires adminId != userId && admin.userType == SystemAdmin && admin.tenantId.None?
    requires user.userType == GeneralUser && user.tenantId == Some(tenantId)
    requires role.tenantId == tenantId && role.code == "tenant_admin"
    requires forall code :: code in permissions ==> IsPermissionCode(code) && !IsSystemCode(code)
    ensures ValidSeed(Config(bootstrap, SeedScript(admin, adminId, user, userId, role, roleId, id, permissions)))
  {
    hide IsPermissionCode, IsSystemCode;
    assert role.code[0] == 't' && "system_admin"[0] == 's';
  }

  /** In every reachable state: role codes are unique per tenant and never system_admin,
      tenant roles hold only well-formed catalogue codes outside `system.`, assignments do
      not cross tenants, and system administrators are exactly the users without tenant. */
  lemma {:induction false} RunKeepsRbac(c: Config, run: Run, i: nat)
    requires ValidSeed(c) && IsRun(c, run) && i < |run.states|
    ensures RbacInv(run.states[i])
    decreases i
  {
    hide Step;
    if i > 0 {
      hide RbacInv;
      RunKeepsRbac(c, run, i - 1);
      assert StepAt(c, run, i - 1);
      StepKeepsRbac(c, run.states[i - 1], run.calls[i - 1]);
    }
  }
}
