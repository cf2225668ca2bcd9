// The auth outbox log as a complete record: folded over the seeded tables it gives the
// tables after any run.
module AuthReplay {
  import opened Common
  import opened AuthModel
  import opened AuthRuns

  /** What consumers of the log can know of the tables. */
  datatype View = View(
    tenantOf: map<UserId, TenantId>, statusOf: map<UserId, UserStatus>, roles: map<RoleId, TenantId>,
    permissions: set<string>, grants: set<(RoleId, string)>, assignments: map<AssignmentId, Assignment>)

  function Fold(view: View, event: AuthEvent): View {
    match event
    case UserCreated(tenantId, id, _, status) =>
      view.(tenantOf := view.tenantOf[id := tenantId], statusOf := view.statusOf[id := status])
    case UserUpdated(_, _, _) => view
    case UserStatusChanged(_, id, status) => view.(statusOf := view.statusOf[id := status])
    case RoleCreated(tenantId, id, _) => view.(roles := view.roles[id := tenantId])
    case RoleUpdated(_, _, _) => view
    case PermissionsReplaced(_, id, codes) =>
      view.(grants := (set g | g in view.grants && g.0 != id) + set code | code in codes :: (id, code))
    case RoleAssigned(_, id, userId, roleId, _, warehouseId) =>
      view.(assignments := view.assignments[id := Assignment(userId, roleId, warehouseId)])
    case RoleRemoved(_, id, _, _, _, _) => view.(assignments := view.assignments - {id})
    case PermissionCreated(_, code) => view.(permissions := view.permissions + {code})
  }

  /** The tables, system administrators excepted. */
  function ViewOf(db: Db): View {
    View(map id | id in db.users && db.users[id].tenantId.Some? :: db.users[id].tenantId.value,
         map id | id in db.users && db.users[id].tenantId.Some? :: db.users[id].status,
         map id | id in db.roles :: db.roles[id].tenantId,
         db.permissions, db.grants, db.assignments)
  }

  function Replay(c: Config, log: seq<AuthEvent>): View {
    if log == [] then ViewOf(Seeded(c))
    else Fold(Replay(c, log[..|log| - 1]), log[|log| - 1])
  }

  predicate Knows(view: View, tenantId: TenantId, userId: UserId) {
    userId in view.tenantOf && view.tenantOf[userId] == tenantId
  }

  predicate KnowsRole(view: View, tenantId: TenantId, roleId: RoleId) {
    roleId in view.roles && view.roles[roleId] == tenantId
  }

  /** An event fits what the log said before it: what it creates is new, what it changes or
      removes is there, with the same contents, and everything named belongs to its tenant. */
  predicate Fits(view: View, event: AuthEvent) {
    match event
    case UserCreated(_, id, userType, _) => id !in view.tenantOf && userType == GeneralUser
    case UserUpdated(tenantId, id, _) => Knows(view, tenantId, id)
    case UserStatusChanged(tenantId, id, _) => Knows(view, tenantId, id)
    case RoleCreated(_, id, code) => id !in view.roles && code != "system_admin"
    case RoleUpdated(tenantId, id, _) => KnowsRole(view, tenantId, id)
    case PermissionsReplaced(tenantId, id, codes) => KnowsRole(view, tenantId, id) && codes <= view.permissions
    case RoleAssigned(tenantId, id, userId, roleId, _, warehouseId) =>
      && id !in view.assignments && Knows(view, tenantId, userId) && KnowsRole(view, tenantId, roleId)
      && Assignment(userId, roleId, warehouseId) !in view.assignments.Values
    case RoleRemoved(tenantId, id, userId, roleId, _, warehouseId) =>
      && id in view.assignments && view.assignments[id] == Assignment(userId, roleId, warehouseId)
      && Knows(view, tenantId, userId) && KnowsRole(view, tenantId, roleId)
    case PermissionCreated(_, code) => code !in view.permissions
  }

  ghost predicate Consistent(c: Config, log: seq<AuthEvent>) {
    forall i :: 0 <= i < |log| ==> Fits(Replay(c, log[..i]), log[i])
  }

  ghost predicate Faithful(c: Config, db: Db) {
    Replay(c, db.log) == ViewOf(db) && Consistent(c, db.log)
  }

  /** What a call may do to the log and the tables behind the view. */
  ghost predicate Recorded(db: Db, after: Db) {
    || (after.log == db.log && ViewOf(after) == ViewOf(db))
    || (|after.log| == |db.log| + 1 && after.log[..|db.log|] == db.log
        && Fits(ViewOf(db), after.log[|db.log|]) && ViewOf(after) == Fold(ViewOf(db), after.log[|db.log|]))
  }

  lemma RecordedKeepsFaithful(c: Config, db: Db, after: Db)
    requires Faithful(c, db) && Recorded(db, after)
    ensures Faithful(c, after)
  {
    hide Fits, Fold, ViewOf;
    if after.log != db.log {
      forall i | 0 <= i < |after.log| ensures Fits(Replay(c, after.log[..i]), after.log[i]) {
        if i < |db.log| {
          assert after.log[..i] == db.log[..i] && after.log[i] == db.log[i];
        }
      }
    }
  }

  lemma CreationIsRecorded(db: Db, tenant: Option<TenantId>, id: RoleId, code: string, name: string,
                           description: Option<string>)
    requires id !in db.roles && CreateRole(db, tenant, id, code, name, description).Ok?
    ensures Recorded(db, CreateRole(db, tenant, id, code, name, description).value)
  {
  }

  lemma UpdateIsRecorded(db: Db, tenant: Option<TenantId>, given: IdText, change: RoleChange)
    requires UpdateRole(db, tenant, given, change).Ok?
    ensures Recorded(db, UpdateRole(db, tenant, given, change).value)
  {
  }

  lemma ReplacementIsRecorded(db: Db, tenant: Option<TenantId>, id: RoleId, values: seq<string>)
    requires ReplaceRolePermissions(db, tenant, id, values).Ok?
    ensures Recorded(db, ReplaceRolePermissions(db, tenant, id, values).value)
  {
    hide ReadPermissionCodes;
  }

  lemma CatalogueIsRecorded(db: Db, tenant: Option<TenantId>, value: string)
    requires CreatePermission(db, tenant, value).Ok?
    ensures Recorded(db, CreatePermission(db, tenant, value).value)
  {
    hide ReadPermissionCode;
  }

  lemma AssignmentIsRecorded(db: Db, bootstrap: UserId, tenant: Option<TenantId>, actor: Option<UserId>,
                             id: AssignmentId, a: Assignment)
    requires id !in db.assignments && AssignUserRole(db, bootstrap, tenant, actor, id, a).Ok?
    ensures Recorded(db, AssignUserRole(db, bootstrap, tenant, actor, id, a).value)
  {
    hide FindActorLevel;
  }

  /** Needs that assignments do not cross tenants: the event names the user's tenant too. */
  lemma RemovalIsRecorded(db: Db, tenant: Option<TenantId>, id: AssignmentId)
    requires AssignmentsStayInTenant(db) && RemoveUserRole(db, tenant, id).Ok?
    ensures Recorded(db, RemoveUserRole(db, tenant, id).value)
  {
  }

  lemma UserCreationIsRecorded(db: Db, bootstrap: UserId, tenant: Option<TenantId>, actor: Option<UserId>,
                               id: UserId, u: NewUser)
    requires id !in db.users && CreateUser(db, bootstrap, tenant, actor, id, u).Ok?
    ensures Recorded(db, CreateUser(db, bootstrap, tenant, actor, id, u).value)
  {
    hide EmailTaken, FindSystemAdmin;
    var after := CreateUser(db, bootstrap, tenant, actor, id, u).value;
    NewUserInView(db, after, id);
  }

  lemma NewUserInView(db: Db, after: Db, id: UserId)
    requires id !in db.users && id in after.users && after.users == db.users[id := after.users[id]]
    ensures var user := after.users[id];
      if user.tenantId.None? then
        ViewOf(after).tenantOf == ViewOf(db).tenantOf && ViewOf(after).statusOf == ViewOf(db).statusOf
      else
        && ViewOf(after).tenantOf == ViewOf(db).tenantOf[id := user.tenantId.value]
        && ViewOf(after).statusOf == ViewOf(db).statusOf[id := user.status]
  {
  }

  lemma UserUpdateIsRecorded(db: Db, tenant: Option<TenantId>, actor: Option<UserId>, given: IdText,
                             email: Option<string>, displayName: Option<string>)
    requires UpdateUser(db, tenant, actor, given, email, displayName).Ok?
    ensures Recorded(db, UpdateUser(db, tenant, actor, given, email, displayName).value)
  {
    var after := UpdateUser(db, tenant, actor, given, email, displayName).value;
    assert ViewOf(after).tenantOf == ViewOf(db).tenantOf && ViewOf(after).statusOf == ViewOf(db).statusOf;
  }

  lemma StatusIsRecorded(db: Db, tenant: Option<TenantId>, id: UserId, status: UserStatus, now: Time)
    requires UpdateUserStatus(db, tenant, id, status, now).Ok?
    ensures Recorded(db, UpdateUserStatus(db, tenant, id, status, now).value)
  {
    hide Revoked;
    var after := UpdateUserStatus(db, tenant, id, status, now).value;
    assert ViewOf(after).tenantOf == ViewOf(db).tenantOf;
    assert ViewOf(after).statusOf == ViewOf(db).statusOf[id := status];
  }

  lemma StepIsRecorded(c: Config, db: Db, call: Call)
    requires AssignmentsStayInTenant(db)
    ensures Recorded(db, Step(c, db, call))
  {
    hide Recorded, AssignmentsStayInTenant, CreateRole, UpdateRole, ReplaceRolePermissions, CreatePermission,
         AssignUserRole, RemoveUserRole, CreateUser, UpdateUser, UpdateUserStatus, Login, Refresh, Revoke;
    SameIsRecorded(db, db.tokens);
    if Admissible(db, call) && Attempt(c, db, call).Ok? {
      match call {
        case RoleCreation(tenant, id, code, name, description) =>
          CreationIsRecorded(db, tenant, id, code, name, description);
        case RoleUpdate(tenant, id, change) => UpdateIsRecorded(db, tenant, id, change);
        case PermissionReplacement(tenant, id, values) => ReplacementIsRecorded(db, tenant, id, values);
        case PermissionCreation(tenant, value) => CatalogueIsRecorded(db, tenant, value);
        case RoleAssignment(tenant, actor, id, a) => AssignmentIsRecorded(db, c.bootstrap, tenant, actor, id, a);
        case RoleRemoval(tenant, id) => RemovalIsRecorded(db, tenant, id);
        case UserCreation(tenant, actor, id, user) => UserCreationIsRecorded(db, c.bootstrap, tenant, actor, id, user);
        case UserUpdate(tenant, actor, id, email, name) => UserUpdateIsRecorded(db, tenant, actor, id, email, name);
        case StatusChange(tenant, id, status, now) => StatusIsRecorded(db, tenant, id, status, now);
        case _ =>
          TokenCallsTouchTokensOnly(c, db, call);
          SameIsRecorded(db, Step(c, db, call).tokens);
      }
    }
  }

  lemma SameIsRecorded(db: Db, tokens: seq<Token>)
    ensures Recorded(db, db.(tokens := tokens))
    ensures db.(tokens := db.tokens) == db
  {
  }

  /** After any run the log folded over the seeded tables gives every tenant user's
      status, the role permissions and the whole assignment table; and every event fits
      what the log said before it. */
  lemma {:induction false} LogReplaysToTables(c: Config, run: Run, i: nat)
    requires ValidSeed(c) && IsRun(c, run) && i < |run.states|
    ensures Faithful(c, run.states[i])
    decreases i
  {
    hide Faithful, Step, Recorded, ValidSeed, UsersAreTyped, RolesAreDistinct, GrantsAreTenantPermissions,
         AssignmentsStayInTenant;
    if i > 0 {
      LogReplaysToTables(c, run, i - 1);
      RunKeepsRbac(c, run, i - 1);
      assert StepAt(c, run, i - 1);
      StepIsRecorded(c, run.states[i - 1], run.calls[i - 1]);
      RecordedKeepsFaithful(c, run.states[i - 1], run.states[i]);
    } else {
      SeedIsFaithful(c);
    }
  }

  lemma SeedIsFaithful(c: Config)
    requires ValidSeed(c)
    ensures Faithful(c, Seeded(c))
  {
  }
}
