// Authorization decisions: `check`, `summary` and `me` are views of the same assignments,
// and what happens in one tenant does not reach another's decisions.
module AuthDecisions {
  import opened Common
  import opened Text
  import opened AuthModel
  import opened AuthRuns

  // ---- Check and summary agree ----

  /** Some assignment of the user in the tenant carries the code and covers the request: it
      is for all warehouses, or for the requested one, written as the database writes it. */
  predicate Granted(db: Db, tenantId: TenantId, userId: UserId, code: string, warehouse: Option<IdText>) {
    exists id | id in db.assignments ::
      var a := db.assignments[id];
      && a.userId == userId && RoleIn(db, tenantId, a.roleId) && (a.roleId, code) in db.grants
      && (a.warehouseId.None? || (warehouse.Some? && SameText(a.warehouseId, warehouse.value)))
  }

  lemma {:induction false} CodeHasNoSpaces(s: string, atStart: bool, dots: nat)
    requires CodeFrom(s, atStart, dots)
    ensures forall i :: 0 <= i < |s| ==> !IsSpace(s[i])
    ensures atStart ==> s != []
    decreases s
  {
    if s != [] {
      var rest := s[1..];
      if atStart {
        CodeHasNoSpaces(rest, false, dots);
      } else if s[0] == '.' {
        CodeHasNoSpaces(rest, true, dots + 1);
      } else {
        CodeHasNoSpaces(rest, false, dots);
      }
      assert forall i :: 1 <= i < |s| ==> s[i] == rest[i - 1];
    }
  }

  lemma PermissionCodeIsTrimmed(code: string)
    requires IsPermissionCode(code)
    ensures Trim(code) == code
  {
    CodeHasNoSpaces(code, true, 0);
    TrimFixesTight(code);
  }

  /** `check` says yes exactly to a granted code; for a tenant's active user it never throws
      on a permission code outside `system.`. */
  lemma CheckMeaning(db: Db, tenantId: TenantId, userId: UserId, value: string, warehouse: Option<IdText>)
    requires RbacInv(db) && UserIn(db, tenantId, userId) && db.users[userId].status == Active
    ensures CheckPermission(db, Some(tenantId), userId, value, warehouse) == Ok(true) <==>
              Granted(db, tenantId, userId, Trim(value), warehouse)
    ensures CheckPermission(db, Some(tenantId), userId, value, warehouse).Ok? <==>
              IsPermissionCode(Trim(value)) && !IsSystemCode(Trim(value))
  {
    hide CodeFrom, UsersAreTyped, RolesAreDistinct, AssignmentsStayInTenant, Trim;
    var code := Trim(value);
    if Granted(db, tenantId, userId, code, warehouse) {
      var id :| id in db.assignments && db.assignments[id].userId == userId
        && RoleIn(db, tenantId, db.assignments[id].roleId)
        && (db.assignments[id].roleId, code) in db.grants
        && ScopeCovers(db.assignments[id].warehouseId, warehouse);
      assert id in AssignmentsIn(db, tenantId, userId);
      assert (db.assignments[id].roleId, code).1 == code;
    }
  }

  /** A code is in the summary exactly if some scope makes `check` say yes. */
  lemma SummaryAgreesWithCheck(db: Db, tenantId: TenantId, userId: UserId, value: string)
    requires RbacInv(db) && UserIn(db, tenantId, userId) && db.users[userId].status == Active
    ensures var summary := Summarize(db, Some(tenantId), userId);
      && summary.Ok? && summary.value.OfRoles?
      && (Trim(value) in summary.value.permissions <==>
            exists warehouse :: CheckPermission(db, Some(tenantId), userId, value, warehouse) == Ok(true))
  {
    hide RbacInv, CheckPermission, Trim;
    var ids := AssignmentsIn(db, tenantId, userId);
    assert !FindSystemAdmin(db, Some(userId));
    forall warehouse
      ensures CheckPermission(db, Some(tenantId), userId, value, warehouse) == Ok(true) <==>
                Granted(db, tenantId, userId, Trim(value), warehouse)
    {
      CheckMeaning(db, tenantId, userId, value, warehouse);
    }
    CodesAreGranted(db, tenantId, userId, Trim(value));
  }

  lemma CodesAreGranted(db: Db, tenantId: TenantId, userId: UserId, code: string)
    ensures code in CodesOf(db, AssignmentsIn(db, tenantId, userId)) <==>
      exists warehouse :: Granted(db, tenantId, userId, code, warehouse)
  {
    var ids := AssignmentsIn(db, tenantId, userId);
    if code in CodesOf(db, ids) {
      var id :| id in ids && (db.assignments[id].roleId, code) in db.grants;
      var own := db.assignments[id].warehouseId;
      assert Granted(db, tenantId, userId, code, if own.Some? then Some(IdText(own.value, true)) else None);
    }
    if warehouse :| Granted(db, tenantId, userId, code, warehouse) {
      var id :| id in db.assignments && db.assignments[id].userId == userId
        && RoleIn(db, tenantId, db.assignments[id].roleId) && (db.assignments[id].roleId, code) in db.grants;
      assert id in ids && Carried(db, ids, (db.assignments[id].roleId, code).1);
    }
  }

  /** Every code of the summary, asked back as it stands, is allowed for some scope. */
  lemma SummaryCodesAreAllowed(db: Db, tenantId: TenantId, userId: UserId, code: string)
    requires RbacInv(db) && UserIn(db, tenantId, userId) && db.users[userId].status == Active
    requires code in Summarize(db, Some(tenantId), userId).value.permissions
    ensures exists warehouse :: CheckPermission(db, Some(tenantId), userId, code, warehouse) == Ok(true)
  {
    hide CheckPermission, Trim, UsersAreTyped, RolesAreDistinct, AssignmentsStayInTenant, CodeFrom, IsSystemCode;
    SummaryAgreesWithCheck(db, tenantId, userId, code);
    assert code in CodesOf(db, AssignmentsIn(db, tenantId, userId));
    PermissionCodeIsTrimmed(code);
  }

  lemma {:induction false} SomeFreshWarehouse(db: Db, ids: set<AssignmentId>) returns (w: WarehouseId)
    requires ids <= db.assignments.Keys
    ensures forall id :: id in ids ==> db.assignments[id].warehouseId.None? || db.assignments[id].warehouseId.value < w
    decreases ids
  {
    w := 0;
    if ids != {} {
      var id :| id in ids;
      w := SomeFreshWarehouse(db, ids - {id});
      if db.assignments[id].warehouseId.Some? && db.assignments[id].warehouseId.value >= w {
        w := db.assignments[id].warehouseId.value + 1;
      }
    }
  }

  /** `check` without a scope says yes exactly if it says yes for every warehouse, however
      written: whoever asks and whatever is assigned. */
  lemma UnscopedMeansEveryWarehouse(db: Db, tenant: Option<TenantId>, userId: UserId, value: string)
    ensures CheckPermission(db, tenant, userId, value, None) == Ok(true) <==>
      forall w: IdText :: CheckPermission(db, tenant, userId, value, Some(w)) == Ok(true)
  {
    hide CodeFrom, Trim;
    if CheckPermission(db, tenant, userId, value, None) != Ok(true) {
      var w := SomeFreshWarehouse(db, db.assignments.Keys);
      assert CheckPermission(db, tenant, userId, value, Some(IdText(w, true))) != Ok(true);
    }
  }

  /** A warehouse that is not written in lower case counts as none. */
  lemma OtherSpellingIsNoWarehouse(db: Db, tenant: Option<TenantId>, userId: UserId, value: string, w: IdText)
    requires !w.lower
    ensures CheckPermission(db, tenant, userId, value, Some(w)) == CheckPermission(db, tenant, userId, value, None)
  {
    hide ReadPermissionCode, IsSystemCode;
  }

  /** So with a grant for one warehouse alone the spelling decides: `check` says yes for it
      if and only if it is written in lower case. */
  lemma SpellingDecidesIff(db: Db, tenantId: TenantId, userId: UserId, value: string, w: IdText)
    requires RbacInv(db) && UserIn(db, tenantId, userId) && db.users[userId].status == Active
    requires CheckPermission(db, Some(tenantId), userId, value, None) != Ok(true)
    requires CheckPermission(db, Some(tenantId), userId, value, Some(IdText(w.id, true))) == Ok(true)
    ensures CheckPermission(db, Some(tenantId), userId, value, Some(w)) == Ok(true) <==> w.lower
  {
    hide CheckPermission, RbacInv;
    if !w.lower {
      OtherSpellingIsNoWarehouse(db, Some(tenantId), userId, value, w);
    } else {
      assert w == IdText(w.id, true);
    }
  }

  /** `me`, which looks at all assignments, tells a tenant's user the same as `summary`,
      which looks at those of the tenant, if and only if the tenant is written in lower case
      or the user is not active; else `me` throws. */
  lemma MeAgreesWithSummaryIff(db: Db, tenant: IdText, userId: UserId)
    requires RbacInv(db) && UserIn(db, tenant.id, userId)
    ensures Me(db, Some(tenant), userId) == Summarize(db, Some(tenant.id), userId) <==>
      tenant.lower || db.users[userId].status != Active
    ensures !tenant.lower && db.users[userId].status == Active ==> Me(db, Some(tenant), userId) == Err(TenantMismatch)
  {
    hide RolesAreDistinct, GrantsAreTenantPermissions, CodesOf, RolesOf;
    assert AllAssignments(db, userId) == AssignmentsIn(db, tenant.id, userId);
  }

  /** A role can be updated with the code it has if and only if its id is written in lower
      case; else its own code counts as another role's. */
  lemma OwnCodeIsFreeIff(db: Db, tenantId: TenantId, given: IdText, change: RoleChange)
    requires RbacInv(db) && RoleIn(db, tenantId, given.id) && change.code == Some(db.roles[given.id].code)
    ensures UpdateRole(db, Some(tenantId), given, change).Ok? <==> given.lower
    ensures !given.lower ==> UpdateRole(db, Some(tenantId), given, change) == Err(RoleCodeConflict)
  {
    hide UsersAreTyped, GrantsAreTenantPermissions, AssignmentsStayInTenant, Named, ApplyChange;
    assert !given.lower ==> CodeTaken(db, tenantId, change.code.value, None);
  }

  /** A usable token is rotated, and a token shown is revoked, for a request that names its
      tenant if and only if the tenant is written in lower case. */
  lemma TokenTenantIsAcceptedIff(db: Db, i: nat, tenant: IdText, next: string, now: Time, expiresAt: Time)
    requires i < |db.tokens| && FindToken(db.tokens, db.tokens[i].secret) == Some(i) && Usable(db, i, now)
    requires db.tokens[i].tenantId == Some(tenant.id)
    ensures var r := Refresh(db, db.tokens[i].secret, Some(tenant), next, now, expiresAt);
      (r.Ok? <==> tenant.lower) && (!tenant.lower ==> r == Err(TenantMismatch))
    ensures var r := Revoke(db, Some(db.tokens[i].secret), Some(tenant), None, now);
      (r.Ok? <==> tenant.lower) && (!tenant.lower ==> r == Err(TenantMismatch))
  {
  }

  // ---- Who may assign ----

  /** An assignment is made exactly if user and role are the tenant's, it is new, and, for a
      tenant administrator, the actor is an active system administrator and names no
      warehouse: no level of tenant administrator suffices. */
  lemma AssignmentIsAllowedIff(db: Db, bootstrap: UserId, tenant: Option<TenantId>, actor: Option<UserId>,
                               id: AssignmentId, a: Assignment)
    ensures AssignUserRole(db, bootstrap, tenant, actor, id, a).Ok? <==>
      && tenant.Some? && UserIn(db, tenant.value, a.userId) && RoleIn(db, tenant.value, a.roleId)
      && a !in db.assignments.Values
      && (db.roles[a.roleId].code == "tenant_admin" ==> FindSystemAdmin(db, actor) && a.warehouseId.None?)
  {
    hide HoldsTenantAdmin;
  }

  // ---- Non-interference ----

  /** All that decisions about a tenant's users depend on. */
  datatype TenantView = TenantView(
    users: map<UserId, UserStatus>, roles: map<RoleId, Role>, grants: set<(RoleId, string)>,
    assignments: map<AssignmentId, Assignment>)

  function ViewOfTenant(db: Db, b: TenantId): TenantView {
    TenantView(
      map id | id in db.users && UserIn(db, b, id) :: db.users[id].status,
      map id | id in db.roles && RoleIn(db, b, id) :: db.roles[id],
      set g | g in db.grants && RoleIn(db, b, g.0),
      map id | id in db.assignments && RoleIn(db, b, db.assignments[id].roleId) :: db.assignments[id])
  }

  /** Users stay, and none of them becomes or ceases to be a system administrator. */
  ghost predicate KeepsAdmins(db: Db, after: Db) {
    forall id :: id in db.users ==>
      id in after.users && (FindSystemAdmin(db, Some(id)) <==> FindSystemAdmin(after, Some(id)))
  }

  ghost predicate SameFor(b: TenantId, db: Db, after: Db) {
    ViewOfTenant(db, b) == ViewOfTenant(after, b) && KeepsAdmins(db, after)
  }

  predicate AssignedIn(db: Db, b: TenantId, id: AssignmentId) {
    id in db.assignments && RoleIn(db, b, db.assignments[id].roleId)
  }

  lemma SameUsers(b: TenantId, db: Db, after: Db, id: UserId)
    requires ViewOfTenant(db, b).users == ViewOfTenant(after, b).users
    ensures UserIn(db, b, id) <==> UserIn(after, b, id)
    ensures UserIn(db, b, id) ==> db.users[id].status == after.users[id].status
  {
    assert UserIn(db, b, id) <==> id in ViewOfTenant(db, b).users;
    assert UserIn(after, b, id) <==> id in ViewOfTenant(after, b).users;
  }

  lemma SameRoles(b: TenantId, db: Db, after: Db, id: RoleId)
    requires ViewOfTenant(db, b).roles == ViewOfTenant(after, b).roles
    ensures RoleIn(db, b, id) <==> RoleIn(after, b, id)
    ensures RoleIn(db, b, id) ==> db.roles[id] == after.roles[id]
  {
    assert RoleIn(db, b, id) <==> id in ViewOfTenant(db, b).roles;
    assert RoleIn(after, b, id) <==> id in ViewOfTenant(after, b).roles;
  }

  lemma SameGrants(b: TenantId, db: Db, after: Db, g: (RoleId, string))
    requires ViewOfTenant(db, b) == ViewOfTenant(after, b)
    ensures RoleIn(db, b, g.0) ==> (g in db.grants <==> g in after.grants)
  {
    SameRoles(b, db, after, g.0);
    assert g in ViewOfTenant(db, b).grants <==> g in ViewOfTenant(after, b).grants;
  }

  lemma SameAssignments(b: TenantId, db: Db, after: Db, id: AssignmentId)
    requires ViewOfTenant(db, b).assignments == ViewOfTenant(after, b).assignments
    ensures AssignedIn(db, b, id) <==> AssignedIn(after, b, id)
    ensures AssignedIn(db, b, id) ==> db.assignments[id] == after.assignments[id]
  {
    assert AssignedIn(db, b, id) <==> id in ViewOfTenant(db, b).assignments;
    assert AssignedIn(after, b, id) <==> id in ViewOfTenant(after, b).assignments;
  }

  /** The assignments `ids` and all they grant are the same in both states. */
  ghost predicate SameGranted(db: Db, after: Db, ids: set<AssignmentId>) {
    forall id :: id in ids ==>
      && id in db.assignments && id in after.assignments && after.assignments[id] == db.assignments[id]
      && db.assignments[id].roleId in db.roles && db.assignments[id].roleId in after.roles
      && db.roles[db.assignments[id].roleId] == after.roles[db.assignments[id].roleId]
      && (forall code ::
            (db.assignments[id].roleId, code) in db.grants <==> (db.assignments[id].roleId, code) in after.grants)
  }

  lemma SameActiveAssignments(b: TenantId, db: Db, after: Db, userId: UserId)
    requires ViewOfTenant(db, b) == ViewOfTenant(after, b)
    ensures ActiveAssignments(after, b, userId) == ActiveAssignments(db, b, userId)
    ensures SameGranted(db, after, AssignmentsIn(db, b, userId))
  {
    hide ViewOfTenant;
    SameUsers(b, db, after, userId);
    forall id
      ensures id in AssignmentsIn(db, b, userId) <==> id in AssignmentsIn(after, b, userId)
      ensures id in AssignmentsIn(db, b, userId) ==> SameGranted(db, after, {id})
    {
      SameAssignments(b, db, after, id);
      if AssignedIn(db, b, id) {
        var roleId := db.assignments[id].roleId;
        SameRoles(b, db, after, roleId);
        forall code ensures (roleId, code) in db.grants <==> (roleId, code) in after.grants {
          SameGrants(b, db, after, (roleId, code));
        }
      }
    }
    assert AssignmentsIn(after, b, userId) == AssignmentsIn(db, b, userId);
  }

  lemma SameCodes(db: Db, after: Db, ids: set<AssignmentId>)
    requires SameGranted(db, after, ids)
    ensures CodesOf(after, ids) == CodesOf(db, ids) && RolesOf(after, ids) == RolesOf(db, ids)
  {
  }

  lemma SameViewSameDecisions(b: TenantId, db: Db, after: Db, userId: UserId, value: string,
                              warehouse: Option<IdText>)
    requires ViewOfTenant(db, b) == ViewOfTenant(after, b)
    requires FindSystemAdmin(db, Some(userId)) <==> FindSystemAdmin(after, Some(userId))
    ensures CheckPermission(after, Some(b), userId, value, warehouse)
         == CheckPermission(db, Some(b), userId, value, warehouse)
    ensures !FindSystemAdmin(db, Some(userId)) ==> Summarize(after, Some(b), userId) == Summarize(db, Some(b), userId)
  {
    hide CodeFrom, Trim, RolesOf, CodesOf, ViewOfTenant, FindSystemAdmin, IsSystemCode;
    SameActiveAssignments(b, db, after, userId);
    SameCodes(db, after, AssignmentsIn(db, b, userId));
  }

  // ---- Calls outside the tenant ----

  /** A token call, or a call that is not made in the context of `b`. */
  predicate Foreign(call: Call, b: TenantId) {
    OnTokensOnly(call) || call.tenant != Some(b)
  }

  lemma ForeignRoleCreation(b: TenantId, db: Db, tenant: Option<TenantId>, id: RoleId, code: string, name: string,
                            description: Option<string>)
    requires GrantsAreTenantPermissions(db) && AssignmentsStayInTenant(db) && tenant != Some(b) && id !in db.roles
    requires CreateRole(db, tenant, id, code, name, description).Ok?
    ensures SameFor(b, db, CreateRole(db, tenant, id, code, name, description).value)
  {
    hide CodeTaken, IsPermissionCode, IsSystemCode;
    var after := CreateRole(db, tenant, id, code, name, description).value;
    assert forall other :: RoleIn(db, b, other) <==> RoleIn(after, b, other);
    assert ViewOfTenant(db, b).grants == ViewOfTenant(after, b).grants;
  }

  lemma ForeignRoleUpdate(b: TenantId, db: Db, tenant: Option<TenantId>, given: IdText, change: RoleChange)
    requires tenant != Some(b) && UpdateRole(db, tenant, given, change).Ok?
    ensures SameFor(b, db, UpdateRole(db, tenant, given, change).value)
  {
    hide CodeTaken, Named;
    var after := UpdateRole(db, tenant, given, change).value;
    assert forall other :: RoleIn(db, b, other) <==> RoleIn(after, b, other);
    assert ViewOfTenant(db, b).roles == ViewOfTenant(after, b).roles;
  }

  lemma ForeignReplacement(b: TenantId, db: Db, tenant: Option<TenantId>, id: RoleId, values: seq<string>)
    requires tenant != Some(b) && ReplaceRolePermissions(db, tenant, id, values).Ok?
    ensures SameFor(b, db, ReplaceRolePermissions(db, tenant, id, values).value)
  {
    hide ReadPermissionCodes, IsSystemCode;
    var after := ReplaceRolePermissions(db, tenant, id, values).value;
    assert forall g: (RoleId, string) :: RoleIn(db, b, g.0) ==> (g in db.grants <==> g in after.grants);
    assert ViewOfTenant(db, b).grants == ViewOfTenant(after, b).grants;
  }

  lemma CatalogueDoesNotDecide(b: TenantId, db: Db, tenant: Option<TenantId>, value: string)
    requires CreatePermission(db, tenant, value).Ok?
    ensures SameFor(b, db, CreatePermission(db, tenant, value).value)
  {
    hide ReadPermissionCode;
  }

  lemma ForeignAssignment(b: TenantId, db: Db, bootstrap: UserId, tenant: Option<TenantId>, actor: Option<UserId>,
                          id: AssignmentId, a: Assignment)
    requires tenant != Some(b) && id !in db.assignments && AssignUserRole(db, bootstrap, tenant, actor, id, a).Ok?
    ensures SameFor(b, db, AssignUserRole(db, bootstrap, tenant, actor, id, a).value)
  {
    hide FindActorLevel;
    var after := AssignUserRole(db, bootstrap, tenant, actor, id, a).value;
    assert ViewOfTenant(db, b).assignments == ViewOfTenant(after, b).assignments;
  }

  lemma ForeignRemoval(b: TenantId, db: Db, tenant: Option<TenantId>, id: AssignmentId)
    requires tenant != Some(b) && RemoveUserRole(db, tenant, id).Ok?
    ensures SameFor(b, db, RemoveUserRole(db, tenant, id).value)
  {
  }

  /** Users change, but none of tenant `b` and no administrator. */
  lemma OtherUsersDoNotDecide(b: TenantId, db: Db, after: Db)
    requires after.roles == db.roles && after.grants == db.grants && after.assignments == db.assignments
    requires forall id :: UserIn(db, b, id) <==> UserIn(after, b, id)
    requires forall id :: UserIn(db, b, id) ==> UserIn(after, b, id) && after.users[id].status == db.users[id].status
    requires KeepsAdmins(db, after)
    ensures SameFor(b, db, after)
  {
    hide FindSystemAdmin;
    assert ViewOfTenant(db, b).users == ViewOfTenant(after, b).users;
  }

  lemma ForeignUserCreation(b: TenantId, db: Db, bootstrap: UserId, tenant: Option<TenantId>, actor: Option<UserId>,
                            id: UserId, u: NewUser)
    requires tenant != Some(b) && id !in db.users && CreateUser(db, bootstrap, tenant, actor, id, u).Ok?
    ensures SameFor(b, db, CreateUser(db, bootstrap, tenant, actor, id, u).value)
  {
    hide EmailTaken, SameFor;
    OtherUsersDoNotDecide(b, db, CreateUser(db, bootstrap, tenant, actor, id, u).value);
  }

  lemma ForeignUserUpdate(b: TenantId, db: Db, tenant: Option<TenantId>, actor: Option<UserId>, given: IdText,
                          email: Option<string>, displayName: Option<string>)
    requires UpdateUser(db, tenant, actor, given, email, displayName).Ok?
    ensures SameFor(b, db, UpdateUser(db, tenant, actor, given, email, displayName).value)
  {
    hide EmailTaken, SameFor, Named;
    OtherUsersDoNotDecide(b, db, UpdateUser(db, tenant, actor, given, email, displayName).value);
  }

  lemma ForeignStatus(b: TenantId, db: Db, tenant: Option<TenantId>, id: UserId, status: UserStatus, now: Time)
    requires tenant != Some(b) && UpdateUserStatus(db, tenant, id, status, now).Ok?
    ensures SameFor(b, db, UpdateUserStatus(db, tenant, id, status, now).value)
  {
    hide SameFor, Revoked;
    OtherUsersDoNotDecide(b, db, UpdateUserStatus(db, tenant, id, status, now).value);
  }

  lemma ForeignStep(c: Config, b: TenantId, db: Db, call: Call)
    requires RbacInv(db) && Foreign(call, b)
    ensures SameFor(b, db, Step(c, db, call))
  {
    hide SameFor, UsersAreTyped, RolesAreDistinct, GrantsAreTenantPermissions, AssignmentsStayInTenant,
         CreateRole, UpdateRole, ReplaceRolePermissions, CreatePermission, AssignUserRole, RemoveUserRole,
         CreateUser, UpdateUser, UpdateUserStatus, Login, Refresh, Revoke;
    TokensDoNotDecide(b, db, db.tokens);
    if Admissible(db, call) && Attempt(c, db, call).Ok? {
      match call {
        case RoleCreation(tenant, id, code, name, description) =>
          ForeignRoleCreation(b, db, tenant, id, code, name, description);
        case RoleUpdate(tenant, id, change) => ForeignRoleUpdate(b, db, tenant, id, change);
        case PermissionReplacement(tenant, id, values) => ForeignReplacement(b, db, tenant, id, values);
        case PermissionCreation(tenant, value) => CatalogueDoesNotDecide(b, db, tenant, value);
        case RoleAssignment(tenant, actor, id, a) => ForeignAssignment(b, db, c.bootstrap, tenant, actor, id, a);
        case RoleRemoval(tenant, id) => ForeignRemoval(b, db, tenant, id);
        case UserCreation(tenant, actor, id, user) => ForeignUserCreation(b, db, c.bootstrap, tenant, actor, id, user);
        case UserUpdate(tenant, actor, id, email, name) => ForeignUserUpdate(b, db, tenant, actor, id, email, name);
        case StatusChange(tenant, id, status, now) => ForeignStatus(b, db, tenant, id, status, now);
        case _ =>
          TokenCallsTouchTokensOnly(c, db, call);
          TokensDoNotDecide(b, db, Step(c, db, call).tokens);
      }
    }
  }

  lemma TokensDoNotDecide(b: TenantId, db: Db, tokens: seq<Token>)
    ensures SameFor(b, db, db.(tokens := tokens))
    ensures db.(tokens := db.tokens) == db
  {
  }

  lemma {:induction false} ForeignCallsKeepTheView(c: Config, b: TenantId, run: Run, k: nat, m: nat)
    requires ValidSeed(c) && IsRun(c, run) && k <= m < |run.states|
    requires forall i :: k <= i < m ==> Foreign(run.calls[i], b)
    ensures SameFor(b, run.states[k], run.states[m])
    decreases m
  {
    hide Step, ViewOfTenant, FindSystemAdmin, RbacInv, Foreign, ValidSeed;
    if k < m {
      ForeignCallsKeepTheView(c, b, run, k, m - 1);
      RunKeepsRbac(c, run, m - 1);
      assert StepAt(c, run, m - 1);
      ForeignStep(c, b, run.states[m - 1], run.calls[m - 1]);
    }
  }

  /** Whatever happens outside tenant `b`, in any number of calls, every `check` in `b` and
      every `summary` there, system administrators' excepted, stays the same: for all users
      there were, and for all others but those who were made system administrators. */
  lemma TenantsDoNotInterfere(c: Config, b: TenantId, run: Run, k: nat, m: nat,
                              userId: UserId, value: string, warehouse: Option<IdText>)
    requires ValidSeed(c) && IsRun(c, run) && k <= m < |run.states|
    requires forall i :: k <= i < m ==> Foreign(run.calls[i], b)
    requires userId in run.states[k].users || !FindSystemAdmin(run.states[m], Some(userId))
    ensures var db, after := run.states[k], run.states[m];
      && CheckPermission(after, Some(b), userId, value, warehouse)
         == CheckPermission(db, Some(b), userId, value, warehouse)
      && (!FindSystemAdmin(db, Some(userId)) ==> Summarize(after, Some(b), userId) == Summarize(db, Some(b), userId))
  {
    hide CheckPermission, Summarize, ViewOfTenant, Step;
    ForeignCallsKeepTheView(c, b, run, k, m);
    SameViewSameDecisions(b, run.states[k], run.states[m], userId, value, warehouse);
  }

  /** Who was made a system administrator since may do in `b` what no one said before. */
  lemma NewAdministratorsDecideAnew(db: Db, after: Db, b: TenantId, userId: UserId, code: string,
                                    warehouse: Option<IdText>)
    requires userId !in db.users && FindSystemAdmin(after, Some(userId)) && IsPermissionCode(code)
    ensures CheckPermission(db, Some(b), userId, code, warehouse) != Ok(true)
    ensures CheckPermission(after, Some(b), userId, code, warehouse) == Ok(true)
  {
    hide CodeFrom, Trim;
    PermissionCodeIsTrimmed(code);
  }
}
