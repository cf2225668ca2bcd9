// What account calls change, row by row, and what other calls answer because of it.
module AccountEffects {
  import opened Common
  import opened Text
  import opened AuthModel
  import opened AuthRuns
  import opened AuthDecisions

  // ---- Roles and the catalogue ----

  /** A role's code is free in the tenant but for the role itself. */
  ghost predicate FreeCode(db: Db, tenantId: TenantId, code: string, own: RoleId) {
    && code != "system_admin"
    && forall id :: id in db.roles && id != own && db.roles[id].tenantId == tenantId ==> db.roles[id].code != code
  }

  /** A role is created exactly if its code is free in the tenant, with the requested values
      and no permission or assignment; nothing else changes. */
  lemma RoleCreationIsExact(db: Db, tenant: Option<TenantId>, id: RoleId, code: string, name: string,
                            description: Option<string>)
    requires RbacInv(db) && id !in db.roles
    ensures var r := CreateRole(db, tenant, id, code, name, description);
      && (r.Ok? <==> tenant.Some? && FreeCode(db, tenant.value, code, id))
      && (r.Ok? ==>
            && r.value.(roles := db.roles, log := db.log) == db
            && r.value.roles.Keys == db.roles.Keys + {id}
            && (forall other :: other in db.roles ==> r.value.roles[other] == db.roles[other])
            && r.value.roles[id].tenantId == tenant.value && r.value.roles[id].code == code
            && r.value.roles[id].name == name && r.value.roles[id].description == description
            && r.value.log == db.log + [RoleCreated(tenant.value, id, code)]
            && (forall g :: g in r.value.grants ==> g.0 != id)
            && (forall a :: a in r.value.assignments ==> r.value.assignments[a].roleId != id))
  {
    hide IsPermissionCode, IsSystemCode, UsersAreTyped, RolesAreDistinct;
    if tenant.Some? && CodeTaken(db, tenant.value, code, None) {
      var other :| other in db.roles && RoleIn(db, tenant.value, other) && db.roles[other].code == code;
      assert other != id;
    }
  }

  /** The fields an event names: those the request changes. */
  predicate NamesChanged(fields: set<string>, change: RoleChange) {
    && ("code" in fields <==> change.code.Some?) && ("name" in fields <==> change.name.Some?)
    && ("description" in fields <==> change.description.Some?)
    && fields <= {"code", "name", "description"}
  }

  /** A role of the tenant is updated exactly if something is asked for and the code asked for
      is free, for which the role's own counts only if its id is written in lower case; what
      is not asked for stays, as does everything else. */
  lemma RoleUpdateIsExact(db: Db, tenantId: TenantId, given: IdText, change: RoleChange)
    ensures var r, id := UpdateRole(db, Some(tenantId), given, change), given.id;
      && (r.Ok? <==>
            && id in db.roles && db.roles[id].tenantId == tenantId
            && (change.code.Some? || change.name.Some? || change.description.Some?)
            && (change.code.Some? ==>
                  FreeCode(db, tenantId, change.code.value, id)
                  && (given.lower || change.code.value != db.roles[id].code)))
      && (r.Ok? ==>
            && r.value.(roles := db.roles, log := db.log) == db
            && (exists fields ::
                  NamesChanged(fields, change) && r.value.log == db.log + [RoleUpdated(tenantId, id, fields)])
            && r.value.roles.Keys == db.roles.Keys
            && (forall other :: other in db.roles && other != id ==> r.value.roles[other] == db.roles[other])
            && var before, after := db.roles[id], r.value.roles[id];
              && after.tenantId == tenantId
              && after.code == (if change.code.Some? then change.code.value else before.code)
              && after.name == (if change.name.Some? then change.name.value else before.name)
              && after.description
                 == if change.description.Some? then change.description.value else before.description)
  {
    if change.code.Some? && CodeTaken(db, tenantId, change.code.value, Written(given)) {
      var other :| other in db.roles && RoleIn(db, tenantId, other) && db.roles[other].code == change.code.value
        && Some(other) != Written(given);
      assert db.roles[other].tenantId == tenantId;
    }
    if RoleIn(db, tenantId, given.id) && change.code == Some(db.roles[given.id].code) && !given.lower {
      assert CodeTaken(db, tenantId, db.roles[given.id].code, Written(given));
    }
    var fields := Named(change.code, "code") + Named(change.name, "name") + Named(change.description, "description");
    assert NamesChanged(fields, change);
  }

  lemma CatalogueIsExact(db: Db, tenant: Option<TenantId>, value: string)
    ensures var r := CreatePermission(db, tenant, value);
      && (r.Ok? <==> tenant.Some? && IsPermissionCode(Trim(value)) && Trim(value) !in db.permissions)
      && (r.Ok? ==> r.value.(log := db.log, permissions := db.permissions) == db
                    && r.value.permissions == db.permissions + {Trim(value)}
                    && r.value.log == db.log + [PermissionCreated(tenant.value, Trim(value))])
  {
  }

  // ---- Replacing a role's permissions ----

  /** `code` is one of the requested values, as they are trimmed. */
  predicate Requested(values: seq<string>, code: string) {
    exists i :: 0 <= i < |values| && Trim(values[i]) == code
  }

  /** A value a tenant role may be given. */
  predicate IsTenantPermission(db: Db, value: string) {
    IsPermissionCode(Trim(value)) && !("system." <= Trim(value)) && Trim(value) in db.permissions
  }

  lemma {:induction false} CodesAreRequested(values: seq<string>)
    ensures ReadPermissionCodes(values).Ok? <==> forall i :: 0 <= i < |values| ==> IsPermissionCode(Trim(values[i]))
    ensures ReadPermissionCodes(values).Ok? ==>
      forall code :: code in ReadPermissionCodes(values).value <==> Requested(values, code)
  {
    hide IsPermissionCode, Trim;
    if values != [] {
      var last := |values| - 1;
      CodesAreRequested(values[..last]);
      forall code ensures Requested(values, code) <==> Requested(values[..last], code) || Trim(values[last]) == code {
        if Requested(values[..last], code) {
          var i :| 0 <= i < last && Trim(values[..last][i]) == code;
          assert Trim(values[i]) == code;
        }
        if Requested(values, code) && Trim(values[last]) != code {
          var i :| 0 <= i < |values| && Trim(values[i]) == code;
          assert values[..last][i] == values[i];
        }
      }
      if forall i :: 0 <= i < |values| ==> IsPermissionCode(Trim(values[i])) {
        assert forall i :: 0 <= i < last ==> values[..last][i] == values[i];
      }
      if ReadPermissionCodes(values).Ok? {
        forall i | 0 <= i < |values| ensures IsPermissionCode(Trim(values[i])) {
          assert i < last ==> values[..last][i] == values[i];
        }
      }
    }
  }

  /** A replacement goes through exactly if every value is a catalogue code outside `system.`
      and the role is the tenant's; then the role has exactly the requested codes, and every
      other role those it had. */
  lemma ReplacementIsExact(db: Db, tenant: Option<TenantId>, id: RoleId, values: seq<string>)
    ensures var r := ReplaceRolePermissions(db, tenant, id, values);
      && (r.Ok? <==>
            && tenant.Some? && RoleIn(db, tenant.value, id)
            && forall i :: 0 <= i < |values| ==> IsTenantPermission(db, values[i]))
      && (r.Ok? ==>
            && r.value.(grants := db.grants, log := db.log) == db
            && (exists codes :: (forall code :: code in codes <==> Requested(values, code))
                  && r.value.log == db.log + [PermissionsReplaced(tenant.value, id, codes)])
            && forall role, code :: (role, code) in r.value.grants <==>
                 if role == id then Requested(values, code) else (role, code) in db.grants)
  {
    hide IsPermissionCode, Trim;
    CodesAreRequested(values);
    var r := ReplaceRolePermissions(db, tenant, id, values);
    if r.Ok? {
      forall i | 0 <= i < |values| ensures IsTenantPermission(db, values[i]) {
        assert Requested(values, Trim(values[i]));
      }
    } else if tenant.Some? && RoleIn(db, tenant.value, id) && ReadPermissionCodes(values).Ok? {
      var codes := ReadPermissionCodes(values).value;
      assert exists code :: code in codes && (IsSystemCode(code) || code !in db.permissions);
      var code :| code in codes && (IsSystemCode(code) || code !in db.permissions);
      var i :| 0 <= i < |values| && Trim(values[i]) == code;
      assert !IsTenantPermission(db, values[i]);
    }
  }

  /** An assignment of the user in the tenant that covers the request. */
  predicate Covers(db: Db, tenantId: TenantId, userId: UserId, warehouse: Option<IdText>, id: AssignmentId) {
    && id in db.assignments && db.assignments[id].userId == userId
    && db.assignments[id].roleId in db.roles && db.roles[db.assignments[id].roleId].tenantId == tenantId
    && (db.assignments[id].warehouseId.None?
        || (warehouse.Some? && warehouse.value.lower && db.assignments[id].warehouseId == Some(warehouse.value.id)))
  }

  /** After a replacement `check` says yes exactly if a covering assignment is of that role
      and the code was requested, or of another role that had it: it no longer says yes to a
      dropped code that no other role of the user carries. */
  lemma ReplacementDecides(db: Db, tenantId: TenantId, id: RoleId, values: seq<string>, userId: UserId, value: string,
                           warehouse: Option<IdText>)
    requires RbacInv(db) && ReplaceRolePermissions(db, Some(tenantId), id, values).Ok?
    requires UserIn(db, tenantId, userId) && db.users[userId].status == Active
    ensures var after := ReplaceRolePermissions(db, Some(tenantId), id, values).value;
      CheckPermission(after, Some(tenantId), userId, value, warehouse) == Ok(true) <==>
        exists a :: Covers(db, tenantId, userId, warehouse, a)
          && if db.assignments[a].roleId == id then Requested(values, Trim(value))
             else (db.assignments[a].roleId, Trim(value)) in db.grants
  {
    hide RbacInv, Trim, IsPermissionCode, CheckPermission, ReplaceRolePermissions, Requested;
    var after := ReplaceRolePermissions(db, Some(tenantId), id, values).value;
    ReplacementIsExact(db, Some(tenantId), id, values);
    ReplacementKeepsRbac(db, Some(tenantId), id, values);
    CheckMeaning(after, tenantId, userId, value, warehouse);
    if Granted(after, tenantId, userId, Trim(value), warehouse) {
      var a :| a in db.assignments && db.assignments[a].userId == userId
        && RoleIn(db, tenantId, db.assignments[a].roleId) && (db.assignments[a].roleId, Trim(value)) in after.grants
        && (db.assignments[a].warehouseId.None?
            || (warehouse.Some? && SameText(db.assignments[a].warehouseId, warehouse.value)));
      assert RoleIn(db, tenantId, db.assignments[a].roleId);
      assert db.assignments[a].warehouseId.Some? ==> SameText(db.assignments[a].warehouseId, warehouse.value);
      assert Covers(db, tenantId, userId, warehouse, a);
    }
  }

  // ---- Assigning and removing roles ----

  /** A new assignment changes nothing else; `check` then says yes to what it said before and,
      to its user and where it covers the request, to the role's codes. */
  lemma AssignmentDecides(db: Db, bootstrap: UserId, tenantId: TenantId, actor: Option<UserId>, id: AssignmentId,
                          a: Assignment, userId: UserId, value: string, warehouse: Option<IdText>)
    requires RbacInv(db) && id !in db.assignments && AssignUserRole(db, bootstrap, Some(tenantId), actor, id, a).Ok?
    requires UserIn(db, tenantId, userId) && db.users[userId].status == Active
    ensures var after := AssignUserRole(db, bootstrap, Some(tenantId), actor, id, a).value;
      && after.(assignments := db.assignments, log := db.log) == db && after.assignments - {id} == db.assignments
      && a.roleId in db.roles
      && after.log
         == db.log + [RoleAssigned(tenantId, id, a.userId, a.roleId, db.roles[a.roleId].code, a.warehouseId)]
      && (CheckPermission(after, Some(tenantId), userId, value, warehouse) == Ok(true) <==>
            || CheckPermission(db, Some(tenantId), userId, value, warehouse) == Ok(true)
            || (userId == a.userId && (a.roleId, Trim(value)) in db.grants
                && (a.warehouseId.None?
                    || (warehouse.Some? && warehouse.value.lower && a.warehouseId == Some(warehouse.value.id)))))
  {
    hide RbacInv, Trim, IsPermissionCode, CheckPermission, FindActorLevel;
    var after := AssignUserRole(db, bootstrap, Some(tenantId), actor, id, a).value;
    AssignmentKeepsRbac(db, bootstrap, Some(tenantId), actor, id, a);
    CheckMeaning(db, tenantId, userId, value, warehouse);
    CheckMeaning(after, tenantId, userId, value, warehouse);
    GrantedByOneMore(db, after, id, tenantId, userId, Trim(value), warehouse);
  }

  lemma GrantedByOneMore(db: Db, after: Db, id: AssignmentId, tenantId: TenantId, userId: UserId, code: string,
                         warehouse: Option<IdText>)
    requires id !in db.assignments && id in after.assignments && after.assignments - {id} == db.assignments
    requires after.roles == db.roles && after.grants == db.grants
    ensures var a := after.assignments[id];
      Granted(after, tenantId, userId, code, warehouse) <==>
        || Granted(db, tenantId, userId, code, warehouse)
        || (userId == a.userId && RoleIn(db, tenantId, a.roleId) && (a.roleId, code) in db.grants
            && (a.warehouseId.None?
                || (warehouse.Some? && warehouse.value.lower && a.warehouseId == Some(warehouse.value.id))))
  {
    assert forall other :: other in after.assignments <==> other in db.assignments || other == id;
    assert forall other :: other in db.assignments ==> after.assignments[other] == (after.assignments - {id})[other];
  }

  /** A removal takes away its assignment and changes nothing else; `check` then says yes to
      what some other assignment covers. */
  lemma RemovalDecides(db: Db, tenantId: TenantId, id: AssignmentId, userId: UserId, value: string,
                       warehouse: Option<IdText>)
    requires RbacInv(db) && RemoveUserRole(db, Some(tenantId), id).Ok?
    requires UserIn(db, tenantId, userId) && db.users[userId].status == Active
    ensures var after := RemoveUserRole(db, Some(tenantId), id).value;
      && after.(assignments := db.assignments, log := db.log) == db && after.assignments == db.assignments - {id}
      && id in db.assignments && db.assignments[id].roleId in db.roles
      && var a := db.assignments[id];
      && after.log
         == db.log + [RoleRemoved(tenantId, id, a.userId, a.roleId, db.roles[a.roleId].code, a.warehouseId)]
      && (CheckPermission(after, Some(tenantId), userId, value, warehouse) == Ok(true) <==>
            exists a :: a != id && Covers(db, tenantId, userId, warehouse, a)
              && (db.assignments[a].roleId, Trim(value)) in db.grants)
  {
    hide RbacInv, Trim, IsPermissionCode, CheckPermission;
    var after := RemoveUserRole(db, Some(tenantId), id).value;
    RemovalKeepsRbac(db, Some(tenantId), id);
    CheckMeaning(after, tenantId, userId, value, warehouse);
    if Granted(after, tenantId, userId, Trim(value), warehouse) {
      var a :| a in after.assignments && after.assignments[a].userId == userId
        && RoleIn(after, tenantId, after.assignments[a].roleId)
        && (after.assignments[a].roleId, Trim(value)) in after.grants
        && (after.assignments[a].warehouseId.None?
            || (warehouse.Some? && SameText(after.assignments[a].warehouseId, warehouse.value)));
      assert Covers(db, tenantId, userId, warehouse, a);
    }
    if a :| a != id && Covers(db, tenantId, userId, warehouse, a)
            && (db.assignments[a].roleId, Trim(value)) in db.grants
    {
      assert a in after.assignments && RoleIn(after, tenantId, after.assignments[a].roleId);
    }
  }

  /** Removal is possible exactly for an assignment of a role of the tenant. */
  lemma RemovalAcceptedIff(db: Db, tenant: Option<TenantId>, id: AssignmentId)
    requires RbacInv(db)
    ensures RemoveUserRole(db, tenant, id).Ok? <==>
      tenant.Some? && id in db.assignments && db.users[db.assignments[id].userId].tenantId == tenant
  {
    hide UsersAreTyped, RolesAreDistinct, GrantsAreTenantPermissions;
  }

  /** Removing what was just assigned leaves every table as it was. */
  lemma RemovalUndoesAssignment(db: Db, bootstrap: UserId, tenant: Option<TenantId>, actor: Option<UserId>,
                                id: AssignmentId, a: Assignment)
    requires id !in db.assignments && AssignUserRole(db, bootstrap, tenant, actor, id, a).Ok?
    ensures var removed := RemoveUserRole(AssignUserRole(db, bootstrap, tenant, actor, id, a).value, tenant, id);
      removed.Ok? && removed.value.(log := db.log) == db
  {
    hide FindActorLevel;
    var after := AssignUserRole(db, bootstrap, tenant, actor, id, a).value;
    assert after.assignments - {id} == db.assignments;
  }

  // ---- Who may not ask ----

  /** How `check` refuses, in its order: a malformed code, no tenant, a system code, a user of
      another tenant, a user who is not active. An active system administrator is refused
      for a malformed code alone. */
  lemma CheckRefusals(db: Db, tenant: Option<TenantId>, userId: UserId, value: string, warehouse: Option<IdText>)
    requires RbacInv(db)
    ensures var r := CheckPermission(db, tenant, userId, value, warehouse);
      if !IsPermissionCode(Trim(value)) then r == Err(ValidationFailed)
      else if userId in db.users && db.users[userId].userType == SystemAdmin && db.users[userId].status == Active then
        r == Ok(true)
      else if tenant.None? then r == Err(TenantRequired)
      else if "system." <= Trim(value) then r == Err(AdminScopeMismatch)
      else if userId !in db.users || db.users[userId].tenantId != tenant then r == Err(UserNotFound)
      else if db.users[userId].status != Active then r == Err(AccountLocked)
      else r.Ok?
  {
    hide IsPermissionCode, Trim, RolesAreDistinct, GrantsAreTenantPermissions, AssignmentsStayInTenant;
  }

  /** How `summary` and `me` refuse. */
  lemma ViewRefusals(db: Db, tenant: Option<IdText>, userId: UserId)
    requires RbacInv(db)
    ensures var r := Summarize(db, TenantOf(tenant), userId);
      if userId in db.users && db.users[userId].userType == SystemAdmin && db.users[userId].status == Active then r.Ok?
      else if tenant.None? then r == Err(TenantRequired)
      else if userId !in db.users || db.users[userId].tenantId != Some(tenant.value.id) then r == Err(UserNotFound)
      else if db.users[userId].status != Active then r == Err(AccountLocked)
      else r.Ok?
    ensures var r := Me(db, tenant, userId);
      if userId !in db.users then r == Err(UserNotFound)
      else if db.users[userId].status != Active then r == Err(AccountLocked)
      else if tenant.None? then if db.users[userId].userType == SystemAdmin then r.Ok? else r == Err(TenantRequired)
      else if tenant.value.lower && db.users[userId].tenantId == Some(tenant.value.id) then r.Ok?
      else r == Err(TenantMismatch)
  {
    hide RolesAreDistinct, GrantsAreTenantPermissions, AssignmentsStayInTenant, CodesOf, RolesOf;
  }

  /** An active system administrator may do everything and is shown the whole catalogue. */
  lemma AdministratorMayDoAll(db: Db, tenant: Option<TenantId>, userId: UserId)
    requires RbacInv(db) && userId in db.users
    requires db.users[userId].userType == SystemAdmin && db.users[userId].status == Active
    ensures Summarize(db, tenant, userId) == Ok(Everything(db.permissions))
    ensures Me(db, None, userId) == Ok(Everything(db.permissions))
    ensures forall warehouse, code :: code in db.permissions ==>
      CheckPermission(db, tenant, userId, code, warehouse) == Ok(true)
  {
    hide IsPermissionCode, IsSystemCode, Trim, RolesAreDistinct, AssignmentsStayInTenant;
    forall code | code in db.permissions ensures Trim(code) == code && IsPermissionCode(code) {
      PermissionCodeIsTrimmed(code);
    }
  }

  /** The summary's roles are those of the user's assignments in the tenant, each with its own
      role, code and warehouse. */
  lemma SummaryRolesAreAssigned(db: Db, tenantId: TenantId, userId: UserId, id: AssignmentId)
    requires RbacInv(db) && UserIn(db, tenantId, userId) && db.users[userId].status == Active
    ensures var summary := Summarize(db, Some(tenantId), userId);
      && summary.Ok? && summary.value.OfRoles?
      && (id in summary.value.roles <==> id in db.assignments && db.assignments[id].userId == userId)
      && (id in summary.value.roles ==>
            && summary.value.roles[id].roleId == db.assignments[id].roleId
            && summary.value.roles[id].code == db.roles[db.assignments[id].roleId].code
            && summary.value.roles[id].warehouseId == db.assignments[id].warehouseId)
  {
    hide RolesAreDistinct, GrantsAreTenantPermissions, CodesOf;
  }

  /** The user's summary shows the role of a tenant administrator. */
  ghost predicate ShowsTenantAdmin(db: Db, tenantId: TenantId, userId: UserId) {
    var summary := Summarize(db, Some(tenantId), userId);
    summary.Ok? && summary.value.OfRoles?
    && exists id :: id in summary.value.roles && summary.value.roles[id].code == "tenant_admin"
  }

  /** The level of an actor: super administrator, system administrator, an active user of the
      tenant whose summary shows the administrator role, or no more than a user. */
  lemma LevelMeaning(db: Db, bootstrap: UserId, actor: Option<UserId>, tenantId: TenantId)
    requires RbacInv(db)
    ensures var level := FindActorLevel(db, bootstrap, actor, tenantId);
      && (level.SuperAdmin? || level.PlainSystemAdmin? <==>
            && actor.Some? && actor.value in db.users && db.users[actor.value].userType == SystemAdmin
            && db.users[actor.value].status == Active)
      && (level.SuperAdmin? ==> actor == Some(bootstrap)) && (level.PlainSystemAdmin? ==> actor != Some(bootstrap))
      && (level.TenantAdmin? <==>
            actor.Some? && actor.value in db.users && db.users[actor.value].userType == GeneralUser
            && ShowsTenantAdmin(db, tenantId, actor.value))
  {
    hide GrantsAreTenantPermissions, RolesAreDistinct, CodesOf, HoldsTenantAdmin, ShowsTenantAdmin;
    if actor.Some? && actor.value in db.users && db.users[actor.value].userType == GeneralUser {
      HoldsAsShown(db, tenantId, actor.value);
    } else if actor.Some? {
      assert !HoldsTenantAdmin(db, tenantId, actor.value) by {
        AdministratorsHoldNoRole(db, tenantId, actor.value);
      }
    }
  }

  lemma HoldsAsShown(db: Db, tenantId: TenantId, userId: UserId)
    requires RbacInv(db) && userId in db.users && db.users[userId].userType == GeneralUser
    ensures HoldsTenantAdmin(db, tenantId, userId) <==> ShowsTenantAdmin(db, tenantId, userId)
  {
    hide GrantsAreTenantPermissions, RolesAreDistinct, CodesOf;
    if UserIn(db, tenantId, userId) && db.users[userId].status == Active {
      hide Summarize;
      forall id ensures
        var summary := Summarize(db, Some(tenantId), userId);
        && summary.Ok? && summary.value.OfRoles?
        && (id in summary.value.roles <==> id in db.assignments && db.assignments[id].userId == userId)
        && (id in summary.value.roles ==>
              summary.value.roles[id].code == db.roles[db.assignments[id].roleId].code)
      {
        SummaryRolesAreAssigned(db, tenantId, userId, id);
      }
    }
  }

  lemma AdministratorsHoldNoRole(db: Db, tenantId: TenantId, userId: UserId)
    requires userId !in db.users || db.users[userId].userType == SystemAdmin
    ensures !HoldsTenantAdmin(db, tenantId, userId)
  {
  }

  /** Without a tenant an active user of a tenant is let in as an administrator exactly if
      that tenant's summary shows the administrator role or one of five read permissions. */
  lemma EligibleIffShown(db: Db, tenantId: TenantId, userId: UserId)
    requires RbacInv(db) && UserIn(db, tenantId, userId) && db.users[userId].status == Active
    ensures IsAdminLoginEligible(db, userId) <==>
      || ShowsTenantAdmin(db, tenantId, userId)
      || "tenant.tenants.read" in Summarize(db, Some(tenantId), userId).value.permissions
      || "auth.users.read" in Summarize(db, Some(tenantId), userId).value.permissions
      || "auth.roles.read" in Summarize(db, Some(tenantId), userId).value.permissions
      || "auth.permissions.read" in Summarize(db, Some(tenantId), userId).value.permissions
      || "audit.logs.read" in Summarize(db, Some(tenantId), userId).value.permissions
  {
    hide GrantsAreTenantPermissions, RolesAreDistinct, HoldsTenantAdmin, ShowsTenantAdmin;
    HoldsAsShown(db, tenantId, userId);
    CarriesIff(db, tenantId, userId);
    TenantAdminIff(db, tenantId, userId);
    EligibleByParts(db, userId);
  }

  /** The user holds some assignment, in whichever tenant, of a role with this code. */
  predicate HasRole(db: Db, userId: UserId, code: string) {
    exists a | a in db.assignments ::
      db.assignments[a].userId == userId && db.assignments[a].roleId in db.roles
      && db.roles[db.assignments[a].roleId].code == code
  }

  predicate HasCode(db: Db, userId: UserId, code: string) {
    exists a | a in db.assignments :: db.assignments[a].userId == userId && db.assignments[a].roleId in db.roles
      && (db.assignments[a].roleId, code) in db.grants
  }

  lemma EligibleByParts(db: Db, userId: UserId)
    requires userId in db.users && db.users[userId].tenantId.Some?
    ensures IsAdminLoginEligible(db, userId) <==>
      || HasRole(db, userId, "tenant_admin")
      || HasCode(db, userId, "tenant.tenants.read") || HasCode(db, userId, "auth.users.read")
      || HasCode(db, userId, "auth.roles.read") || HasCode(db, userId, "auth.permissions.read")
      || HasCode(db, userId, "audit.logs.read")
  {
    forall code | code in ADMIN_LOGIN_PERMISSIONS && HasCode(db, userId, code)
      ensures IsAdminLoginEligible(db, userId)
    {
    }
  }

  lemma CarriesIff(db: Db, tenantId: TenantId, userId: UserId)
    requires RbacInv(db) && UserIn(db, tenantId, userId) && db.users[userId].status == Active
    ensures Summarize(db, Some(tenantId), userId).Ok?
    ensures forall code ::
      code in Summarize(db, Some(tenantId), userId).value.permissions <==> HasCode(db, userId, code)
  {
    hide RolesAreDistinct, GrantsAreTenantPermissions, RolesOf;
    var ids := AssignmentsIn(db, tenantId, userId);
    forall code ensures code in CodesOf(db, ids) <==> HasCode(db, userId, code) {
      if HasCode(db, userId, code) {
        var a :| a in db.assignments && db.assignments[a].userId == userId && db.assignments[a].roleId in db.roles
          && (db.assignments[a].roleId, code) in db.grants;
        assert a in ids && Carried(db, ids, (db.assignments[a].roleId, code).1);
      }
    }
  }

  lemma TenantAdminIff(db: Db, tenantId: TenantId, userId: UserId)
    requires RbacInv(db) && UserIn(db, tenantId, userId) && db.users[userId].status == Active
    ensures HasRole(db, userId, "tenant_admin") <==> HoldsTenantAdmin(db, tenantId, userId)
  {
    hide RolesAreDistinct, GrantsAreTenantPermissions;
  }
}
