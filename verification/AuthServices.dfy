// apps/auth-iam-service: the services, updating the tables in place. `Spec` says what each
// call does to the database as a whole; a call that throws changes nothing.
module AuthServices {
  import opened Common
  import opened Text
  import opened AuthModel
  import opened AccountEffects
  import Spec = AuthModel

  class Database {
    var users: map<UserId, User>
    var roles: map<RoleId, Role>
    var permissions: set<string>
    var grants: set<(RoleId, string)>
    var assignments: map<AssignmentId, Assignment>
    var tokens: seq<Token>
    var log: seq<AuthEvent>

    /** The tables as seeded, without tokens and events. */
    constructor (seed: Db)
      ensures State() == seed.(tokens := [], log := [])
    {
      users, roles, permissions := seed.users, seed.roles, seed.permissions;
      grants, assignments, tokens, log := seed.grants, seed.assignments, [], [];
    }

    function State(): Db
      reads this
    {
      Db(users, roles, permissions, grants, assignments, tokens, log)
    }

    /** outbox-event.service.ts, inside the caller's transaction. */
    method Record(event: AuthEvent)
      modifies this`log
      ensures log == old(log) + [event]
    {
      log := log + [event];
    }

    method FindSystemAdmin(userId: Option<UserId>) returns (r: bool)
      ensures r == Spec.FindSystemAdmin(State(), userId)
    {
      if userId.None? || userId.value !in users {
        return false;
      }
      var user := users[userId.value];
      return user.userType == SystemAdmin && user.tenantId.None? && user.status == Active;
    }
  }

  /** Collects assignment by assignment, in any order. */
  method CollectPermissionCodes(db: Database, ids: set<AssignmentId>) returns (codes: set<string>)
    requires ids <= db.assignments.Keys
    ensures codes == CodesOf(db.State(), ids)
  {
    codes := {};
    var rest := ids;
    while rest != {}
      invariant rest <= ids
      invariant codes == CodesOf(db.State(), ids - rest)
      decreases rest
    {
      var id :| id in rest;
      var roleId := db.assignments[id].roleId;
      CodesOfOneMore(db.State(), ids - rest, id);
      codes := codes + set g | g in db.grants && g.0 == roleId :: g.1;
      assert ids - (rest - {id}) == (ids - rest) + {id};
      rest := rest - {id};
    }
    assert ids - rest == ids;
  }

  class RbacService {
    const db: Database
    const bootstrap: UserId

    constructor (db: Database, bootstrap: UserId)
      ensures this.db == db && this.bootstrap == bootstrap
    {
      this.db, this.bootstrap := db, bootstrap;
    }

    method CreateRole(tenant: Option<TenantId>, id: RoleId, code: string, name: string, description: Option<string>)
      returns (r: Result<Role, AuthError>)
      requires id !in db.roles
      modifies db
      ensures match Spec.CreateRole(old(db.State()), tenant, id, code, name, description)
        case Err(e) => r == Err(e) && db.State() == old(db.State())
        case Ok(after) => db.State() == after && r == Ok(after.roles[id])
    {
      if tenant.None? {
        return Err(TenantRequired);
      }
      if code == "system_admin" {
        return Err(AdminScopeMismatch);
      }
      if exists other | other in db.roles :: db.roles[other].tenantId == tenant.value && db.roles[other].code == code {
        return Err(RoleCodeConflict);
      }
      var role := Role(tenant.value, code, name, description);
      db.roles := db.roles[id := role];
      db.Record(RoleCreated(tenant.value, id, role.code));
      return Ok(role);
    }

    method UpdateRole(tenant: Option<TenantId>, given: IdText, change: RoleChange) returns (r: Result<Role, AuthError>)
      modifies db
      ensures match Spec.UpdateRole(old(db.State()), tenant, given, change)
        case Err(e) => r == Err(e) && db.State() == old(db.State())
        case Ok(after) => db.State() == after && given.id in after.roles && r == Ok(after.roles[given.id])
    {
      var id := given.id;
      if tenant.None? {
        return Err(TenantRequired);
      }
      if change == RoleChange(None, None, None) {
        return Err(ValidationFailed);
      }
      if id !in db.roles || db.roles[id].tenantId != tenant.value {
        return Err(RoleNotFound);
      }
      if change.code.Some? {
        if change.code.value == "system_admin" {
          return Err(AdminScopeMismatch);
        }
        if exists other | other in db.roles ::
            db.roles[other].tenantId == tenant.value && db.roles[other].code == change.code.value
            && !SameText(Some(other), given) {
          assert CodeTaken(db.State(), tenant.value, change.code.value, Written(given));
          return Err(RoleCodeConflict);
        }
        assert !CodeTaken(db.State(), tenant.value, change.code.value, Written(given));
      }
      var role, fields: set<string> := db.roles[id], {};
      if change.code.Some? {
        role, fields := role.(code := change.code.value), fields + {"code"};
      }
      if change.name.Some? {
        role, fields := role.(name := change.name.value), fields + {"name"};
      }
      if change.description.Some? {
        role, fields := role.(description := change.description.value), fields + {"description"};
      }
      assert fields
         == Named(change.code, "code") + Named(change.name, "name") + Named(change.description, "description");
      db.roles := db.roles[id := role];
      db.Record(RoleUpdated(tenant.value, id, fields));
      return Ok(role);
    }

    static method ReadCodes(values: seq<string>) returns (r: Result<set<string>, AuthError>)
      ensures r == ReadPermissionCodes(values)
    {
      var codes: set<string> := {};
      for i := 0 to |values|
        invariant ReadPermissionCodes(values[..i]) == Ok(codes)
      {
        assert values[..i + 1][..i] == values[..i];
        var code := ReadPermissionCode(values[i]);
        if code.Err? {
          BadCodeSpoilsTheList(values, i + 1);
          return Err(ValidationFailed);
        }
        codes := codes + {code.value};
      }
      assert values[..|values|] == values;
      return Ok(codes);
    }

    method ReplaceRolePermissions(tenant: Option<TenantId>, id: RoleId, values: seq<string>)
      returns (r: Result<set<string>, AuthError>)
      modifies db
      ensures match Spec.ReplaceRolePermissions(old(db.State()), tenant, id, values)
        case Err(e) => r == Err(e) && db.State() == old(db.State())
        case Ok(after) => db.State() == after && r == Ok(set g | g in after.grants && g.0 == id :: g.1)
      ensures r.Ok? ==>
        && (forall code :: code in r.value <==> (id, code) in db.grants)
        && (forall code :: (id, code) in db.grants <==> Requested(values, code))
        && (forall role, code :: role != id ==> ((role, code) in db.grants <==> (role, code) in old(db.grants)))
    {
      hide Requested;
      CodesAreRequested(values);
      if tenant.None? {
        return Err(TenantRequired);
      }
      var read := ReadCodes(values);
      if read.Err? {
        return Err(read.error);
      }
      var codes := read.value;
      if exists code | code in codes :: IsSystemCode(code) {
        return Err(AdminScopeMismatch);
      }
      if id !in db.roles || db.roles[id].tenantId != tenant.value {
        return Err(RoleNotFound);
      }
      var missing := set code | code in codes && code !in db.permissions;
      if missing != {} {
        assert !(codes <= db.permissions);
        return Err(ValidationFailed);
      }
      assert forall code :: code in codes && code !in db.permissions ==> code in missing;
      db.grants := set g | g in db.grants && g.0 != id;
      db.grants := db.grants + set code | code in codes :: (id, code);
      db.Record(PermissionsReplaced(tenant.value, id, codes));
      return Ok(set g | g in db.grants && g.0 == id :: g.1);
    }

    method FindActorLevel(actor: Option<UserId>, tenantId: TenantId) returns (level: ActorLevel)
      ensures level == Spec.FindActorLevel(db.State(), bootstrap, actor, tenantId)
    {
      if actor.None? {
        return TenantUser;
      }
      var systemAdmin := db.FindSystemAdmin(actor);
      if actor.value == bootstrap && systemAdmin {
        return SuperAdmin;
      }
      if systemAdmin {
        return PlainSystemAdmin;
      }
      var userId := actor.value;
      var holds := exists id | id in db.assignments ::
        var a := db.assignments[id];
        && a.userId == userId && a.roleId in db.roles
        && db.roles[a.roleId].code == "tenant_admin" && db.roles[a.roleId].tenantId == tenantId
        && userId in db.users && db.users[userId].tenantId == Some(tenantId)
        && db.users[userId].status == Active && db.users[userId].userType == GeneralUser;
      return if holds then TenantAdmin else TenantUser;
    }

    method AssignUserRole(tenant: Option<TenantId>, actor: Option<UserId>, id: AssignmentId, a: Assignment)
      returns (r: Result<RoleView, AuthError>)
      requires id !in db.assignments
      modifies db
      ensures match Spec.AssignUserRole(old(db.State()), bootstrap, tenant, actor, id, a)
        case Err(e) => r == Err(e) && db.State() == old(db.State())
        case Ok(after) =>
          db.State() == after && a.roleId in after.roles
          && r == Ok(RoleView(a.roleId, after.roles[a.roleId].code, a.warehouseId))
    {
      if tenant.None? {
        return Err(TenantRequired);
      }
      if a.userId !in db.users || db.users[a.userId].tenantId != tenant {
        return Err(UserNotFound);
      }
      if a.roleId !in db.roles || db.roles[a.roleId].tenantId != tenant.value {
        return Err(RoleNotFound);
      }
      var code := db.roles[a.roleId].code;
      if code == "tenant_admin" {
        if a.warehouseId.Some? {
          return Err(AdminScopeMismatch);
        }
        var level := FindActorLevel(actor, tenant.value);
        if level == TenantAdmin || level == TenantUser {
          return Err(AdminScopeMismatch);
        }
      }
      if exists other | other in db.assignments :: db.assignments[other] == a {
        return Err(UserRoleConflict);
      }
      db.assignments := db.assignments[id := a];
      db.Record(RoleAssigned(tenant.value, id, a.userId, a.roleId, code, a.warehouseId));
      return Ok(RoleView(a.roleId, code, a.warehouseId));
    }

    method RemoveUserRole(tenant: Option<TenantId>, id: AssignmentId) returns (r: Result<bool, AuthError>)
      modifies db
      ensures match Spec.RemoveUserRole(old(db.State()), tenant, id)
        case Err(e) => r == Err(e) && db.State() == old(db.State())
        case Ok(after) => db.State() == after && r == Ok(true)
    {
      if tenant.None? {
        return Err(TenantRequired);
      }
      if id !in db.assignments {
        return Err(UserRoleNotFound);
      }
      var a := db.assignments[id];
      if a.roleId !in db.roles || db.roles[a.roleId].tenantId != tenant.value {
        return Err(UserRoleNotFound);
      }
      db.assignments := db.assignments - {id};
      db.Record(RoleRemoved(tenant.value, id, a.userId, a.roleId, db.roles[a.roleId].code, a.warehouseId));
      return Ok(true);
    }

    method GetActiveUserAssignments(tenantId: TenantId, userId: UserId)
      returns (r: Result<set<AssignmentId>, AuthError>)
      ensures r == ActiveAssignments(db.State(), tenantId, userId)
    {
      if userId !in db.users || db.users[userId].tenantId != Some(tenantId) {
        return Err(UserNotFound);
      }
      if db.users[userId].status != Active {
        return Err(AccountLocked);
      }
      var ids := set id | id in db.assignments && db.assignments[id].userId == userId
                          && db.assignments[id].roleId in db.roles
                          && db.roles[db.assignments[id].roleId].tenantId == tenantId;
      assert ids == AssignmentsIn(db.State(), tenantId, userId);
      return Ok(ids);
    }

    method Summarize(tenant: Option<TenantId>, userId: UserId) returns (r: Result<Summary, AuthError>)
      ensures r == Spec.Summarize(db.State(), tenant, userId)
    {
      var systemAdmin := db.FindSystemAdmin(Some(userId));
      if systemAdmin {
        return Ok(Everything(db.permissions));
      }
      if tenant.None? {
        return Err(TenantRequired);
      }
      var ids := GetActiveUserAssignments(tenant.value, userId);
      if ids.Err? {
        return Err(ids.error);
      }
      var codes := CollectPermissionCodes(db, ids.value);
      return Ok(OfRoles(
        map id | id in ids.value && id in db.assignments && db.assignments[id].roleId in db.roles ::
          RoleView(db.assignments[id].roleId, db.roles[db.assignments[id].roleId].code, db.assignments[id].warehouseId),
        codes));
    }

    method Check(tenant: Option<TenantId>, userId: UserId, permission: string, warehouse: Option<IdText>)
      returns (r: Result<bool, AuthError>)
      ensures r == CheckPermission(db.State(), tenant, userId, permission, warehouse)
    {
      var code := ReadPermissionCode(permission);
      if code.Err? {
        return Err(code.error);
      }
      var systemAdmin := db.FindSystemAdmin(Some(userId));
      if systemAdmin {
        return Ok(true);
      }
      if tenant.None? {
        return Err(TenantRequired);
      }
      if IsSystemCode(code.value) {
        return Err(AdminScopeMismatch);
      }
      var ids := GetActiveUserAssignments(tenant.value, userId);
      if ids.Err? {
        return Err(ids.error);
      }
      return Ok(exists id | id in ids.value ::
        id in db.assignments && ScopeCovers(db.assignments[id].warehouseId, warehouse)
        && (db.assignments[id].roleId, code.value) in db.grants);
    }
  }

  lemma {:induction false} BadCodeSpoilsTheList(values: seq<string>, n: nat)
    requires n <= |values| && ReadPermissionCodes(values[..n]) == Err(ValidationFailed)
    ensures ReadPermissionCodes(values) == Err(ValidationFailed)
    decreases |values| - n
  {
    if n < |values| {
      assert values[..n + 1][..n] == values[..n];
      BadCodeSpoilsTheList(values, n + 1);
    } else {
      assert values[..n] == values;
    }
  }

  lemma CodesOfOneMore(db: Db, ids: set<AssignmentId>, id: AssignmentId)
    requires id in db.assignments
    ensures CodesOf(db, ids + {id})
      == CodesOf(db, ids) + set g | g in db.grants && g.0 == db.assignments[id].roleId :: g.1
  {
  }

  class PermissionsService {
    const db: Database

    constructor (db: Database)
      ensures this.db == db
    {
      this.db := db;
    }

    method Create(tenant: Option<TenantId>, value: string) returns (r: Result<string, AuthError>)
      modifies db
      ensures match Spec.CreatePermission(old(db.State()), tenant, value)
        case Err(e) => r == Err(e) && db.State() == old(db.State())
        case Ok(after) => db.State() == after && r == Ok(Trim(value))
    {
      if tenant.None? {
        return Err(TenantRequired);
      }
      var code := ReadPermissionCode(value);
      if code.Err? {
        return Err(code.error);
      }
      if code.value in db.permissions {
        return Err(PermissionCodeConflict);
      }
      db.permissions := db.permissions + {code.value};
      db.Record(PermissionCreated(tenant.value, code.value));
      return Ok(code.value);
    }
  }

  class UsersService {
    const db: Database
    const bootstrap: UserId

    constructor (db: Database, bootstrap: UserId)
      ensures this.db == db && this.bootstrap == bootstrap
    {
      this.db, this.bootstrap := db, bootstrap;
    }

    method EmailExists(tenant: Option<TenantId>, email: string, except: Option<UserId>) returns (r: bool)
      ensures r == EmailTaken(db.State(), tenant, email, except)
    {
      return exists id | id in db.users ::
        && db.users[id].tenantId == tenant && db.users[id].email == email && Some(id) != except
        && (tenant.None? ==> db.users[id].userType == SystemAdmin);
    }

    method Create(tenant: Option<TenantId>, actor: Option<UserId>, id: UserId, u: NewUser)
      returns (r: Result<User, AuthError>)
      requires id !in db.users
      modifies db
      ensures match Spec.CreateUser(old(db.State()), bootstrap, tenant, actor, id, u)
        case Err(e) => r == Err(e) && db.State() == old(db.State())
        case Ok(after) => db.State() == after && r == Ok(after.users[id])
    {
      if u.userType == SystemAdmin {
        r := CreateSystemAdmin(tenant, actor, id, u);
        return;
      }
      if tenant.None? {
        return Err(TenantRequired);
      }
      var taken := EmailExists(tenant, u.email, None);
      if taken {
        return Err(EmailConflict);
      }
      var user := User(tenant, u.email, u.displayName, u.password, u.userType, u.status);
      db.users := db.users[id := user];
      db.Record(UserCreated(tenant.value, id, user.userType, user.status));
      return Ok(user);
    }

    method CreateSystemAdmin(tenant: Option<TenantId>, actor: Option<UserId>, id: UserId, u: NewUser)
      returns (r: Result<User, AuthError>)
      requires id !in db.users && u.userType == SystemAdmin
      modifies db
      ensures match Spec.CreateUser(old(db.State()), bootstrap, tenant, actor, id, u)
        case Err(e) => r == Err(e) && db.State() == old(db.State())
        case Ok(after) => db.State() == after && r == Ok(after.users[id])
    {
      if tenant.Some? {
        return Err(AdminScopeMismatch);
      }
      if actor != Some(bootstrap) {
        return Err(AdminScopeMismatch);
      }
      var systemAdmin := db.FindSystemAdmin(actor);
      if !systemAdmin {
        return Err(AdminScopeMismatch);
      }
      var taken := EmailExists(None, u.email, None);
      if taken {
        return Err(EmailConflict);
      }
      var user := User(None, u.email, u.displayName, u.password, SystemAdmin, u.status);
      db.users := db.users[id := user];
      return Ok(user);
    }

    method Update(tenant: Option<TenantId>, actor: Option<UserId>, given: IdText,
                  email: Option<string>, displayName: Option<string>) returns (r: Result<User, AuthError>)
      modifies db
      ensures match Spec.UpdateUser(old(db.State()), tenant, actor, given, email, displayName)
        case Err(e) => r == Err(e) && db.State() == old(db.State())
        case Ok(after) => db.State() == after && given.id in after.users && r == Ok(after.users[given.id])
    {
      var id := given.id;
      if email.None? && displayName.None? {
        return Err(ValidationFailed);
      }
      if tenant.None? {
        if !SameText(actor, given) {
          return Err(TenantRequired);
        }
        var systemAdmin := db.FindSystemAdmin(Some(id));
        if !systemAdmin {
          return Err(TenantRequired);
        }
      } else if id !in db.users || db.users[id].tenantId != tenant {
        return Err(UserNotFound);
      }
      if email.Some? {
        var taken := EmailExists(tenant, email.value, Written(given));
        if taken {
          return Err(EmailConflict);
        }
      }
      var user, fields: set<string> := db.users[id], {};
      if email.Some? {
        user, fields := user.(email := email.value), fields + {"email"};
      }
      if displayName.Some? {
        user, fields := user.(displayName := displayName.value), fields + {"displayName"};
      }
      assert fields == Named(email, "email") + Named(displayName, "displayName");
      db.users := db.users[id := user];
      if tenant.Some? {
        db.Record(UserUpdated(tenant.value, id, fields));
      }
      return Ok(user);
    }

    method UpdateStatus(tenant: Option<TenantId>, id: UserId, status: UserStatus, now: Time)
      returns (r: Result<User, AuthError>)
      modifies db
      ensures match Spec.UpdateUserStatus(old(db.State()), tenant, id, status, now)
        case Err(e) => r == Err(e) && db.State() == old(db.State())
        case Ok(after) => db.State() == after && id in after.users && r == Ok(after.users[id])
    {
      if tenant.None? {
        return Err(TenantRequired);
      }
      if id !in db.users || db.users[id].tenantId != tenant {
        return Err(UserNotFound);
      }
      var user := db.users[id].(status := status);
      db.users := db.users[id := user];
      if status != Active {
        db.tokens := Revoked(db.tokens, OfUser(id, tenant), now);
      }
      db.Record(UserStatusChanged(tenant.value, id, status));
      return Ok(user);
    }

    method Remove(tenant: Option<TenantId>, id: UserId, now: Time) returns (r: Result<User, AuthError>)
      modifies db
      ensures match Spec.UpdateUserStatus(old(db.State()), tenant, id, Inactive, now)
        case Err(e) => r == Err(e) && db.State() == old(db.State())
        case Ok(after) => db.State() == after && id in after.users && r == Ok(after.users[id])
    {
      r := UpdateStatus(tenant, id, Inactive, now);
    }
  }

  class AuthService {
    const db: Database
    const refreshTtl: int

    constructor (db: Database, refreshTtl: int)
      ensures this.db == db && this.refreshTtl == refreshTtl
    {
      this.db, this.refreshTtl := db, refreshTtl;
    }

    /** Verifies candidate by candidate, in any order. */
    method AdminCandidates(email: string, password: string) returns (matches: set<UserId>)
      ensures matches == AdminMatches(db.State(), email, password)
    {
      matches := {};
      var users := set id | id in db.users && db.users[id].email == email;
      var rest := users;
      while rest != {}
        invariant rest <= users
        invariant matches == AdminMatches(db.State(), email, password) - rest
        decreases rest
      {
        var id :| id in rest;
        if IsAdminLoginEligible(db.State(), id) && db.users[id].password == password {
          matches := matches + {id};
        }
        rest := rest - {id};
      }
    }

    method ResolveLoginUser(tenant: Option<TenantId>, email: string, password: string)
      returns (r: Result<UserId, AuthError>)
      requires UniqueEmails(db.users)
      ensures r == LoginUser(db.State(), tenant, email, password)
    {
      if tenant.Some? {
        var found := set id | id in db.users && db.users[id].tenantId == tenant && db.users[id].email == email;
        assert found == TenantUsers(db.State(), tenant.value, email);
        if found == {} {
          return Err(InvalidCredentials);
        }
        var id :| id in found;
        assert forall other :: other in found ==> other == id;
        if db.users[id].status != Active {
          return Err(AccountLocked);
        }
        if db.users[id].password != password {
          return Err(InvalidCredentials);
        }
        return Ok(id);
      }
      var matches := AdminCandidates(email, password);
      if |matches| > 1 {
        return Err(LoginAmbiguous);
      }
      if matches == {} {
        return Err(InvalidCredentials);
      }
      var id :| id in matches;
      OnlyElement(matches, id);
      if db.users[id].status != Active {
        return Err(AccountLocked);
      }
      return Ok(id);
    }

    method Login(tenant: Option<TenantId>, email: string, password: string, secret: string, now: Time)
      returns (r: Result<Token, AuthError>)
      requires UniqueEmails(db.users)
      modifies db
      ensures match Spec.Login(old(db.State()), tenant, email, password, secret, now + refreshTtl * 1000)
        case Err(e) => r == Err(e) && db.State() == old(db.State())
        case Ok(after) => db.State() == after && |after.tokens| > 0 && r == Ok(after.tokens[|after.tokens| - 1])
    {
      var user := ResolveLoginUser(tenant, email, password);
      if user.Err? {
        return Err(user.error);
      }
      var token := Token(db.users[user.value].tenantId, user.value, secret, now + refreshTtl * 1000, None, None);
      db.tokens := db.tokens + [token];
      return Ok(token);
    }

    method Refresh(secret: string, tenant: Option<IdText>, next: string, now: Time)
      returns (r: Result<Token, AuthError>)
      modifies db
      ensures match Spec.Refresh(old(db.State()), secret, tenant, next, now, now + refreshTtl * 1000)
        case Err(e) => r == Err(e) && db.State() == old(db.State())
        case Ok(after) => db.State() == after && |after.tokens| > 0 && r == Ok(after.tokens[|after.tokens| - 1])
    {
      var found := FindToken(db.tokens, secret);
      if found.None? {
        return Err(InvalidToken);
      }
      var id := found.value;
      var current := db.tokens[id];
      if current.revokedAt.Some? || current.expiresAt <= now || current.userId !in db.users
         || db.users[current.userId].status != Active {
        return Err(InvalidToken);
      }
      if tenant.Some? && !SameText(current.tenantId, tenant.value) {
        return Err(TenantMismatch);
      }
      var created := Token(current.tenantId, current.userId, next, now + refreshTtl * 1000, None, None);
      var nextId := |db.tokens|;
      db.tokens := db.tokens + [created];
      db.tokens := db.tokens[id := current.(revokedAt := Some(now), replacedBy := Some(nextId))];
      return Ok(created);
    }

    method Me(tenant: Option<IdText>, userId: UserId) returns (r: Result<Summary, AuthError>)
      ensures r == Spec.Me(db.State(), tenant, userId)
    {
      if userId !in db.users {
        return Err(UserNotFound);
      }
      var user := db.users[userId];
      if user.status != Active {
        return Err(AccountLocked);
      }
      if tenant.Some? && !SameText(user.tenantId, tenant.value) {
        return Err(TenantMismatch);
      }
      if tenant.None? && user.userType != SystemAdmin {
        return Err(TenantRequired);
      }
      if user.userType == SystemAdmin {
        return Ok(Everything(db.permissions));
      }
      var ids := set id | id in db.assignments && db.assignments[id].userId == userId;
      assert ids == AllAssignments(db.State(), userId);
      var codes := CollectPermissionCodes(db, ids);
      return Ok(OfRoles(
        map id | id in ids && id in db.assignments && db.assignments[id].roleId in db.roles ::
          RoleView(db.assignments[id].roleId, db.roles[db.assignments[id].roleId].code, db.assignments[id].warehouseId),
        codes));
    }

    method Revoke(secret: Option<string>, tenant: Option<IdText>, userId: Option<UserId>, now: Time)
      returns (r: Result<nat, AuthError>)
      modifies db
      ensures match Spec.Revoke(old(db.State()), secret, tenant, userId, now)
        case Err(e) => r == Err(e) && db.State() == old(db.State())
        case Ok(after) => db.State() == after && r == Ok(|Changed(old(db.tokens), after.tokens)|)
    {
      if secret.Some? {
        var found := FindToken(db.tokens, secret.value);
        if found.None? {
          assert Changed(old(db.tokens), db.tokens) == {};
          return Ok(0);
        }
        var id := found.value;
        if tenant.Some? && !SameText(db.tokens[id].tenantId, tenant.value) {
          return Err(TenantMismatch);
        }
        if userId.Some? && db.tokens[id].userId != userId.value {
          return Err(Forbidden);
        }
        var count := RevokedCount(db.tokens, ById(id));
        CountIsChanged(db.tokens, ById(id), now);
        db.tokens := Revoked(db.tokens, ById(id), now);
        return Ok(count);
      }
      if userId.None? {
        return Err(ValidationFailed);
      }
      var filter := OfUser(userId.value, TenantOf(tenant));
      var count := RevokedCount(db.tokens, filter);
      CountIsChanged(db.tokens, filter, now);
      db.tokens := Revoked(db.tokens, filter, now);
      return Ok(count);
    }
  }

  /** The tokens of `before` that are different in `after`. */
  function Changed(before: seq<Token>, after: seq<Token>): set<nat> {
    set i: nat | i < |before| && i < |after| && before[i] != after[i]
  }

  /** `revokedCount` is the number of tokens the call changed. */
  lemma CountIsChanged(tokens: seq<Token>, filter: Filter, now: Time)
    ensures RevokedCount(tokens, filter) == |Changed(tokens, Revoked(tokens, filter, now))|
  {
    assert Changed(tokens, Revoked(tokens, filter, now))
      == set i: nat | i < |tokens| && Selects(filter, i, tokens[i]) && tokens[i].revokedAt.None?;
  }
}
