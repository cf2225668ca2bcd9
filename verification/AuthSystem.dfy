// The services together behave as the runs of `AuthRuns`: what holds over every run holds
// for the objects.
module AuthSystem {
  import opened AuthModel
  import opened AuthServices
  import opened AuthRuns

  /** A rotated token expires the configured time after the request. */
  predicate KeepsTtl(call: Call, refreshTtl: int) {
    call.Rotation? ==> call.expiresAt == call.now + refreshTtl * 1000
  }

  class Services {
    const db: Database
    const rbac: RbacService
    const permissions: PermissionsService
    const users: UsersService
    const auth: AuthService

    /** All services on one database, seeded. */
    constructor (config: Config, refreshTtl: int)
      ensures Wired(config) && auth.refreshTtl == refreshTtl
      ensures fresh(db) && db.State() == Seeded(config)
    {
      var database := new Database(config.seed);
      db := database;
      rbac := new RbacService(database, config.bootstrap);
      permissions := new PermissionsService(database);
      users := new UsersService(database, config.bootstrap);
      auth := new AuthService(database, refreshTtl);
    }

    ghost predicate Wired(config: Config) {
      && rbac.db == db && permissions.db == db && users.db == db && auth.db == db
      && rbac.bootstrap == config.bootstrap && users.bootstrap == config.bootstrap
    }

    method HandleRbac(config: Config, call: Call)
      requires Wired(config) && Admissible(db.State(), call)
      requires call.RoleCreation? || call.RoleUpdate? || call.PermissionReplacement? || call.PermissionCreation?
            || call.RoleAssignment? || call.RoleRemoval?
      modifies db
      ensures db.State() == Step(config, old(db.State()), call)
    {
      match call {
        case RoleCreation(tenant, id, code, name, description) =>
          var _ := rbac.CreateRole(tenant, id, code, name, description);
        case RoleUpdate(tenant, given, change) =>
          var _ := rbac.UpdateRole(tenant, given, change);
        case PermissionReplacement(tenant, id, values) =>
          var _ := rbac.ReplaceRolePermissions(tenant, id, values);
        case PermissionCreation(tenant, value) =>
          var _ := permissions.Create(tenant, value);
        case RoleAssignment(tenant, actor, id, a) =>
          var _ := rbac.AssignUserRole(tenant, actor, id, a);
        case RoleRemoval(tenant, id) =>
          var _ := rbac.RemoveUserRole(tenant, id);
      }
    }

    method HandleUsers(config: Config, call: Call)
      requires Wired(config) && Admissible(db.State(), call)
      requires call.UserCreation? || call.UserUpdate? || call.StatusChange?
      modifies db
      ensures db.State() == Step(config, old(db.State()), call)
    {
      match call {
        case UserCreation(tenant, actor, id, user) =>
          var _ := users.Create(tenant, actor, id, user);
        case UserUpdate(tenant, actor, given, email, displayName) =>
          var _ := users.Update(tenant, actor, given, email, displayName);
        case StatusChange(tenant, id, status, now) =>
          var _ := users.UpdateStatus(tenant, id, status, now);
      }
    }

    method HandleTokens(config: Config, call: Call)
      requires Wired(config) && Admissible(db.State(), call) && KeepsTtl(call, auth.refreshTtl)
      requires OnTokensOnly(call) && UniqueEmails(db.users)
      modifies db
      ensures db.State() == Step(config, old(db.State()), call)
    {
      match call {
        case SignIn(tenant, email, password, next, expiresAt) =>
          var _ := auth.Login(tenant, email, password, next, expiresAt - auth.refreshTtl * 1000);
        case Rotation(shown, secret, next, now, expiresAt) =>
          var _ := auth.Refresh(secret, shown, next, now);
        case Revocation(shown, secret, actor, now) =>
          var _ := auth.Revoke(secret, shown, actor, now);
      }
    }

    /** One call; keys and tokens that are not new are never generated. */
    method Handle(config: Config, call: Call)
      requires Wired(config) && KeepsTtl(call, auth.refreshTtl) && UniqueEmails(db.users)
      modifies db
      ensures db.State() == Step(config, old(db.State()), call)
    {
      if !Admissible(db.State(), call) {
        return;
      }
      if OnTokensOnly(call) {
        HandleTokens(config, call);
      } else if call.UserCreation? || call.UserUpdate? || call.StatusChange? {
        HandleUsers(config, call);
      } else {
        HandleRbac(config, call);
      }
    }

    /** Any calls, one after the other, are a run that ends in the database as it is. */
    method HandleAll(config: Config, calls: seq<Call>) returns (ghost run: Run)
      requires Wired(config) && ValidSeed(config) && db.State() == Seeded(config)
      requires forall i :: 0 <= i < |calls| ==> KeepsTtl(calls[i], auth.refreshTtl)
      modifies db
      ensures IsRun(config, run) && run.calls == calls && db.State() == run.states[|calls|]
    {
      hide Step, ValidSeed, Admissible;
      run := Run([Seeded(config)], []);
      for n := 0 to |calls|
        invariant IsRun(config, run) && run.calls == calls[..n] && db.State() == run.states[n]
      {
        RunKeepsRbac(config, run, n);
        Handle(config, calls[n]);
        ThenIsRun(config, run, calls[n]);
        run := Then(config, run, calls[n]);
        assert calls[..n + 1] == calls[..n] + [calls[n]];
      }
      assert calls[..|calls|] == calls;
    }
  }
}
