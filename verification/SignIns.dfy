// Who may sign in after what: created, changed and locked users, and how long tokens last.
module SignIns {
  import opened Common
  import opened Text
  import opened AuthModel
  import opened AuthRuns
  import opened TokenChains

  // ---- Creating users ----

  /** No other user with the same tenant, or other system administrator, has the email. */
  ghost predicate FreeEmail(db: Db, tenant: Option<TenantId>, email: string, own: UserId) {
    forall id :: id in db.users && id != own && db.users[id].tenantId == tenant ==> db.users[id].email != email
  }

  /** A user of a tenant is created exactly in a tenant in which the email is free; a system
      administrator exactly by the active bootstrap administrator, without a tenant. Nothing
      else changes. */
  lemma UserCreationIsExact(db: Db, bootstrap: UserId, tenant: Option<TenantId>, actor: Option<UserId>, id: UserId,
                            u: NewUser)
    requires RbacInv(db) && id !in db.users
    ensures var r := CreateUser(db, bootstrap, tenant, actor, id, u);
      && (r.Ok? <==>
            && FreeEmail(db, tenant, u.email, id)
            && if u.userType == GeneralUser then tenant.Some?
               else tenant.None? && actor == Some(bootstrap) && bootstrap in db.users
                    && db.users[bootstrap].userType == SystemAdmin && db.users[bootstrap].status == Active)
      && (r.Ok? ==>
            && r.value.(users := db.users, log := db.log) == db
            && r.value.users.Keys == db.users.Keys + {id}
            && (forall other :: other in db.users ==> r.value.users[other] == db.users[other])
            && r.value.users[id].tenantId == tenant && r.value.users[id].email == u.email
            && r.value.users[id].displayName == u.displayName && r.value.users[id].password == u.password
            && r.value.users[id].userType == u.userType && r.value.users[id].status == u.status
            && r.value.log
               == db.log + if tenant.Some? then [UserCreated(tenant.value, id, GeneralUser, u.status)] else [])
  {
    hide RolesAreDistinct, GrantsAreTenantPermissions, AssignmentsStayInTenant;
    if EmailTaken(db, tenant, u.email, None) {
      var other :| other in db.users && db.users[other].tenantId == tenant && db.users[other].email == u.email;
      assert other != id;
    }
  }

  /** A created user of a tenant signs in there exactly with the password it was created
      with, if it was created active. */
  lemma CreatedUserSignsIn(db: Db, bootstrap: UserId, tenantId: TenantId, actor: Option<UserId>, id: UserId,
                           u: NewUser, password: string)
    requires RbacInv(db) && id !in db.users && CreateUser(db, bootstrap, Some(tenantId), actor, id, u).Ok?
    ensures var after := CreateUser(db, bootstrap, Some(tenantId), actor, id, u).value;
      LoginUser(after, Some(tenantId), u.email, password) ==
        if u.status != Active then Err(AccountLocked)
        else if password != u.password then Err(InvalidCredentials)
        else Ok(id)
  {
    hide RbacInv, CreateUser, LoginUser, FreeEmail;
    var after := CreateUser(db, bootstrap, Some(tenantId), actor, id, u).value;
    UserCreationIsExact(db, bootstrap, Some(tenantId), actor, id, u);
    UserCreationKeepsRbac(db, bootstrap, Some(tenantId), actor, id, u);
    RbacEmails(after);
    TenantLogin(after, tenantId, u.email, password, id);
  }

  lemma RbacEmails(db: Db)
    requires RbacInv(db)
    ensures UniqueEmails(db.users)
  {
    hide RolesAreDistinct, GrantsAreTenantPermissions, AssignmentsStayInTenant, UniqueEmails;
  }

  /** What a sign-in to a tenant answers for a user's email. */
  lemma TenantLogin(db: Db, tenantId: TenantId, email: string, password: string, id: UserId)
    requires UniqueEmails(db.users) && id in db.users
    requires db.users[id].tenantId == Some(tenantId) && db.users[id].email == email
    ensures LoginUser(db, Some(tenantId), email, password) ==
      if db.users[id].status != Active then Err(AccountLocked)
      else if password != db.users[id].password then Err(InvalidCredentials)
      else Ok(id)
  {
    assert TenantUsers(db, tenantId, email) == {id};
  }

  /** An email no user of the tenant has signs no one in. */
  lemma UnknownEmail(db: Db, tenantId: TenantId, email: string, password: string)
    requires forall id :: id in db.users && db.users[id].tenantId == Some(tenantId) ==> db.users[id].email != email
    ensures LoginUser(db, Some(tenantId), email, password) == Err(InvalidCredentials)
  {
  }

  /** Without a tenant: no eligible administrator has this email and password, or several,
      or one who is not active. */
  lemma AdminLoginRefusals(db: Db, email: string, password: string, id: UserId)
    requires id in db.users && db.users[id].email == email && db.users[id].password == password
    requires IsAdminLoginEligible(db, id)
    ensures LoginUser(db, None, email, password) ==
      if !OnlyMatch(db, email, password, id) then Err(LoginAmbiguous)
      else if db.users[id].status != Active then Err(AccountLocked)
      else Ok(id)
  {
    hide IsAdminLoginEligible;
    var matches := AdminMatches(db, email, password);
    assert forall other :: other in matches <==> IsMatch(db, email, password, other);
    if OnlyMatch(db, email, password, id) {
      assert matches == {id};
    } else {
      var other :| other in matches && other != id;
      assert {id, other} <= matches;
      TwoAreMore(matches, id, other);
    }
  }

  lemma TwoAreMore(s: set<UserId>, a: UserId, b: UserId)
    requires a in s && b in s && a != b
    ensures |s| > 1
  {
    assert |s - {a}| == |s| - 1 && b in s - {a};
  }

  /** Over all runs a user who became a system administrator was created as one by the
      bootstrap administrator, who was an active system administrator then. */
  lemma {:induction false} AdministratorsComeFromTheBootstrap(c: Config, run: Run, k: nat, m: nat, id: UserId)
    returns (i: nat)
    requires ValidSeed(c) && IsRun(c, run) && k <= m < |run.states|
    requires id !in run.states[k].users && id in run.states[m].users && run.states[m].users[id].userType == SystemAdmin
    ensures k <= i < m && run.calls[i].UserCreation? && run.calls[i].userId == id
    ensures run.calls[i].tenant.None? && run.calls[i].actor == Some(c.bootstrap)
    ensures c.bootstrap in run.states[i].users && run.states[i].users[c.bootstrap].userType == SystemAdmin
    ensures run.states[i].users[c.bootstrap].status == Active
    decreases m
  {
    hide Step, RbacInv, ValidSeed;
    assert StepAt(c, run, m - 1);
    if id in run.states[m - 1].users {
      UsersKeepTheirType(c, run.states[m - 1], run.calls[m - 1], id);
      i := AdministratorsComeFromTheBootstrap(c, run, k, m - 1, id);
    } else {
      RunKeepsRbac(c, run, m - 1);
      NewUsersAreCreated(c, run.states[m - 1], run.calls[m - 1], id);
      i := m - 1;
    }
  }

  lemma UsersKeepTheirType(c: Config, db: Db, call: Call, id: UserId)
    requires id in db.users
    ensures id in Step(c, db, call).users
    ensures Step(c, db, call).users[id].userType == db.users[id].userType
    ensures Step(c, db, call).users[id].tenantId == db.users[id].tenantId
    ensures Step(c, db, call).users[id].password == db.users[id].password
  {
    hide CodeTaken, FindActorLevel, SetGrants, ReadPermissionCodes, ReadPermissionCode, Named, EmailTaken, LoginUser,
         FindToken, Usable, Revoked, Rotated;
  }

  lemma NewUsersAreCreated(c: Config, db: Db, call: Call, id: UserId)
    requires RbacInv(db) && id !in db.users && id in Step(c, db, call).users
    requires Step(c, db, call).users[id].userType == SystemAdmin
    ensures call.UserCreation? && call.userId == id && call.tenant.None? && call.actor == Some(c.bootstrap)
    ensures c.bootstrap in db.users && db.users[c.bootstrap].userType == SystemAdmin
    ensures db.users[c.bootstrap].status == Active
  {
    hide CodeTaken, FindActorLevel, SetGrants, ReadPermissionCodes, ReadPermissionCode, Named, EmailTaken, LoginUser,
         FindToken, Usable, Revoked, Rotated, RbacInv;
    if call.UserCreation? && Admissible(db, call) {
      UserCreationIsExact(db, c.bootstrap, call.tenant, call.actor, call.userId, call.user);
    }
  }

  // ---- Changing users ----

  /** The fields an event names: those the request changes. */
  predicate NamesChanged(fields: set<string>, email: Option<string>, displayName: Option<string>) {
    && ("email" in fields <==> email.Some?) && ("displayName" in fields <==> displayName.Some?)
    && fields <= {"email", "displayName"}
  }

  /** A user's email and name are changed exactly by a request in its tenant, or by an active
      system administrator about itself, its id in lower case, if something is asked for and
      the email is free, for which the user's own counts only if the id is written in lower
      case; what is not asked for stays. */
  lemma UserUpdateIsExact(db: Db, tenant: Option<TenantId>, actor: Option<UserId>, given: IdText,
                          email: Option<string>, displayName: Option<string>)
    requires RbacInv(db)
    ensures var r, id := UpdateUser(db, tenant, actor, given, email, displayName), given.id;
      && (r.Ok? <==>
            && (email.Some? || displayName.Some?)
            && id in db.users && db.users[id].tenantId == tenant
            && (tenant.None? ==> actor == Some(id) && given.lower && db.users[id].status == Active)
            && (email.Some? ==> FreeEmail(db, tenant, email.value, id)
                                && (given.lower || email.value != db.users[id].email)))
      && (r.Ok? ==>
            && r.value.(users := db.users, log := db.log) == db
            && (if tenant.None? then r.value.log == db.log
                else exists fields :: && NamesChanged(fields, email, displayName)
                                      && r.value.log == db.log + [UserUpdated(tenant.value, id, fields)])
            && r.value.users.Keys == db.users.Keys
            && (forall other :: other in db.users && other != id ==> r.value.users[other] == db.users[other])
            && var before, after := db.users[id], r.value.users[id];
              && after == before.(email := after.email, displayName := after.displayName)
              && after.email == (if email.Some? then email.value else before.email)
              && after.displayName == if displayName.Some? then displayName.value else before.displayName)
  {
    hide RolesAreDistinct, GrantsAreTenantPermissions, AssignmentsStayInTenant, UniqueEmails;
    if email.Some? && EmailTaken(db, tenant, email.value, Written(given)) {
      var other :| other in db.users && db.users[other].tenantId == tenant && db.users[other].email == email.value
        && Some(other) != Written(given);
      assert other != given.id ==> !FreeEmail(db, tenant, email.value, given.id);
    }
    assert NamesChanged(Named(email, "email") + Named(displayName, "displayName"), email, displayName);
  }

  /** From then on the user signs in with the new email and its old password, and with the
      old email no longer. */
  lemma NewEmailSignsIn(db: Db, tenantId: TenantId, actor: Option<UserId>, id: UserId, email: string, password: string)
    requires RbacInv(db) && UpdateUser(db, Some(tenantId), actor, IdText(id, true), Some(email), None).Ok?
    requires id in db.users && db.users[id].status == Active
    ensures var after := UpdateUser(db, Some(tenantId), actor, IdText(id, true), Some(email), None).value;
      && (LoginUser(after, Some(tenantId), email, password) == Ok(id) <==> password == db.users[id].password)
      && (email != db.users[id].email ==>
            LoginUser(after, Some(tenantId), db.users[id].email, password) == Err(InvalidCredentials))
  {
    hide RbacInv, UpdateUser, LoginUser, FreeEmail;
    var after := UpdateUser(db, Some(tenantId), actor, IdText(id, true), Some(email), None).value;
    UserUpdateIsExact(db, Some(tenantId), actor, IdText(id, true), Some(email), None);
    UserUpdateKeepsRbac(db, Some(tenantId), actor, IdText(id, true), Some(email), None);
    RbacEmails(db);
    RbacEmails(after);
    TenantLogin(after, tenantId, email, password, id);
    if email != db.users[id].email {
      UnknownEmail(after, tenantId, db.users[id].email, password);
    }
  }

  // ---- Locking users out ----

  /** A status is changed exactly by a request in the user's tenant, and in its row alone. */
  lemma StatusChangeIsExact(db: Db, tenant: Option<TenantId>, id: UserId, status: UserStatus, now: Time)
    ensures var r := UpdateUserStatus(db, tenant, id, status, now);
      && (r.Ok? <==> tenant.Some? && id in db.users && db.users[id].tenantId == tenant)
      && (r.Ok? ==>
            && r.value.(users := db.users, tokens := db.tokens, log := db.log) == db
            && r.value.users == db.users[id := db.users[id].(status := status)]
            && r.value.log == db.log + [UserStatusChanged(tenant.value, id, status)]
            && |r.value.tokens| == |db.tokens|
            && forall i :: 0 <= i < |db.tokens| ==>
                 var token := db.tokens[i];
                 r.value.tokens[i] ==
                   if status != Active && token.userId == id && token.tenantId == tenant && token.revokedAt.None?
                   then token.(revokedAt := Some(now)) else token)
  {
  }

  /** A user who is made inactive or locked is answered so wherever it asks, whatever its
      permissions, and none of its tokens refreshes. */
  lemma LockedOutEverywhere(db: Db, tenantId: TenantId, id: UserId, status: UserStatus, now: Time, value: string,
                            warehouse: Option<IdText>, password: string)
    requires RbacInv(db) && TokenInv(db) && status != Active
    requires UpdateUserStatus(db, Some(tenantId), id, status, now).Ok?
    requires IsPermissionCode(Trim(value)) && !("system." <= Trim(value))
    ensures var after := UpdateUserStatus(db, Some(tenantId), id, status, now).value;
      && CheckPermission(after, Some(tenantId), id, value, warehouse) == Err(AccountLocked)
      && Summarize(after, Some(tenantId), id) == Err(AccountLocked)
      && Me(after, Some(IdText(tenantId, true)), id) == Err(AccountLocked)
      && LoginUser(after, Some(tenantId), db.users[id].email, password) == Err(AccountLocked)
      && (forall i :: 0 <= i < |after.tokens| && after.tokens[i].userId == id ==>
            Refused(after, after.tokens[i].secret))
  {
    hide IsPermissionCode, Trim, RolesAreDistinct, GrantsAreTenantPermissions, AssignmentsStayInTenant, LoginUser,
         Refused, TokensFit, Injective, Evolves, Revoked, UniqueEmails;
    var after := UpdateUserStatus(db, Some(tenantId), id, status, now).value;
    StatusKeepsRbac(db, Some(tenantId), id, status, now);
    RbacEmails(after);
    TenantLogin(after, tenantId, db.users[id].email, password, id);
    StatusKeepsTokens(db, Some(tenantId), id, status, now);
    forall i | 0 <= i < |after.tokens| && after.tokens[i].userId == id ensures Refused(after, after.tokens[i].secret) {
      RevokedIsRefused(after, i);
    }
  }

  // ---- Tokens ----

  /** Token `i` has this secret and is unrevoked, unexpired and an active user's; its tenant
      is the one the request names, if it names one. */
  ghost predicate Current(db: Db, i: nat, secret: string, tenant: Option<IdText>, now: Time) {
    && i < |db.tokens|
    && var token := db.tokens[i];
      && token.secret == secret && token.revokedAt.None? && now < token.expiresAt
      && token.userId in db.users && db.users[token.userId].status == Active
      && (tenant.Some? ==> tenant.value.lower && token.tenantId == Some(tenant.value.id))
  }

  /** A refresh succeeds exactly with the secret of a current token. */
  lemma RefreshAcceptedIff(db: Db, secret: string, tenant: Option<IdText>, next: string, now: Time, expiresAt: Time)
    requires TokenInv(db)
    ensures Refresh(db, secret, tenant, next, now, expiresAt).Ok? <==>
      exists i :: Current(db, i, secret, tenant, now)
  {
    hide TokensFit;
    if Refresh(db, secret, tenant, next, now, expiresAt).Ok? {
      assert Current(db, FindToken(db.tokens, secret).value, secret, tenant, now);
    }
    if i :| Current(db, i, secret, tenant, now) {
      OneSecret(db.tokens, i);
    }
  }

  lemma OneSecret(tokens: seq<Token>, i: nat)
    requires Injective(tokens) && i < |tokens|
    ensures FindToken(tokens, tokens[i].secret) == Some(i)
  {
  }

  /** The token shown is then revoked and linked to one new token of the same user and tenant,
      with the new secret and expiry; no other token changes. */
  lemma RefreshIsExact(db: Db, i: nat, tenant: Option<IdText>, next: string, now: Time, expiresAt: Time)
    requires TokenInv(db) && i < |db.tokens| && Refresh(db, db.tokens[i].secret, tenant, next, now, expiresAt).Ok?
    ensures var after := Refresh(db, db.tokens[i].secret, tenant, next, now, expiresAt).value;
      && after.(tokens := db.tokens) == db && |after.tokens| == |db.tokens| + 1
      && (forall j :: 0 <= j < |db.tokens| && j != i ==> after.tokens[j] == db.tokens[j])
      && after.tokens[i] == db.tokens[i].(revokedAt := Some(now), replacedBy := Some(|db.tokens|))
      && after.tokens[|db.tokens|]
         == Token(db.tokens[i].tenantId, db.tokens[i].userId, next, expiresAt, None, None)
  {
    hide TokensFit;
    OneSecret(db.tokens, i);
  }

  /** So is the token of a sign-in: the user's, with the new secret and expiry. */
  lemma LoginIsExact(db: Db, tenant: Option<TenantId>, email: string, password: string, next: string, expiresAt: Time)
    requires Login(db, tenant, email, password, next, expiresAt).Ok?
    ensures var after := Login(db, tenant, email, password, next, expiresAt).value;
      && LoginUser(db, tenant, email, password).Ok? && LoginUser(db, tenant, email, password).value in db.users
      && after.(tokens := db.tokens) == db && |after.tokens| == |db.tokens| + 1
      && after.tokens[..|db.tokens|] == db.tokens
      && var id, token := LoginUser(db, tenant, email, password).value, after.tokens[|db.tokens|];
        && token.userId == id && token.tenantId == db.users[id].tenantId
        && token.secret == next && token.expiresAt == expiresAt
        && token.revokedAt.None? && token.replacedBy.None?
  {
    LoginUserIsActive(db, tenant, email, password);
    hide LoginUser;
  }

  /** At and after its expiry a token is refused, at every later point of a run. */
  lemma TokensExpire(c: Config, run: Run, k: nat, m: nat, i: nat, tenant: Option<IdText>, next: string, now: Time,
                     expiresAt: Time)
    requires IsRun(c, run) && k <= m < |run.states| && i < |run.states[k].tokens|
    requires now >= run.states[k].tokens[i].expiresAt
    ensures Refresh(run.states[m], run.states[k].tokens[i].secret, tenant, next, now, expiresAt) == Err(InvalidToken)
  {
    hide Step, TokensFit;
    RevokedTokensAreFrozen(c, run, k, m);
    RunKeepsTokens(c, run, m);
    assert run.states[m].tokens[i].secret == run.states[k].tokens[i].secret;
    assert run.states[m].tokens[i].expiresAt == run.states[k].tokens[i].expiresAt;
    OneSecret(run.states[m].tokens, i);
  }

  /** A token just issued by a sign-in refreshes until its expiry, and only until then. */
  lemma SignedInUntilExpiry(db: Db, tenant: Option<TenantId>, email: string, password: string, secret: string,
                            expiresAt: Time, next: string, now: Time, later: Time)
    requires TokenInv(db) && FreshSecret(db, secret) && Login(db, tenant, email, password, secret, expiresAt).Ok?
    ensures var after := Login(db, tenant, email, password, secret, expiresAt).value;
      Refresh(after, secret, None, next, now, later).Ok? <==> now < expiresAt
  {
    hide LoginUser, TokensFit, Injective, Evolves, Login, Refresh;
    var after := Login(db, tenant, email, password, secret, expiresAt).value;
    LoginIsExact(db, tenant, email, password, secret, expiresAt);
    LoginUserIsActive(db, tenant, email, password);
    SignInKeepsTokens(db, tenant, email, password, secret, expiresAt);
    RefreshAcceptedIff(after, secret, None, next, now, later);
    OneSecret(after.tokens, |db.tokens|);
    forall i | Current(after, i, secret, None, now) ensures i == |db.tokens| {
      OneSecret(after.tokens, i);
    }
    if now < expiresAt {
      assert Current(after, |db.tokens|, secret, None, now);
    }
  }

  /** How `revoke` refuses: a shown token that is not of the tenant named or not the user's,
      or no token and no user. A shown token it does not know it accepts. */
  lemma RevokeRefusals(db: Db, secret: Option<string>, tenant: Option<IdText>, userId: Option<UserId>, now: Time)
    requires Injective(db.tokens)
    ensures var r := Revoke(db, secret, tenant, userId, now);
      if secret.None? then if userId.None? then r == Err(ValidationFailed) else r.Ok?
      else
        && ((forall i :: 0 <= i < |db.tokens| ==> db.tokens[i].secret != secret.value) ==> r == Ok(db))
        && forall i :: 0 <= i < |db.tokens| && db.tokens[i].secret == secret.value ==>
             var token := db.tokens[i];
             if tenant.Some? && !(tenant.value.lower && token.tenantId == Some(tenant.value.id)) then
               r == Err(TenantMismatch)
             else if userId.Some? && userId.value != token.userId then r == Err(Forbidden)
             else r.Ok?
  {
    if secret.Some? {
      forall i | 0 <= i < |db.tokens| && db.tokens[i].secret == secret.value
        ensures FindToken(db.tokens, secret.value) == Some(i)
      {
        OneSecret(db.tokens, i);
      }
    }
  }

  /** The number `revoke` reports is that of the rows it changes. */
  lemma RevokedCountIsChanged(tokens: seq<Token>, filter: Filter, now: Time)
    ensures RevokedCount(tokens, filter) == |set i: nat | i < |tokens| && Revoked(tokens, filter, now)[i] != tokens[i]|
  {
    assert (set i: nat | i < |tokens| && Selects(filter, i, tokens[i]) && tokens[i].revokedAt.None?)
        == set i: nat | i < |tokens| && Revoked(tokens, filter, now)[i] != tokens[i];
  }
}
