// Refresh tokens: rotation chains, and what revocation means for the rest of a run.
module TokenChains {
  import opened Common
  import opened AuthModel
  import opened AuthRuns

  // ---- The invariant ----

  /** A token belongs to its user's tenant, an unrevoked one to an active user, and a rotated
      one is revoked and points ahead, to a token of the same user and tenant. */
  ghost predicate TokenFits(users: map<UserId, User>, tokens: seq<Token>, i: nat)
    requires i < |tokens|
  {
    var token := tokens[i];
    && token.userId in users
    && token.tenantId == users[token.userId].tenantId
    && (token.revokedAt.None? ==> users[token.userId].status == Active && token.replacedBy.None?)
    && (token.replacedBy.Some? ==>
          && i < token.replacedBy.value < |tokens|
          && tokens[token.replacedBy.value].userId == token.userId
          && tokens[token.replacedBy.value].tenantId == token.tenantId)
  }

  ghost predicate TokensFit(users: map<UserId, User>, tokens: seq<Token>) {
    forall i :: 0 <= i < |tokens| ==> TokenFits(users, tokens, i)
  }

  /** No token replaces two others, and no two share a secret. */
  ghost predicate Injective(tokens: seq<Token>) {
    forall i, j :: 0 <= i < j < |tokens| ==>
      && tokens[i].secret != tokens[j].secret
      && (tokens[i].replacedBy.Some? ==> tokens[i].replacedBy != tokens[j].replacedBy)
  }

  ghost predicate TokenInv(db: Db) {
    TokensFit(db.users, db.tokens) && Injective(db.tokens)
  }

  /** How a token table may change: rows are added, and a revoked row never changes again;
      another keeps its owner, secret and expiry. */
  ghost predicate Evolves(tokens: seq<Token>, after: seq<Token>) {
    && |tokens| <= |after|
    && forall i :: 0 <= i < |tokens| ==>
      && (tokens[i].revokedAt.Some? ==> after[i] == tokens[i])
      && after[i].(revokedAt := None, replacedBy := None) == tokens[i].(revokedAt := None, replacedBy := None)
  }

  lemma EvolvesIsTransitive(a: seq<Token>, b: seq<Token>, c: seq<Token>)
    requires Evolves(a, b) && Evolves(b, c)
    ensures Evolves(a, c)
  {
  }

  // ---- Each way the table changes ----

  lemma Issue(users: map<UserId, User>, tokens: seq<Token>, token: Token)
    requires TokensFit(users, tokens) && Injective(tokens)
    requires token.userId in users && token.tenantId == users[token.userId].tenantId
    requires users[token.userId].status == Active
    requires token.replacedBy.None? && forall i :: 0 <= i < |tokens| ==> tokens[i].secret != token.secret
    ensures TokensFit(users, tokens + [token]) && Injective(tokens + [token]) && Evolves(tokens, tokens + [token])
  {
    forall i | 0 <= i < |tokens| + 1 ensures TokenFits(users, tokens + [token], i) {
      assert i < |tokens| ==> TokenFits(users, tokens, i);
    }
  }

  lemma RevokeKeepsTokens(users: map<UserId, User>, tokens: seq<Token>, filter: Filter, now: Time)
    requires TokensFit(users, tokens) && Injective(tokens)
    ensures TokensFit(users, Revoked(tokens, filter, now)) && Injective(Revoked(tokens, filter, now))
    ensures Evolves(tokens, Revoked(tokens, filter, now))
  {
    var after := Revoked(tokens, filter, now);
    assert forall i :: 0 <= i < |tokens| ==>
      after[i].replacedBy == tokens[i].replacedBy && after[i].secret == tokens[i].secret;
    forall i | 0 <= i < |after| ensures TokenFits(users, after, i) {
      assert TokenFits(users, tokens, i);
    }
  }

  lemma RotationKeepsTokens(users: map<UserId, User>, tokens: seq<Token>, i: nat, next: string, now: Time,
                            expiresAt: Time)
    requires TokensFit(users, tokens) && Injective(tokens) && i < |tokens| && tokens[i].revokedAt.None?
    requires forall j :: 0 <= j < |tokens| ==> tokens[j].secret != next
    ensures TokensFit(users, Rotated(tokens, i, next, now, expiresAt))
    ensures Injective(Rotated(tokens, i, next, now, expiresAt))
    ensures Evolves(tokens, Rotated(tokens, i, next, now, expiresAt))
  {
    var after := Rotated(tokens, i, next, now, expiresAt);
    assert TokenFits(users, tokens, i);
    forall j | 0 <= j < |after| ensures TokenFits(users, after, j) {
      assert j < |tokens| ==> TokenFits(users, tokens, j);
    }
    forall j, k | 0 <= j < k < |after| ensures after[j].secret != after[k].secret
      && (after[j].replacedBy.Some? ==> after[j].replacedBy != after[k].replacedBy)
    {
      assert TokenFits(users, tokens, j);
      assert k < |tokens| ==> TokenFits(users, tokens, k);
    }
  }

  /** Users may change as long as they keep their tenant and, with unrevoked tokens, stay active. */
  lemma UsersMayChange(users: map<UserId, User>, after: map<UserId, User>, tokens: seq<Token>)
    requires TokensFit(users, tokens)
    requires forall id :: id in users ==> id in after && after[id].tenantId == users[id].tenantId
    requires forall i :: 0 <= i < |tokens| && tokens[i].revokedAt.None? ==>
               tokens[i].userId in after && after[tokens[i].userId].status == Active
    ensures TokensFit(after, tokens)
  {
    forall i | 0 <= i < |tokens| ensures TokenFits(after, tokens, i) {
      assert TokenFits(users, tokens, i);
    }
  }

  lemma UnrevokedIsActive(users: map<UserId, User>, tokens: seq<Token>)
    requires TokensFit(users, tokens)
    ensures forall i :: 0 <= i < |tokens| ==>
      && tokens[i].userId in users && tokens[i].tenantId == users[tokens[i].userId].tenantId
      && (tokens[i].revokedAt.None? ==> users[tokens[i].userId].status == Active)
  {
    forall i | 0 <= i < |tokens| ensures
      && tokens[i].userId in users && tokens[i].tenantId == users[tokens[i].userId].tenantId
      && (tokens[i].revokedAt.None? ==> users[tokens[i].userId].status == Active)
    {
      assert TokenFits(users, tokens, i);
    }
  }

  // ---- Calls ----

  ghost predicate Kept(db: Db, after: Db) {
    TokenInv(after) && Evolves(db.tokens, after.tokens)
  }

  lemma StatusKeepsTokens(db: Db, tenant: Option<TenantId>, id: UserId, status: UserStatus, now: Time)
    requires TokenInv(db) && UpdateUserStatus(db, tenant, id, status, now).Ok?
    ensures Kept(db, UpdateUserStatus(db, tenant, id, status, now).value)
    ensures status != Active ==> NoneUnrevoked(UpdateUserStatus(db, tenant, id, status, now).value.tokens, id)
  {
    hide TokensFit, Injective, Evolves;
    var after := UpdateUserStatus(db, tenant, id, status, now).value;
    UnrevokedIsActive(db.users, db.tokens);
    RevokeKeepsTokens(db.users, db.tokens, OfUser(id, tenant), now);
    NothingEvolves(db.tokens);
    UsersMayChange(db.users, after.users, after.tokens);
  }

  ghost predicate NoneUnrevoked(tokens: seq<Token>, id: UserId) {
    forall i :: 0 <= i < |tokens| && tokens[i].userId == id ==> tokens[i].revokedAt.Some?
  }

  lemma NothingEvolves(tokens: seq<Token>)
    ensures Evolves(tokens, tokens)
  {
  }

  lemma UserCallsKeepTokens(c: Config, db: Db, call: Call)
    requires TokenInv(db) && (call.UserCreation? || call.UserUpdate?)
    ensures Kept(db, Step(c, db, call))
  {
    hide TokensFit, Injective, Evolves, EmailTaken, Named;
    UnrevokedIsActive(db.users, db.tokens);
    NothingEvolves(db.tokens);
    UsersMayChange(db.users, Step(c, db, call).users, db.tokens);
  }

  lemma RbacCallsKeepTokens(c: Config, db: Db, call: Call)
    requires call.RoleCreation? || call.RoleUpdate? || call.PermissionReplacement? || call.PermissionCreation?
          || call.RoleAssignment? || call.RoleRemoval?
    ensures Step(c, db, call).users == db.users && Step(c, db, call).tokens == db.tokens
  {
    hide CodeTaken, FindActorLevel, SetGrants, ReadPermissionCodes, ReadPermissionCode, Named;
  }

  lemma LoginUserIsActive(db: Db, tenant: Option<TenantId>, email: string, password: string)
    requires LoginUser(db, tenant, email, password).Ok?
    ensures var id := LoginUser(db, tenant, email, password).value; id in db.users && db.users[id].status == Active
  {
    hide IsAdminLoginEligible;
  }

  lemma SignInKeepsTokens(db: Db, tenant: Option<TenantId>, email: string, password: string, next: string,
                          expiresAt: Time)
    requires TokenInv(db) && FreshSecret(db, next) && Login(db, tenant, email, password, next, expiresAt).Ok?
    ensures Kept(db, Login(db, tenant, email, password, next, expiresAt).value)
  {
    hide TokensFit, Injective, Evolves, LoginUser;
    LoginUserIsActive(db, tenant, email, password);
    var id := LoginUser(db, tenant, email, password).value;
    Issue(db.users, db.tokens, Token(db.users[id].tenantId, id, next, expiresAt, None, None));
  }

  lemma RefreshKeepsTokens(db: Db, secret: string, tenant: Option<IdText>, next: string, now: Time, expiresAt: Time)
    requires TokenInv(db) && FreshSecret(db, next) && Refresh(db, secret, tenant, next, now, expiresAt).Ok?
    ensures Kept(db, Refresh(db, secret, tenant, next, now, expiresAt).value)
  {
    hide TokensFit, Injective, Evolves, Rotated;
    RotationKeepsTokens(db.users, db.tokens, FindToken(db.tokens, secret).value, next, now, expiresAt);
  }

  lemma RevokeCallKeepsTokens(db: Db, secret: Option<string>, tenant: Option<IdText>, actor: Option<UserId>,
                              now: Time)
    requires TokenInv(db) && Revoke(db, secret, tenant, actor, now).Ok?
    ensures Kept(db, Revoke(db, secret, tenant, actor, now).value)
  {
    hide TokensFit, Injective, Evolves, Revoked;
    NothingEvolves(db.tokens);
    if secret.Some? {
      var found := FindToken(db.tokens, secret.value);
      if found.Some? {
        RevokeKeepsTokens(db.users, db.tokens, ById(found.value), now);
      }
    } else {
      RevokeKeepsTokens(db.users, db.tokens, OfUser(actor.value, TenantOf(tenant)), now);
    }
  }

  lemma StepKeepsTokens(c: Config, db: Db, call: Call)
    requires TokenInv(db)
    ensures Kept(db, Step(c, db, call))
  {
    hide TokensFit, Injective, Evolves, CreateRole, UpdateRole, ReplaceRolePermissions, CreatePermission,
         AssignUserRole, RemoveUserRole, CreateUser, UpdateUser, UpdateUserStatus, Login, Refresh, Revoke;
    NothingEvolves(db.tokens);
    if Admissible(db, call) && Attempt(c, db, call).Ok? {
      match call {
        case UserCreation(_, _, _, _) => UserCallsKeepTokens(c, db, call);
        case UserUpdate(_, _, _, _, _) => UserCallsKeepTokens(c, db, call);
        case StatusChange(tenant, id, status, now) => StatusKeepsTokens(db, tenant, id, status, now);
        case SignIn(tenant, email, password, next, expiresAt) =>
          SignInKeepsTokens(db, tenant, email, password, next, expiresAt);
        case Rotation(tenant, secret, next, now, expiresAt) =>
          RefreshKeepsTokens(db, secret, tenant, next, now, expiresAt);
        case Revocation(tenant, secret, actor, now) => RevokeCallKeepsTokens(db, secret, tenant, actor, now);
        case _ => RbacCallsKeepTokens(c, db, call);
      }
    }
  }

  /** In every reachable state replacement links point ahead and are injective, a rotated
      token is revoked, links keep user and tenant, and only active users own unrevoked
      tokens, each of its owner's tenant. */
  lemma {:induction false} RunKeepsTokens(c: Config, run: Run, i: nat)
    requires IsRun(c, run) && i < |run.states|
    ensures TokenInv(run.states[i])
    decreases i
  {
    if i > 0 {
      hide TokenInv, Step, Evolves;
      RunKeepsTokens(c, run, i - 1);
      assert StepAt(c, run, i - 1);
      StepKeepsTokens(c, run.states[i - 1], run.calls[i - 1]);
    }
  }

  // ---- Over a run ----

  /** `revokedAt` is write-once: a token that is revoked at some point of a run is the same
      at every later point. */
  lemma {:induction false} RevokedTokensAreFrozen(c: Config, run: Run, k: nat, m: nat)
    requires IsRun(c, run) && k <= m < |run.states|
    ensures Evolves(run.states[k].tokens, run.states[m].tokens)
    decreases m
  {
    hide Step, TokenInv, Evolves;
    if k == m {
      NothingEvolves(run.states[k].tokens);
    } else {
      RevokedTokensAreFrozen(c, run, k, m - 1);
      RunKeepsTokens(c, run, m - 1);
      assert StepAt(c, run, m - 1);
      StepKeepsTokens(c, run.states[m - 1], run.calls[m - 1]);
      EvolvesIsTransitive(run.states[k].tokens, run.states[m - 1].tokens, run.states[m].tokens);
    }
  }

  /** The secret is refused whatever else the request says. */
  ghost predicate Refused(db: Db, secret: string) {
    forall tenant, next, now, expiresAt :: Refresh(db, secret, tenant, next, now, expiresAt) == Err(InvalidToken)
  }

  lemma RevokedIsRefused(db: Db, i: nat)
    requires Injective(db.tokens) && i < |db.tokens| && db.tokens[i].revokedAt.Some?
    ensures Refused(db, db.tokens[i].secret)
  {
  }

  lemma RefusedForGood(c: Config, run: Run, k: nat, m: nat, i: nat)
    requires IsRun(c, run) && k <= m < |run.states|
    requires i < |run.states[k].tokens| && run.states[k].tokens[i].revokedAt.Some?
    ensures Refused(run.states[m], run.states[k].tokens[i].secret)
  {
    hide Step, Refused;
    RevokedTokensAreFrozen(c, run, k, m);
    RunKeepsTokens(c, run, m);
    RevokedIsRefused(run.states[m], i);
  }

  /** A token that was rotated is never accepted again. */
  lemma RotatedIsRefusedForGood(c: Config, run: Run, k: nat, m: nat, tenant: Option<IdText>, secret: string,
                                next: string, now: Time, expiresAt: Time)
    requires IsRun(c, run) && k < m < |run.states|
    requires run.calls[k] == Rotation(tenant, secret, next, now, expiresAt)
    requires FreshSecret(run.states[k], next) && Refresh(run.states[k], secret, tenant, next, now, expiresAt).Ok?
    ensures Refused(run.states[m], secret)
  {
    hide Refused, FreshSecret;
    assert StepAt(c, run, k);
    var i := FindToken(run.states[k].tokens, secret).value;
    RefusedForGood(c, run, k + 1, m, i);
  }

  /** Once a user was deactivated, no token issued before ever refreshes again, not even
      after the user is reactivated. */
  lemma DeactivationIsFinal(c: Config, run: Run, k: nat, m: nat, tenantId: TenantId, userId: UserId,
                            status: UserStatus, now: Time, i: nat)
    requires IsRun(c, run) && k < m < |run.states|
    requires run.calls[k] == StatusChange(Some(tenantId), userId, status, now) && status != Active
    requires UserIn(run.states[k], tenantId, userId)
    requires i < |run.states[k].tokens| && run.states[k].tokens[i].userId == userId
    ensures Refused(run.states[m], run.states[k].tokens[i].secret)
  {
    hide Refused, TokenInv, Revoked;
    var before := run.states[k];
    assert StepAt(c, run, k);
    RunKeepsTokens(c, run, k);
    StatusKeepsTokens(before, Some(tenantId), userId, status, now);
    assert run.states[k + 1].tokens[i].userId == userId;
    RefusedForGood(c, run, k + 1, m, i);
  }

  /** The token a `revoke` request is about: the one it shows, or any of its user's, in the
      tenant it names if it names one. */
  predicate Meant(token: Token, secret: Option<string>, tenant: Option<IdText>, actor: Option<UserId>) {
    if secret.Some? then token.secret == secret.value
    else Some(token.userId) == actor && (tenant.None? || token.tenantId == TenantOf(tenant))
  }

  /** `revoke` revokes exactly the unrevoked tokens meant. */
  lemma RevokeIsExact(db: Db, secret: Option<string>, tenant: Option<IdText>, actor: Option<UserId>, now: Time,
                      j: nat)
    requires Injective(db.tokens) && Revoke(db, secret, tenant, actor, now).Ok? && j < |db.tokens|
    ensures var after := Revoke(db, secret, tenant, actor, now).value;
      && |after.tokens| == |db.tokens|
      && after.tokens[j] == if Meant(db.tokens[j], secret, tenant, actor) && db.tokens[j].revokedAt.None?
                            then db.tokens[j].(revokedAt := Some(now)) else db.tokens[j]
  {
    if secret.Some? && FindToken(db.tokens, secret.value).Some? {
      var i := FindToken(db.tokens, secret.value).value;
      assert i != j ==> db.tokens[i].secret != db.tokens[j].secret;
    }
  }

  /** A revoked token, shown or covered by its user's request, is refused for good. */
  lemma RevocationIsFinal(c: Config, run: Run, k: nat, m: nat, secret: Option<string>, tenant: Option<IdText>,
                          actor: Option<UserId>, now: Time, i: nat)
    requires IsRun(c, run) && k < m < |run.states| && run.calls[k] == Revocation(tenant, secret, actor, now)
    requires Revoke(run.states[k], secret, tenant, actor, now).Ok?
    requires i < |run.states[k].tokens| && Meant(run.states[k].tokens[i], secret, tenant, actor)
    ensures Refused(run.states[m], run.states[k].tokens[i].secret)
  {
    hide Refused, Revoke, TokensFit;
    assert StepAt(c, run, k);
    RunKeepsTokens(c, run, k);
    RevokeIsExact(run.states[k], secret, tenant, actor, now, i);
    RefusedForGood(c, run, k + 1, m, i);
  }

  // ---- Logins ----

  /** In a tenant exactly the active user with this email and password logs in; without one,
      exactly the only eligible administrator with them, if active. */
  lemma LoginMeaning(db: Db, tenant: Option<TenantId>, email: string, password: string, id: UserId)
    requires UniqueEmails(db.users)
    ensures LoginUser(db, tenant, email, password) == Ok(id) <==>
      && id in db.users && db.users[id].email == email && db.users[id].password == password
      && db.users[id].status == Active
      && (if tenant.Some? then db.users[id].tenantId == tenant
          else IsAdminLoginEligible(db, id) && OnlyMatch(db, email, password, id))
  {
    hide IsAdminLoginEligible;
    if tenant.Some? {
      var found := TenantUsers(db, tenant.value, email);
      assert forall a, b :: a in found && b in found ==> a == b;
      if id in found {
        assert found == {id};
      }
    } else {
      var matches := AdminMatches(db, email, password);
      assert forall other :: other in matches <==> IsMatch(db, email, password, other);
      if id in matches && |matches| <= 1 {
        OnlyElement(matches, id);
      }
      if id in matches && OnlyMatch(db, email, password, id) {
        assert matches == {id};
      }
    }
  }

  /** An eligible administrator with this email and password. */
  predicate IsMatch(db: Db, email: string, password: string, id: UserId) {
    && id in db.users && db.users[id].email == email && db.users[id].password == password
    && IsAdminLoginEligible(db, id)
  }

  /** No other eligible administrator has this email and password. */
  ghost predicate OnlyMatch(db: Db, email: string, password: string, id: UserId) {
    forall other :: IsMatch(db, email, password, other) ==> other == id
  }

  // ---- Rotation chains ----

  /** The token that `j` replaced. */
  ghost function Replaced(tokens: seq<Token>, j: nat): Option<nat> {
    if exists i :: 0 <= i < |tokens| && tokens[i].replacedBy == Some(j) then
      var i :| 0 <= i < |tokens| && tokens[i].replacedBy == Some(j); Some(i)
    else None
  }

  ghost predicate Linked(tokens: seq<Token>) {
    forall i :: 0 <= i < |tokens| && tokens[i].replacedBy.Some? ==> i < tokens[i].replacedBy.value < |tokens|
  }

  lemma TokensFitAreLinked(users: map<UserId, User>, tokens: seq<Token>)
    requires TokensFit(users, tokens)
    ensures Linked(tokens)
  {
    forall i | 0 <= i < |tokens| && tokens[i].replacedBy.Some? ensures i < tokens[i].replacedBy.value < |tokens| {
      assert TokenFits(users, tokens, i);
    }
  }

  /** The end of a token's chain. */
  ghost function Tail(tokens: seq<Token>, i: nat): (r: nat)
    requires i < |tokens| && Linked(tokens)
    ensures i <= r < |tokens| && tokens[r].replacedBy.None?
    decreases |tokens| - i
  {
    if tokens[i].replacedBy.None? then i else Tail(tokens, tokens[i].replacedBy.value)
  }

  /** The login a token's chain began with. */
  ghost function Head(tokens: seq<Token>, i: nat): (r: nat)
    requires i < |tokens| && Linked(tokens)
    ensures r <= i && Replaced(tokens, r).None?
    decreases i
  {
    if Replaced(tokens, i).None? then i else Head(tokens, Replaced(tokens, i).value)
  }

  lemma {:induction false} HeadOfTail(tokens: seq<Token>, i: nat)
    requires i < |tokens| && Linked(tokens) && Injective(tokens)
    ensures Head(tokens, Tail(tokens, i)) == Head(tokens, i)
    decreases |tokens| - i
  {
    if tokens[i].replacedBy.Some? {
      var next := tokens[i].replacedBy.value;
      assert Replaced(tokens, next) == Some(i);
      HeadOfTail(tokens, next);
    }
  }

  lemma {:induction false} TailOfHead(tokens: seq<Token>, i: nat)
    requires i < |tokens| && Linked(tokens)
    ensures Tail(tokens, Head(tokens, i)) == Tail(tokens, i)
    decreases i
  {
    if Replaced(tokens, i).Some? {
      TailOfHead(tokens, Replaced(tokens, i).value);
    }
  }

  lemma {:induction false} ChainKeepsOwner(users: map<UserId, User>, tokens: seq<Token>, i: nat)
    requires i < |tokens| && Linked(tokens) && TokensFit(users, tokens)
    ensures tokens[Head(tokens, i)].userId == tokens[i].userId && tokens[Head(tokens, i)].tenantId == tokens[i].tenantId
    decreases i
  {
    if Replaced(tokens, i).Some? {
      assert TokenFits(users, tokens, Replaced(tokens, i).value);
      ChainKeepsOwner(users, tokens, Replaced(tokens, i).value);
    }
  }

  /** In every reachable state, tokens descending from one login are of one user and tenant
      and share one tail; at most one of them is unrevoked, and that is the tail. */
  lemma OneUnrevokedTokenPerLogin(c: Config, run: Run, n: nat, i: nat, j: nat)
    requires IsRun(c, run) && n < |run.states|
    requires i < |run.states[n].tokens| && j < |run.states[n].tokens|
    ensures var tokens := run.states[n].tokens;
      && Linked(tokens)
      && (Head(tokens, i) == Head(tokens, j) <==> Tail(tokens, i) == Tail(tokens, j))
      && (tokens[i].revokedAt.None? ==> i == Tail(tokens, i))
      && (Head(tokens, i) == Head(tokens, j) ==>
            && tokens[i].userId == tokens[j].userId && tokens[i].tenantId == tokens[j].tenantId
            && (tokens[i].revokedAt.None? && tokens[j].revokedAt.None? ==> i == j))
  {
    var db := run.states[n];
    RunKeepsTokens(c, run, n);
    hide Injective;
    TokensFitAreLinked(db.users, db.tokens);
    forall k | k == i || k == j ensures
      && db.tokens[Head(db.tokens, k)].userId == db.tokens[k].userId
      && db.tokens[Head(db.tokens, k)].tenantId == db.tokens[k].tenantId
      && Tail(db.tokens, Head(db.tokens, k)) == Tail(db.tokens, k)
      && Head(db.tokens, Tail(db.tokens, k)) == Head(db.tokens, k)
      && (db.tokens[k].revokedAt.None? ==> k == Tail(db.tokens, k))
    {
      HeadOfTail(db.tokens, k);
      TailOfHead(db.tokens, k);
      ChainKeepsOwner(db.users, db.tokens, k);
      assert TokenFits(db.users, db.tokens, k);
    }
  }

  /** Logins, and only they, begin chains. */
  lemma LoginsBeginChains(c: Config, db: Db, call: Call)
    requires TokenInv(db) && |Step(c, db, call).tokens| > |db.tokens|
    ensures Replaced(Step(c, db, call).tokens, |db.tokens|).None? <==> call.SignIn?
  {
    hide LoginUser;
    TokensFitAreLinked(db.users, db.tokens);
    if !OnTokensOnly(call) {
      NewTokensComeFromTokenCalls(c, db, call);
    } else if call.Rotation? {
      var i := FindToken(db.tokens, call.secret).value;
      assert Step(c, db, call).tokens[i].replacedBy == Some(|db.tokens|);
    }
  }

  lemma NewTokensComeFromTokenCalls(c: Config, db: Db, call: Call)
    requires !OnTokensOnly(call)
    ensures |Step(c, db, call).tokens| == |db.tokens|
  {
    hide CodeTaken, FindActorLevel, SetGrants, ReadPermissionCodes, ReadPermissionCode, Named, EmailTaken;
  }
}
