// What the auth log tells about role codes. An update of a role records which fields it
// changed, not their new values, so the log gives a code back exactly until one is updated.
module RoleCodes {
  import opened Common
  import opened AuthModel
  import opened AuthRuns
  import opened AuthDecisions

  /** The event says what the role's code is. */
  function Names(event: AuthEvent, id: RoleId): Option<string> {
    match event
    case RoleCreated(_, roleId, code) => if roleId == id then Some(code) else None
    case RoleAssigned(_, _, _, roleId, code, _) => if roleId == id then Some(code) else None
    case RoleRemoved(_, _, _, roleId, code, _) => if roleId == id then Some(code) else None
    case _ => None
  }

  /** The event says that the role's code was written, and not what to. */
  predicate Rewrites(event: AuthEvent, id: RoleId) {
    event.RoleUpdated? && event.roleId == id && "code" in event.changedFields
  }

  /** The last code that seed and log name for the role, unless it was rewritten since. */
  function NamedCode(c: Config, log: seq<AuthEvent>, id: RoleId): Option<string> {
    if log == [] then (if id in c.seed.roles then Some(c.seed.roles[id].code) else None)
    else
      var last := log[|log| - 1];
      if Names(last, id).Some? then Names(last, id)
      else if Rewrites(last, id) then None
      else NamedCode(c, log[..|log| - 1], id)
  }

  // ---- A code that is named is the role's ----

  ghost predicate NamedCodesHold(c: Config, db: Db) {
    forall id :: NamedCode(c, db.log, id).Some? ==>
      id in db.roles && db.roles[id].code == NamedCode(c, db.log, id).value
  }

  /** One event is recorded, and a role whose code it does not name or rewrite keeps it. */
  ghost predicate Logs(db: Db, after: Db) {
    && |after.log| == |db.log| + 1 && after.log[..|db.log|] == db.log
    && var event := after.log[|db.log|];
      forall id ::
        if Names(event, id).Some? then id in after.roles && after.roles[id].code == Names(event, id).value
        else Rewrites(event, id) || SameCode(db, after, id)
  }

  predicate SameCode(db: Db, after: Db, id: RoleId) {
    (id in db.roles <==> id in after.roles) && (id in db.roles ==> after.roles[id].code == db.roles[id].code)
  }

  ghost predicate LogsOrNot(db: Db, after: Db) {
    (after.log == db.log && after.roles == db.roles) || Logs(db, after)
  }

  lemma RoleCallsLog(c: Config, db: Db, call: Call)
    requires call.RoleCreation? || call.RoleUpdate?
    ensures LogsOrNot(db, Step(c, db, call))
  {
    hide CodeTaken;
  }

  lemma AssignmentCallsLog(c: Config, db: Db, call: Call)
    requires call.RoleAssignment? || call.RoleRemoval?
    ensures LogsOrNot(db, Step(c, db, call))
  {
    hide FindActorLevel;
  }

  lemma OtherCallsLog(c: Config, db: Db, call: Call)
    requires !call.RoleCreation? && !call.RoleUpdate? && !call.RoleAssignment? && !call.RoleRemoval?
    ensures LogsOrNot(db, Step(c, db, call))
  {
    hide EmailTaken, Revoked, Rotated, LoginUser, FindToken, ReadPermissionCodes, ReadPermissionCode, SetGrants;
  }

  lemma StepLogs(c: Config, db: Db, call: Call)
    ensures LogsOrNot(db, Step(c, db, call))
  {
    hide LogsOrNot, Step;
    if call.RoleCreation? || call.RoleUpdate? {
      RoleCallsLog(c, db, call);
    } else if call.RoleAssignment? || call.RoleRemoval? {
      AssignmentCallsLog(c, db, call);
    } else {
      OtherCallsLog(c, db, call);
    }
  }

  lemma StepKeepsNamedCodes(c: Config, db: Db, call: Call)
    requires NamedCodesHold(c, db)
    ensures NamedCodesHold(c, Step(c, db, call))
  {
    hide Step, Names, Rewrites;
    StepLogs(c, db, call);
  }

  lemma {:induction false} RunKeepsNamedCodes(c: Config, run: Run, n: nat)
    requires IsRun(c, run) && n < |run.states|
    ensures NamedCodesHold(c, run.states[n])
    decreases n
  {
    hide Step;
    if n > 0 {
      hide NamedCodesHold;
      RunKeepsNamedCodes(c, run, n - 1);
      assert StepAt(c, run, n - 1);
      StepKeepsNamedCodes(c, run.states[n - 1], run.calls[n - 1]);
    }
  }

  // ---- A code that was rewritten since could be another ----

  /** The same database but for the code of role `id`, and for tokens. */
  predicate Twin(db: Db, twin: Db, id: RoleId, code: string) {
    && id in db.roles
    && twin == db.(roles := db.roles[id := db.roles[id].(code := code)], tokens := twin.tokens)
  }

  ghost predicate Unused(db: Db, code: string) {
    forall id :: id in db.roles ==> |db.roles[id].code| < |code|
  }

  lemma CreationOfTwin(db: Db, twin: Db, id: RoleId, code: string, tenant: Option<TenantId>, roleId: RoleId,
                       newCode: string, name: string, description: Option<string>)
    requires Twin(db, twin, id, code) && roleId !in db.roles && newCode != code
    requires CreateRole(db, tenant, roleId, newCode, name, description).Ok?
    ensures CreateRole(twin, tenant, roleId, newCode, name, description).Ok?
    ensures Twin(CreateRole(db, tenant, roleId, newCode, name, description).value,
                 CreateRole(twin, tenant, roleId, newCode, name, description).value, id, code)
  {
    NotTakenInTwin(db, twin, id, code, tenant.value, newCode, None);
    assert id != roleId;
  }

  lemma NotTakenInTwin(db: Db, twin: Db, id: RoleId, code: string, tenantId: TenantId, newCode: string,
                       except: Option<RoleId>)
    requires Twin(db, twin, id, code) && newCode != code && !CodeTaken(db, tenantId, newCode, except)
    ensures !CodeTaken(twin, tenantId, newCode, except)
  {
    forall other | other in twin.roles
      ensures !(RoleIn(twin, tenantId, other) && twin.roles[other].code == newCode && Some(other) != except)
    {
      assert other in db.roles;
    }
  }

  lemma UpdateOfTwin(db: Db, twin: Db, id: RoleId, code: string, tenant: Option<TenantId>, given: IdText,
                     change: RoleChange)
    requires Twin(db, twin, id, code) && change.code != Some(code) && (given.id == id ==> change.code.None?)
    requires UpdateRole(db, tenant, given, change).Ok?
    ensures UpdateRole(twin, tenant, given, change).Ok?
    ensures Twin(UpdateRole(db, tenant, given, change).value, UpdateRole(twin, tenant, given, change).value, id, code)
  {
    hide CodeTaken, Named;
    if change.code.Some? {
      NotTakenInTwin(db, twin, id, code, tenant.value, change.code.value, Written(given));
    }
    var a, b := UpdateRole(db, tenant, given, change).value, UpdateRole(twin, tenant, given, change).value;
    assert b.roles == a.roles[id := a.roles[id].(code := code)];
  }

  lemma AssignmentOfTwin(db: Db, twin: Db, id: RoleId, code: string, bootstrap: UserId, tenant: Option<TenantId>,
                         actor: Option<UserId>, assignmentId: AssignmentId, a: Assignment)
    requires Twin(db, twin, id, code) && a.roleId != id
    requires AssignUserRole(db, bootstrap, tenant, actor, assignmentId, a).Ok?
    ensures AssignUserRole(twin, bootstrap, tenant, actor, assignmentId, a).Ok?
    ensures Twin(AssignUserRole(db, bootstrap, tenant, actor, assignmentId, a).value,
                 AssignUserRole(twin, bootstrap, tenant, actor, assignmentId, a).value, id, code)
  {
    hide FindActorLevel;
    AssignmentIsAllowedIff(db, bootstrap, tenant, actor, assignmentId, a);
    AssignmentIsAllowedIff(twin, bootstrap, tenant, actor, assignmentId, a);
  }

  /** The call names or rewrites the code of role `id`, if it succeeds. */
  predicate Tells(db: Db, call: Call, id: RoleId) {
    match call
    case RoleCreation(_, roleId, _, _, _) => roleId == id
    case RoleUpdate(_, given, change) => given.id == id && change.code.Some?
    case RoleAssignment(_, _, _, a) => a.roleId == id
    case RoleRemoval(_, assignmentId) => assignmentId in db.assignments && db.assignments[assignmentId].roleId == id
    case _ => false
  }

  lemma RoleStepOfTwin(c: Config, db: Db, twin: Db, id: RoleId, code: string, call: Call)
    requires Twin(db, twin, id, code) && Unused(Step(c, db, call), code)
    requires call.RoleCreation? || call.RoleUpdate? || call.RoleAssignment?
    requires Admissible(db, call) && Attempt(c, db, call).Ok? && !Tells(db, call, id)
    ensures Twin(Step(c, db, call), Step(c, twin, call), id, code)
  {
    hide CreateRole, UpdateRole, AssignUserRole, Twin;
    match call {
      case RoleCreation(tenant, roleId, newCode, name, description) =>
        CodeIsStored(db, tenant, roleId, newCode, name, description);
        TwinRoles(db, twin, id, code);
        CreationOfTwin(db, twin, id, code, tenant, roleId, newCode, name, description);
      case RoleUpdate(tenant, given, change) =>
        if change.code.Some? {
          ChangeIsStored(db, tenant, given, change);
        }
        UpdateOfTwin(db, twin, id, code, tenant, given, change);
      case RoleAssignment(tenant, actor, assignmentId, a) =>
        TwinRoles(db, twin, id, code);
        AssignmentOfTwin(db, twin, id, code, c.bootstrap, tenant, actor, assignmentId, a);
    }
  }

  lemma TwinRoles(db: Db, twin: Db, id: RoleId, code: string)
    requires Twin(db, twin, id, code)
    ensures twin.roles.Keys == db.roles.Keys && twin.assignments == db.assignments && twin.users == db.users
  {
  }

  lemma CodeIsStored(db: Db, tenant: Option<TenantId>, id: RoleId, code: string, name: string,
                     description: Option<string>)
    requires CreateRole(db, tenant, id, code, name, description).Ok?
    ensures var after := CreateRole(db, tenant, id, code, name, description).value;
      id in after.roles && after.roles[id].code == code
  {
  }

  lemma ChangeIsStored(db: Db, tenant: Option<TenantId>, given: IdText, change: RoleChange)
    requires UpdateRole(db, tenant, given, change).Ok? && change.code.Some?
    ensures var after := UpdateRole(db, tenant, given, change).value;
      given.id in after.roles && after.roles[given.id].code == change.code.value
  {
  }

  lemma RemovalStepOfTwin(c: Config, db: Db, twin: Db, id: RoleId, code: string, call: Call)
    requires Twin(db, twin, id, code) && (call.RoleRemoval? || call.PermissionReplacement? || call.PermissionCreation?)
    requires Attempt(c, db, call).Ok? && !Tells(db, call, id)
    ensures Twin(Step(c, db, call), Step(c, twin, call), id, code)
  {
    hide ReadPermissionCodes, ReadPermissionCode, SetGrants, IsSystemCode;
  }

  lemma UserStepOfTwin(c: Config, db: Db, twin: Db, id: RoleId, code: string, call: Call)
    requires Twin(db, twin, id, code) && (call.UserCreation? || call.UserUpdate? || call.StatusChange?)
    requires Admissible(db, call) && Attempt(c, db, call).Ok?
    ensures Twin(Step(c, db, call), Step(c, twin, call), id, code)
  {
    hide Named, Revoked;
    assert forall tenant, email, except :: EmailTaken(db, tenant, email, except) <==>
      EmailTaken(twin, tenant, email, except);
  }

  /** A successful call that does not tell the code does the same to the twin. */
  lemma StepOfTwin(c: Config, db: Db, twin: Db, id: RoleId, code: string, call: Call)
    requires Twin(db, twin, id, code) && Unused(Step(c, db, call), code)
    requires Admissible(db, call) && Attempt(c, db, call).Ok? && !Tells(db, call, id) && !OnTokensOnly(call)
    ensures Twin(Step(c, db, call), Step(c, twin, call), id, code)
  {
    hide Twin, Unused, Step, Attempt, Admissible, Tells;
    if call.RoleCreation? || call.RoleUpdate? || call.RoleAssignment? {
      RoleStepOfTwin(c, db, twin, id, code, call);
    } else if call.RoleRemoval? || call.PermissionReplacement? || call.PermissionCreation? {
      RemovalStepOfTwin(c, db, twin, id, code, call);
    } else {
      UserStepOfTwin(c, db, twin, id, code, call);
    }
  }

  /** What a telling call records names or rewrites the code. */
  lemma TellingIsLogged(c: Config, db: Db, call: Call, id: RoleId)
    requires Admissible(db, call) && Attempt(c, db, call).Ok? && Tells(db, call, id)
    ensures var after := Step(c, db, call);
      && |after.log| == |db.log| + 1 && after.log[..|db.log|] == db.log
      && (if call.RoleUpdate? then Rewrites(after.log[|db.log|], id) else Names(after.log[|db.log|], id).Some?)
  {
    hide CodeTaken, FindActorLevel;
  }

  lemma SilenceIsKept(c: Config, db: Db, call: Call, id: RoleId)
    requires NamedCode(c, Step(c, db, call).log, id).None? && id in Step(c, db, call).roles
    requires !(Admissible(db, call) && Attempt(c, db, call).Ok? && Tells(db, call, id))
    ensures NamedCode(c, db.log, id).None? && id in db.roles
  {
    hide Step, Names;
    NotRewritten(c, db, call, id);
    StepLogs(c, db, call);
  }

  lemma NotRewritten(c: Config, db: Db, call: Call, id: RoleId)
    requires !(Admissible(db, call) && Attempt(c, db, call).Ok? && Tells(db, call, id))
    ensures var after := Step(c, db, call);
      after.log == db.log || (|after.log| > 0 && !Rewrites(after.log[|after.log| - 1], id))
  {
    hide CodeTaken, EmailTaken, FindActorLevel, Revoked, Rotated, LoginUser, FindToken, ReadPermissionCodes,
         ReadPermissionCode, SetGrants;
  }

  // ---- Runs ----

  function Prefix(run: Run, n: nat): Run
    requires n < |run.states| && |run.states| == |run.calls| + 1
  {
    Run(run.states[..n + 1], run.calls[..n])
  }

  lemma PrefixIsRun(c: Config, run: Run, n: nat)
    requires IsRun(c, run) && n < |run.states|
    ensures IsRun(c, Prefix(run, n))
  {
    hide Step;
    forall i | 0 <= i < n ensures StepAt(c, Prefix(run, n), i) {
      assert StepAt(c, run, i);
    }
  }

  ghost predicate UnusedUpTo(run: Run, n: nat, code: string)
    requires n < |run.states|
  {
    forall i :: 0 <= i <= n ==> Unused(run.states[i], code)
  }

  /** The rewriting call itself, with another code. */
  lemma RewrittenOtherwise(c: Config, db: Db, tenant: Option<TenantId>, given: IdText, change: RoleChange, code: string)
    requires UpdateRole(db, tenant, given, change).Ok? && change.code.Some? && Unused(db, code) && |code| > 12
    ensures UpdateRole(db, tenant, given, change.(code := Some(code))).Ok?
    ensures Twin(UpdateRole(db, tenant, given, change).value,
                 UpdateRole(db, tenant, given, change.(code := Some(code))).value, given.id, code)
  {
    assert |"system_admin"| == 12;
    forall other | other in db.roles ensures db.roles[other].code != code {
    }
    var a := UpdateRole(db, tenant, given, change).value;
    var b := UpdateRole(db, tenant, given, change.(code := Some(code))).value;
    assert b.roles == a.roles[given.id := a.roles[given.id].(code := code)];
  }

  /** Any run after which the log does not name the code has a twin with another code. */
  lemma {:induction false} TwinRun(c: Config, run: Run, n: nat, id: RoleId, code: string) returns (other: Run)
    requires IsRun(c, run) && n < |run.states| && id in run.states[n].roles
    requires NamedCode(c, run.states[n].log, id).None? && UnusedUpTo(run, n, code) && |code| > 12
    ensures IsRun(c, other) && Twin(run.states[n], other.states[|other.calls|], id, code)
    decreases n
  {
    hide Step, Attempt, Admissible, Twin, Unused, Tells, OnTokensOnly;
    if n == 0 {
      SeedNamesItsCodes(c, id);
      assert false;
    }
    assert StepAt(c, run, n - 1);
    assert Unused(run.states[n], code) && Unused(run.states[n - 1], code);
    var db, call := run.states[n - 1], run.calls[n - 1];
    var succeeds := Admissible(db, call) && Attempt(c, db, call).Ok?;
    if succeeds && Tells(db, call, id) {
      PrefixIsRun(c, run, n - 1);
      var instead := RewriteInstead(c, db, call, id, code);
      other := Then(c, Prefix(run, n - 1), instead);
      ThenIsRun(c, Prefix(run, n - 1), instead);
    } else {
      SilenceIsKept(c, db, call, id);
      other := TwinRun(c, run, n - 1, id, code);
      if succeeds && !OnTokensOnly(call) {
        StepOfTwin(c, db, other.states[|other.calls|], id, code, call);
        ThenIsRun(c, other, call);
        other := Then(c, other, call);
      } else {
        QuietStepOfTwin(c, db, other.states[|other.calls|], id, code, call);
      }
    }
  }

  lemma SeedNamesItsCodes(c: Config, id: RoleId)
    ensures NamedCode(c, Seeded(c).log, id).None? ==> id !in Seeded(c).roles
  {
  }

  lemma QuietStepOfTwin(c: Config, db: Db, twin: Db, id: RoleId, code: string, call: Call)
    requires Twin(db, twin, id, code) && (OnTokensOnly(call) || !(Admissible(db, call) && Attempt(c, db, call).Ok?))
    ensures Twin(Step(c, db, call), twin, id, code)
  {
    hide Attempt, Admissible;
    if OnTokensOnly(call) {
      hide Step, OnTokensOnly;
      TokenCallsTouchTokensOnly(c, db, call);
    }
  }

  lemma RewriteInstead(c: Config, db: Db, call: Call, id: RoleId, code: string) returns (instead: Call)
    requires Admissible(db, call) && Attempt(c, db, call).Ok? && Tells(db, call, id)
    requires NamedCode(c, Step(c, db, call).log, id).None? && Unused(db, code) && |code| > 12
    ensures Twin(Step(c, db, call), Step(c, db, instead), id, code)
  {
    hide Unused, Twin, UpdateRole, CreateRole, AssignUserRole, RemoveUserRole, Names, Rewrites;
    TellingIsLogged(c, db, call, id);
    instead := call;
    if call.RoleUpdate? {
      RewrittenOtherwise(c, db, call.tenant, call.given, call.change, code);
      instead := call.(change := call.change.(code := Some(code)));
    }
  }

  lemma {:induction false} LongerThan(roles: map<RoleId, Role>, ids: set<RoleId>) returns (n: nat)
    requires ids <= roles.Keys
    ensures forall id :: id in ids ==> |roles[id].code| < n
    decreases ids
  {
    n := 0;
    if ids != {} {
      var id :| id in ids;
      n := LongerThan(roles, ids - {id});
      n := if |roles[id].code| < n then n else |roles[id].code| + 1;
    }
  }

  lemma {:induction false} FreshCode(run: Run, n: nat) returns (size: nat)
    requires n < |run.states|
    ensures size > 12 && forall code: string :: |code| >= size ==> UnusedUpTo(run, n, code)
    decreases n
  {
    size := LongerThan(run.states[n].roles, run.states[n].roles.Keys);
    size := size + 13;
    if n > 0 {
      var earlier := FreshCode(run, n - 1);
      size := if earlier < size then size else earlier;
      forall code: string | |code| >= size ensures UnusedUpTo(run, n, code) {
        assert UnusedUpTo(run, n - 1, code);
      }
    }
  }

  /** The role has this code after some run of the same service with the same log. */
  ghost predicate Possible(c: Config, log: seq<AuthEvent>, id: RoleId, code: string) {
    exists run: Run, n: nat :: IsRun(c, run) && n < |run.states| && run.states[n].log == log
      && id in run.states[n].roles && run.states[n].roles[id].code == code
  }

  /** After any run the log determines a role's code if and only if it, or the seed, names
      the code and no later update of the role writes one; and then it is the last named. */
  lemma LogDeterminesRoleCodeIff(c: Config, run: Run, n: nat, id: RoleId)
    requires IsRun(c, run) && n < |run.states| && id in run.states[n].roles
    ensures var db := run.states[n];
      && (NamedCode(c, db.log, id).Some? ==> NamedCode(c, db.log, id).value == db.roles[id].code)
      && (NamedCode(c, db.log, id).Some? <==>
            forall code :: Possible(c, db.log, id, code) ==> code == db.roles[id].code)
  {
    var db := run.states[n];
    RunKeepsNamedCodes(c, run, n);
    if NamedCode(c, db.log, id).Some? {
      forall code | Possible(c, db.log, id, code) ensures code == db.roles[id].code {
        var other: Run, m: nat :| IsRun(c, other) && m < |other.states| && other.states[m].log == db.log
          && id in other.states[m].roles && other.states[m].roles[id].code == code;
        RunKeepsNamedCodes(c, other, m);
      }
    } else {
      var size := FreshCode(run, n);
      var code := seq(size, _ => 'z');
      assert UnusedUpTo(run, n, code);
      var other := TwinRun(c, run, n, id, code);
      var last := |other.calls|;
      assert other.states[last].log == db.log && other.states[last].roles[id].code == code;
      assert Possible(c, db.log, id, code);
      assert Unused(db, code);
    }
  }
}
