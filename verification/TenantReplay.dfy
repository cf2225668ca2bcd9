// The tenant outbox log as a complete record: folded over the seeded tables it
// equals the tables after any sequence of calls, and tenant codes stay distinct.
module TenantReplay {
  import opened Common
  import opened TenantCodes
  import opened Tenants

  // ---- Replay ----

  /** What consumers of the log can know: statuses and enabled modules. */
  datatype View = View(status: map<TenantId, TenantStatus>, enabled: set<(TenantId, ModuleCode)>)

  function Fold(view: View, event: TenantEvent): View {
    match event
    case Created(id, _, _, _, status) => view.(status := view.status[id := status])
    case StatusChanged(id, _, status, _) => view.(status := view.status[id := status])
    case ModuleEnabled(id, code) => view.(enabled := view.enabled + {(id, code)})
    case ModuleDisabled(id, code) => view.(enabled := view.enabled - {(id, code)})
  }

  function ViewOf(db: TenantDb): View {
    View(map id | id in db.tenants :: db.tenants[id].status,
         set key | key in db.modules && db.modules[key])
  }

  function Replay(seed: TenantDb, log: seq<TenantEvent>): View {
    if log == [] then ViewOf(seed) else Fold(Replay(seed, log[..|log| - 1]), log[|log| - 1])
  }

  // ---- Runs: any calls in any order, refused ones included ----

  datatype Call =
    | Create(id: TenantId, name: string, domain: Option<string>)
    | UpdateStatus(id: TenantId, status: TenantStatus, reason: Option<string>)
    | ReplaceAll(id: TenantId, requested: set<ModuleCode>, enable: seq<ModuleCode>, disable: seq<ModuleCode>)
    | Rename(id: TenantId, name: string)
    | DomainsChange(domains: map<string, TenantId>)  // addDomain, deleteDomain, update

  /** Generated keys are fresh and events list exactly the modules that change. */
  predicate Admissible(db: TenantDb, call: Call) {
    match call
    case Create(id, _, _) => id !in db.tenants
    case ReplaceAll(id, requested, enable, disable) => IsReplacement(db, id, requested, enable, disable)
    case _ => true
  }

  function OrSame(db: TenantDb, r: Result<TenantDb, TenantError>): TenantDb {
    if r.Ok? then r.value else db
  }

  function Step(p: Platform, db: TenantDb, call: Call): TenantDb {
    match call
    case Create(id, name, domain) => OrSame(db, CreateTenant(p, db, id, name, domain))
    case UpdateStatus(id, status, reason) => OrSame(db, ChangeStatus(db, id, status, reason))
    case ReplaceAll(id, requested, enable, disable) => OrSame(db, ReplaceModules(db, id, requested, enable, disable))
    case Rename(id, name) =>
      if id in db.tenants then db.(tenants := db.tenants[id := db.tenants[id].(name := name)]) else db
    case DomainsChange(domains) => db.(domains := domains)
  }

  /** prisma/seed.ts may fill the tables before the first call; it writes no event. */
  function Seeded(seed: TenantDb): TenantDb {
    seed.(log := [])
  }

  /** The database after `calls`; a call that is not admissible does not happen. */
  function Run(p: Platform, seed: TenantDb, calls: seq<Call>): TenantDb {
    if calls == [] then Seeded(seed)
    else
      var before := Run(p, seed, calls[..|calls| - 1]);
      var call := calls[|calls| - 1];
      if Admissible(before, call) then Step(p, before, call) else before
  }

  // ---- The log matches the tables and tells a consistent story ----

  /** An event is consistent with what the log said before it. */
  predicate Fits(view: View, event: TenantEvent) {
    match event
    case Created(id, _, _, _, _) => id !in view.status
    case StatusChanged(id, previous, status, _) =>
      id in view.status && view.status[id] == previous && status != previous
    case ModuleEnabled(id, code) => id in view.status && (id, code) !in view.enabled
    case ModuleDisabled(id, code) => id in view.status && (id, code) in view.enabled
  }

  ghost predicate Consistent(seed: TenantDb, log: seq<TenantEvent>) {
    forall i :: 0 <= i < |log| ==> Fits(Replay(seed, log[..i]), log[i])
  }

  lemma ReplayAppend(seed: TenantDb, log: seq<TenantEvent>, event: TenantEvent)
    requires Consistent(seed, log) && Fits(Replay(seed, log), event)
    ensures Replay(seed, log + [event]) == Fold(Replay(seed, log), event)
    ensures Consistent(seed, log + [event])
  {
    var longer := log + [event];
    assert longer[..|log|] == log;
    forall i | 0 <= i < |longer| ensures Fits(Replay(seed, longer[..i]), longer[i]) {
      if i < |log| {
        assert longer[..i] == log[..i];
      }
    }
  }

  function Pairs(id: TenantId, order: seq<ModuleCode>): set<(TenantId, ModuleCode)> {
    set i | 0 <= i < |order| :: (id, order[i])
  }

  lemma PairsAppend(id: TenantId, order: seq<ModuleCode>, n: nat)
    requires |order| == n + 1 && forall i, j :: 0 <= i < j < |order| ==> order[i] != order[j]
    ensures Pairs(id, order) == Pairs(id, order[..n]) + {(id, order[n])}
    ensures (id, order[n]) !in Pairs(id, order[..n])
  {
  }

  lemma {:induction false} ReplayEnabled(seed: TenantDb, log: seq<TenantEvent>, id: TenantId, order: seq<ModuleCode>)
    requires Consistent(seed, log) && id in Replay(seed, log).status
    requires forall i :: 0 <= i < |order| ==> (id, order[i]) !in Replay(seed, log).enabled
    requires forall i, j :: 0 <= i < j < |order| ==> order[i] != order[j]
    ensures var after := log + EnabledEvents(id, order);
      && Consistent(seed, after)
      && Replay(seed, after).status == Replay(seed, log).status
      && Replay(seed, after).enabled == Replay(seed, log).enabled + Pairs(id, order)
    decreases |order|
  {
    hide Consistent, Replay, Pairs;
    if order == [] {
      assert log + EnabledEvents(id, order) == log;
      assert Pairs(id, order) == {} by { NoPairs(id); }
    } else {
      var n := |order| - 1;
      var shorter := log + EnabledEvents(id, order[..n]);
      ReplayEnabled(seed, log, id, order[..n]);
      PairsAppend(id, order, n);
      assert log + EnabledEvents(id, order) == shorter + [ModuleEnabled(id, order[n])];
      ReplayAppend(seed, shorter, ModuleEnabled(id, order[n]));
    }
  }

  lemma NoPairs(id: TenantId)
    ensures Pairs(id, []) == {}
  {
  }

  lemma {:induction false} ReplayDisabled(seed: TenantDb, log: seq<TenantEvent>, id: TenantId, order: seq<ModuleCode>)
    requires Consistent(seed, log) && id in Replay(seed, log).status
    requires forall i :: 0 <= i < |order| ==> (id, order[i]) in Replay(seed, log).enabled
    requires forall i, j :: 0 <= i < j < |order| ==> order[i] != order[j]
    ensures var after := log + DisabledEvents(id, order);
      && Consistent(seed, after)
      && Replay(seed, after).status == Replay(seed, log).status
      && Replay(seed, after).enabled == Replay(seed, log).enabled - Pairs(id, order)
    decreases |order|
  {
    hide Consistent, Replay, Pairs;
    if order == [] {
      assert log + DisabledEvents(id, order) == log;
      assert Pairs(id, order) == {} by { NoPairs(id); }
    } else {
      var n := |order| - 1;
      var shorter := log + DisabledEvents(id, order[..n]);
      ReplayDisabled(seed, log, id, order[..n]);
      PairsAppend(id, order, n);
      assert log + DisabledEvents(id, order) == shorter + [ModuleDisabled(id, order[n])];
      ReplayAppend(seed, shorter, ModuleDisabled(id, order[n]));
    }
  }

  ghost predicate Faithful(seed: TenantDb, db: TenantDb) {
    Replay(seed, db.log) == ViewOf(db) && Consistent(seed, db.log)
  }

  lemma ReplacementIsFaithful(seed: TenantDb, db: TenantDb, id: TenantId, requested: set<ModuleCode>,
                              enable: seq<ModuleCode>, disable: seq<ModuleCode>)
    requires Faithful(seed, db) && id in db.tenants && IsReplacement(db, id, requested, enable, disable)
    ensures Faithful(seed, ReplaceModules(db, id, requested, enable, disable).value)
  {
    var after := ReplaceModules(db, id, requested, enable, disable).value;
    var enabled := EnabledModules(db.modules, id);
    forall code ensures code in enabled <==> (id, code) in Replay(seed, db.log).enabled {
      assert code in enabled <==> (id, code) in db.modules && db.modules[(id, code)];
    }
    ReplayEnabled(seed, db.log, id, enable);
    var middle := db.log + EnabledEvents(id, enable);
    ReplayDisabled(seed, middle, id, disable);
    OrderAsSet(id, enable, requested - enabled);
    OrderAsSet(id, disable, enabled - requested);
    ViewAfterReplacement(db.modules, id, requested);
    assert Replay(seed, after.log).status == ViewOf(after).status;
  }

  lemma OrderAsSet(id: TenantId, order: seq<ModuleCode>, codes: set<ModuleCode>)
    requires Enumerates(order, codes)
    ensures Pairs(id, order) == set code | code in codes :: (id, code)
  {
  }

  lemma ViewAfterReplacement(modules: ModuleTable, id: TenantId, requested: set<ModuleCode>)
    ensures var enabled := EnabledModules(modules, id);
      var after := SetModules(SetModules(modules, id, requested, true), id, enabled - requested, false);
      (set key | key in after && after[key])
        == (set key | key in modules && modules[key])
           + (set code | code in requested - enabled :: (id, code))
           - set code | code in enabled - requested :: (id, code)
  {
  }

  lemma CreationIsFaithful(p: Platform, seed: TenantDb, db: TenantDb, id: TenantId, name: string,
                           domain: Option<string>)
    requires Faithful(seed, db) && id !in db.tenants
    ensures Faithful(seed, OrSame(db, CreateTenant(p, db, id, name, domain)))
  {
    hide Consistent, Replay, FirstFree, CodePrefix;
    var r := CreateTenant(p, db, id, name, domain);
    if r.Ok? {
      ReplayAppend(seed, db.log, Created(id, r.value.tenants[id].code, name, domain, Provisioning));
      assert Replay(seed, r.value.log).status == ViewOf(r.value).status;
    }
  }

  lemma StatusChangeIsFaithful(seed: TenantDb, db: TenantDb, id: TenantId, status: TenantStatus, reason: Option<string>)
    requires Faithful(seed, db)
    ensures Faithful(seed, OrSame(db, ChangeStatus(db, id, status, reason)))
  {
    hide Consistent, Replay;
    var after := OrSame(db, ChangeStatus(db, id, status, reason));
    if id in db.tenants && db.tenants[id].status != status {
      ReplayAppend(seed, db.log, StatusChanged(id, db.tenants[id].status, status, reason));
      assert Replay(seed, after.log).status == ViewOf(after).status;
    }
  }

  lemma StepIsFaithful(p: Platform, seed: TenantDb, db: TenantDb, call: Call)
    requires Faithful(seed, db) && Admissible(db, call)
    ensures Faithful(seed, Step(p, db, call))
  {
    hide Consistent, Replay, CreateTenant, ChangeStatus, ReplaceModules, IsReplacement;
    match call {
      case Create(id, name, domain) => CreationIsFaithful(p, seed, db, id, name, domain);
      case UpdateStatus(id, status, reason) => StatusChangeIsFaithful(seed, db, id, status, reason);
      case ReplaceAll(id, requested, enable, disable) =>
        ReplacementNeedsTenant(db, id, requested, enable, disable);
        if id in db.tenants {
          ReplacementIsFaithful(seed, db, id, requested, enable, disable);
        }
      case Rename(id, name) => assert ViewOf(Step(p, db, call)).status == ViewOf(db).status;
      case DomainsChange(_) =>
    }
  }

  lemma ReplacementNeedsTenant(db: TenantDb, id: TenantId, requested: set<ModuleCode>,
                                  enable: seq<ModuleCode>, disable: seq<ModuleCode>)
    ensures id in db.tenants <==> ReplaceModules(db, id, requested, enable, disable).Ok?
  {
  }

  /** After any run the log, folded over the seeded tables, gives every tenant's status and enabled
      modules; and every event fits what the log said before it. */
  lemma {:induction false} LogReplaysToTables(p: Platform, seed: TenantDb, calls: seq<Call>)
    ensures Faithful(seed, Run(p, seed, calls))
    decreases |calls|
  {
    if calls != [] {
      hide Faithful, Step;
      LogReplaysToTables(p, seed, calls[..|calls| - 1]);
      var before := Run(p, seed, calls[..|calls| - 1]);
      if Admissible(before, calls[|calls| - 1]) {
        StepIsFaithful(p, seed, before, calls[|calls| - 1]);
      }
    } else {
      SeedIsFaithful(seed);
    }
  }

  lemma SeedIsFaithful(seed: TenantDb)
    ensures Faithful(seed, Seeded(seed))
  {
  }

  // ---- What a consistent log looks like ----

  predicate AboutModule(event: TenantEvent, id: TenantId, code: ModuleCode) {
    event == ModuleEnabled(id, code) || event == ModuleDisabled(id, code)
  }

  lemma {:induction false} ModuleUntouched(seed: TenantDb, log: seq<TenantEvent>, id: TenantId, code: ModuleCode,
                                           i: nat, j: nat)
    requires i <= j <= |log| && forall t :: i <= t < j ==> !AboutModule(log[t], id, code)
    ensures (id, code) in Replay(seed, log[..j]).enabled <==> (id, code) in Replay(seed, log[..i]).enabled
    decreases j
  {
    if i < j {
      ModuleUntouched(seed, log, id, code, i, j - 1);
      assert log[..j][..j - 1] == log[..j - 1];
    }
  }

  /** No event about the module lies strictly between `i` and `j`. */
  predicate Between(log: seq<TenantEvent>, id: TenantId, code: ModuleCode, i: nat, j: nat)
    requires j < |log|
  {
    forall t :: i < t < j ==> !AboutModule(log[t], id, code)
  }

  /** For each tenant and module the first event enables it, unless it was seeded enabled. */
  lemma FirstModuleEventEnables(seed: TenantDb, log: seq<TenantEvent>, id: TenantId, code: ModuleCode, j: nat)
    requires Consistent(seed, log) && j < |log| && AboutModule(log[j], id, code)
    requires forall t :: 0 <= t < j ==> !AboutModule(log[t], id, code)
    ensures log[j].ModuleEnabled? <==> (id, code) !in ViewOf(seed).enabled
  {
    assert Fits(Replay(seed, log[..j]), log[j]);
    ModuleUntouched(seed, log, id, code, 0, j);
    assert log[..0] == [];
  }

  /** From then on disabling and enabling strictly alternate. */
  lemma ModuleEventsAlternate(seed: TenantDb, log: seq<TenantEvent>, id: TenantId, code: ModuleCode, i: nat, j: nat)
    requires Consistent(seed, log) && i < j < |log| && AboutModule(log[i], id, code) && AboutModule(log[j], id, code)
    requires Between(log, id, code, i, j)
    ensures log[i].ModuleEnabled? <==> log[j].ModuleDisabled?
  {
    assert Fits(Replay(seed, log[..j]), log[j]);
    ModuleUntouched(seed, log, id, code, i + 1, j);
    assert log[..i + 1][..i] == log[..i];
  }

  predicate SetsStatus(event: TenantEvent, id: TenantId) {
    (event.Created? || event.StatusChanged?) && event.id == id
  }

  lemma {:induction false} StatusUntouched(seed: TenantDb, log: seq<TenantEvent>, id: TenantId, i: nat, j: nat)
    requires i <= j <= |log| && forall t :: i <= t < j ==> !SetsStatus(log[t], id)
    ensures id in Replay(seed, log[..j]).status <==> id in Replay(seed, log[..i]).status
    ensures id in Replay(seed, log[..i]).status ==>
      Replay(seed, log[..j]).status[id] == Replay(seed, log[..i]).status[id]
    decreases j
  {
    if i < j {
      StatusUntouched(seed, log, id, i, j - 1);
      assert log[..j][..j - 1] == log[..j - 1];
    }
  }

  /** Each `previousStatus` is the status of the tenant's preceding event, and differs from
      the new one. */
  lemma PreviousStatusIsPreceding(seed: TenantDb, log: seq<TenantEvent>, i: nat, j: nat)
    requires Consistent(seed, log) && i < j < |log| && log[j].StatusChanged?
    requires SetsStatus(log[i], log[j].id) && forall t :: i < t < j ==> !SetsStatus(log[t], log[j].id)
    ensures log[j].previous == log[i].status && log[j].status != log[j].previous
  {
    assert Fits(Replay(seed, log[..j]), log[j]);
    StatusUntouched(seed, log, log[j].id, i + 1, j);
    assert log[..i + 1][..i] == log[..i];
  }

  // ---- Codes ----

  ghost predicate DistinctCodes(tenants: map<TenantId, Tenant>) {
    forall a, b :: a in tenants && b in tenants && a != b ==> tenants[a].code != tenants[b].code
  }

  /** Codes are pairwise distinct after any run, although generation looks only at codes
      sharing the prefix. */
  lemma {:induction false} CodesStayDistinct(p: Platform, seed: TenantDb, calls: seq<Call>)
    requires DistinctCodes(seed.tenants)
    ensures DistinctCodes(Run(p, seed, calls).tenants)
    decreases |calls|
  {
    if calls != [] {
      CodesStayDistinct(p, seed, calls[..|calls| - 1]);
      var before, call := Run(p, seed, calls[..|calls| - 1]), calls[|calls| - 1];
      if Admissible(before, call) {
        StepKeepsCodes(p, before, call);
      }
    }
  }

  lemma StepKeepsCodes(p: Platform, db: TenantDb, call: Call)
    requires DistinctCodes(db.tenants) && Admissible(db, call)
    ensures DistinctCodes(Step(p, db, call).tenants)
  {
    hide CodePrefix, FirstFree;
    if call.Create? {
      FirstFreeMeaning(CodePrefix(p, call.name, call.domain), Codes(db.tenants), 1);
      assert forall id :: id in db.tenants ==> db.tenants[id].code in Codes(db.tenants);
    }
  }
}
