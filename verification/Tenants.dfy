// apps/tenant-service/src/tenants/tenants.service.ts: tenants, their modules and the outbox
// events recorded in the same transactions. Each call is one atomic step.
module Tenants {
  import opened Common
  import opened TenantCodes

  /** Identifiers already parsed as UUIDs, and module codes already normalised. */
  type TenantId = nat
  type ModuleCode = string

  datatype TenantStatus = Provisioning | Active | Suspended | Removed

  datatype Tenant = Tenant(code: string, name: string, status: TenantStatus)

  datatype TenantEvent =
    | Created(id: TenantId, code: string, name: string, domain: Option<string>, status: TenantStatus)
    | StatusChanged(id: TenantId, previous: TenantStatus, status: TenantStatus, reason: Option<string>)
    | ModuleEnabled(id: TenantId, moduleCode: ModuleCode)
    | ModuleDisabled(id: TenantId, moduleCode: ModuleCode)

  type ModuleTable = map<(TenantId, ModuleCode), bool>

  datatype TenantDb = TenantDb(
    tenants: map<TenantId, Tenant>, modules: ModuleTable, domains: map<string, TenantId>, log: seq<TenantEvent>)

  datatype TenantError = TenantNotFound | DomainConflict | CodeGenerationFailed

  // ---- Specification of the calls ----

  function Codes(tenants: map<TenantId, Tenant>): set<string> {
    set id | id in tenants :: tenants[id].code
  }

  function CreateTenant(p: Platform, db: TenantDb, id: TenantId, name: string, domain: Option<string>)
    : Result<TenantDb, TenantError>
  {
    if domain.Some? && domain.value in db.domains then Err(DomainConflict)
    else match FirstFree(CodePrefix(p, name, domain), Codes(db.tenants), 1)
      case None => Err(CodeGenerationFailed)
      case Some(code) =>
        Ok(TenantDb(
          db.tenants[id := Tenant(code, name, Provisioning)], db.modules,
          if domain.Some? then db.domains[domain.value := id] else db.domains,
          db.log + [Created(id, code, name, domain, Provisioning)]))
  }

  function ChangeStatus(db: TenantDb, id: TenantId, status: TenantStatus, reason: Option<string>)
    : Result<TenantDb, TenantError>
  {
    if id !in db.tenants then Err(TenantNotFound)
    else if db.tenants[id].status == status then Ok(db)
    else
      Ok(db.(tenants := db.tenants[id := db.tenants[id].(status := status)],
             log := db.log + [StatusChanged(id, db.tenants[id].status, status, reason)]))
  }

  function EnabledModules(modules: ModuleTable, id: TenantId): set<ModuleCode> {
    set key | key in modules && key.0 == id && modules[key] :: key.1
  }

  function SetModules(modules: ModuleTable, id: TenantId, codes: set<ModuleCode>, enabled: bool): ModuleTable {
    modules + map code | code in codes :: (id, code) := enabled
  }

  predicate Enumerates(order: seq<ModuleCode>, codes: set<ModuleCode>) {
    && (forall i :: 0 <= i < |order| ==> order[i] in codes)
    && (forall code :: code in codes ==> code in order)
    && (forall i, j :: 0 <= i < j < |order| ==> order[i] != order[j])
  }

  function EnabledEvents(id: TenantId, order: seq<ModuleCode>): seq<TenantEvent> {
    seq(|order|, i requires 0 <= i < |order| => ModuleEnabled(id, order[i]))
  }

  function DisabledEvents(id: TenantId, order: seq<ModuleCode>): seq<TenantEvent> {
    seq(|order|, i requires 0 <= i < |order| => ModuleDisabled(id, order[i]))
  }

  /** `enable` and `disable` are the orders in which the events of this call are recorded. */
  predicate IsReplacement(db: TenantDb, id: TenantId, requested: set<ModuleCode>,
                          enable: seq<ModuleCode>, disable: seq<ModuleCode>)
  {
    && Enumerates(enable, requested - EnabledModules(db.modules, id))
    && Enumerates(disable, EnabledModules(db.modules, id) - requested)
  }

  function ReplaceModules(db: TenantDb, id: TenantId, requested: set<ModuleCode>,
                          enable: seq<ModuleCode>, disable: seq<ModuleCode>): Result<TenantDb, TenantError>
  {
    if id !in db.tenants then Err(TenantNotFound)
    else
      var modules := SetModules(db.modules, id, requested, true);
      Ok(db.(modules := SetModules(modules, id, EnabledModules(db.modules, id) - requested, false),
             log := db.log + EnabledEvents(id, enable) + DisabledEvents(id, disable)))
  }

  // ---- The service ----

  class TenantsService {
    const platform: Platform
    var tenants: map<TenantId, Tenant>
    var modules: ModuleTable
    var domains: map<string, TenantId>
    var log: seq<TenantEvent>

    /** The tables as seeded, without events. */
    constructor (platform: Platform, seed: TenantDb)
      ensures this.platform == platform && Db() == seed.(log := [])
    {
      this.platform := platform;
      tenants, modules, domains, log := seed.tenants, seed.modules, seed.domains, [];
    }

    ghost function Db(): TenantDb
      reads this
    {
      TenantDb(tenants, modules, domains, log)
    }

    method Record(event: TenantEvent)
      modifies this`log
      ensures log == old(log) + [event]
    {
      log := log + [event];
    }

    /** `id` is the generated primary key. */
    method Create(id: TenantId, name: string, domain: Option<string>) returns (r: Result<Tenant, TenantError>)
      requires id !in tenants
      modifies this
      ensures match CreateTenant(platform, old(Db()), id, name, domain)
        case Err(e) => r == Err(e) && Db() == old(Db())
        case Ok(after) => Db() == after && r == Ok(after.tenants[id])
    {
      if domain.Some? && domain.value in domains {
        return Err(DomainConflict);
      }
      var codes := set other | other in tenants :: tenants[other].code;
      var code := GenerateUniqueTenantCode(CodePrefix(platform, name, domain), codes);
      if code.None? {
        return Err(CodeGenerationFailed);
      }
      var tenant := Tenant(code.value, name, Provisioning);
      tenants := tenants[id := tenant];
      if domain.Some? {
        domains := domains[domain.value := id];
      }
      Record(Created(id, tenant.code, tenant.name, domain, tenant.status));
      return Ok(tenant);
    }

    method UpdateStatus(id: TenantId, status: TenantStatus, reason: Option<string>)
      returns (r: Result<Tenant, TenantError>)
      modifies this
      ensures match ChangeStatus(old(Db()), id, status, reason)
        case Err(e) => r == Err(e) && Db() == old(Db())
        case Ok(after) => Db() == after && id in after.tenants && r == Ok(after.tenants[id])
    {
      if id !in tenants {
        return Err(TenantNotFound);
      }
      var existing := tenants[id];
      if existing.status == status {
        return Ok(existing);
      }
      var tenant := existing.(status := status);
      tenants := tenants[id := tenant];
      Record(StatusChanged(id, existing.status, tenant.status, reason));
      return Ok(tenant);
    }

    /** Some order of the elements, as a query without ORDER BY lists them. */
    static method List(codes: set<ModuleCode>) returns (order: seq<ModuleCode>)
      ensures Enumerates(order, codes)
    {
      order := [];
      var rest := codes;
      while rest != {}
        invariant rest <= codes
        invariant Enumerates(order, codes - rest)
        decreases rest
      {
        var code :| code in rest;
        assert forall i :: 0 <= i < |order| ==> order[i] != code;
        order := order + [code];
        rest := rest - {code};
      }
      assert codes - rest == codes;
    }

    method ReplaceTenantModules(id: TenantId, requested: set<ModuleCode>)
      returns (r: Result<set<ModuleCode>, TenantError>, enable: seq<ModuleCode>, disable: seq<ModuleCode>)
      modifies this
      ensures IsReplacement(old(Db()), id, requested, enable, disable)
      ensures match ReplaceModules(old(Db()), id, requested, enable, disable)
        case Err(e) => r == Err(e) && Db() == old(Db())
        case Ok(after) => Db() == after && r == Ok(requested)
    {
      hide Enumerates;
      ghost var db := Db();
      var existingEnabled := set key | key in modules && key.0 == id && modules[key] :: key.1;
      assert existingEnabled == EnabledModules(db.modules, id);
      enable := List(requested - existingEnabled);
      disable := List(existingEnabled - requested);
      if id !in tenants {
        r := Err(TenantNotFound);
        return;
      }
      Upsert(id, requested);
      modules := modules + map code | code in existingEnabled - requested :: (id, code) := false;
      RecordEach(EnabledEvents(id, enable));
      RecordEach(DisabledEvents(id, disable));
      EnabledAfterReplacement(db.modules, id, requested);
      r := Ok(set key | key in modules && key.0 == id && modules[key] :: key.1);
    }

    method Upsert(id: TenantId, requested: set<ModuleCode>)
      modifies this`modules
      ensures modules == SetModules(old(modules), id, requested, true)
    {
      var rest := requested;
      while rest != {}
        invariant rest <= requested
        invariant modules == SetModules(old(modules), id, requested - rest, true)
        decreases rest
      {
        var code :| code in rest;
        modules := modules[(id, code) := true];
        rest := rest - {code};
      }
      assert requested - rest == requested;
    }

    method RecordEach(events: seq<TenantEvent>)
      modifies this`log
      ensures log == old(log) + events
    {
      for i := 0 to |events|
        invariant log == old(log) + events[..i]
      {
        Record(events[i]);
      }
    }
  }

  lemma EnabledAfterReplacement(modules: ModuleTable, id: TenantId, requested: set<ModuleCode>)
    ensures var disable := EnabledModules(modules, id) - requested;
      var after := SetModules(SetModules(modules, id, requested, true), id, disable, false);
      && EnabledModules(after, id) == requested
      && forall other :: other != id ==> EnabledModules(after, other) == EnabledModules(modules, other)
  {
    var disable := EnabledModules(modules, id) - requested;
    var after := SetModules(SetModules(modules, id, requested, true), id, disable, false);
    forall code ensures code in EnabledModules(after, id) <==> code in requested {
      assert code in EnabledModules(after, id) <==> (id, code) in after && after[(id, code)];
      assert code in EnabledModules(modules, id) <==> (id, code) in modules && modules[(id, code)];
    }
    forall other | other != id ensures EnabledModules(after, other) == EnabledModules(modules, other) {
      forall code ensures code in EnabledModules(after, other) <==> code in EnabledModules(modules, other) {
        assert code in EnabledModules(after, other) <==> (other, code) in after && after[(other, code)];
        assert code in EnabledModules(modules, other) <==> (other, code) in modules && modules[(other, code)];
      }
    }
  }
}
