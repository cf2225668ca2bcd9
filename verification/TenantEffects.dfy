// What tenant calls change, row by row, and what they record.
module TenantEffects {
  import opened Common
  import opened TenantCodes
  import opened Tenants

  /** Tenant codes of this prefix not yet given away. */
  ghost predicate IsFree(db: TenantDb, prefix: string, n: nat) {
    1 <= n <= 9999 && forall id :: id in db.tenants ==> db.tenants[id].code != prefix + Pad4(n)
  }

  /** A tenant is created exactly if its domain is new and some number of its prefix is free:
      with the first such number, in provisioning, and recorded with its name and domain.
      Nothing else changes. */
  lemma TenantCreationIsExact(p: Platform, db: TenantDb, id: TenantId, name: string, domain: Option<string>)
    requires id !in db.tenants
    ensures var r, prefix := CreateTenant(p, db, id, name, domain), CodePrefix(p, name, domain);
      && (r.Ok? <==> (domain.Some? ==> domain.value !in db.domains) && exists n :: IsFree(db, prefix, n))
      && (r.Err? ==>
            r.error == if domain.Some? && domain.value in db.domains then DomainConflict else CodeGenerationFailed)
      && (r.Ok? ==>
            && r.value.modules == db.modules
            && r.value.domains == (if domain.Some? then db.domains[domain.value := id] else db.domains)
            && r.value.tenants.Keys == db.tenants.Keys + {id}
            && (forall other :: other in db.tenants ==> r.value.tenants[other] == db.tenants[other])
            && var tenant := r.value.tenants[id];
              && tenant.name == name && tenant.status == Provisioning
              && (exists n :: IsFree(db, prefix, n) && tenant.code == prefix + Pad4(n)
                              && forall m :: IsFree(db, prefix, m) ==> n <= m)
              && r.value.log == db.log + [Created(id, tenant.code, name, domain, Provisioning)])
  {
    hide CodePrefix, FirstFree, Pad4;
    var prefix := CodePrefix(p, name, domain);
    FirstFreeMeaning(prefix, Codes(db.tenants), 1);
    forall n: nat | 1 <= n <= 9999 ensures IsFree(db, prefix, n) <==> prefix + Pad4(n) !in Codes(db.tenants) {
    }
    if FirstFree(prefix, Codes(db.tenants), 1).Some? {
      var n :| IsFirstFree(prefix, Codes(db.tenants), 1, n)
        && FirstFree(prefix, Codes(db.tenants), 1).value == Candidate(prefix, n);
      assert IsFree(db, prefix, n);
      forall m | IsFree(db, prefix, m) ensures n <= m {
        assert Candidate(prefix, m) !in Codes(db.tenants);
      }
    } else {
      forall n ensures !IsFree(db, prefix, n) {
        if 1 <= n <= 9999 {
          assert Candidate(prefix, n) in Codes(db.tenants);
        }
      }
    }
  }

  /** A status is changed exactly for a known tenant, and in its row alone; the event tells
      the status before and after and the reason, and none is written if they are equal. */
  lemma StatusChangeIsExact(db: TenantDb, id: TenantId, status: TenantStatus, reason: Option<string>)
    ensures var r := ChangeStatus(db, id, status, reason);
      && (r.Ok? <==> id in db.tenants)
      && (r.Ok? ==>
            && r.value.tenants == db.tenants[id := db.tenants[id].(status := status)]
            && r.value.modules == db.modules && r.value.domains == db.domains
            && r.value.log == db.log + if db.tenants[id].status == status then []
                                       else [StatusChanged(id, db.tenants[id].status, status, reason)])
  {
    if id in db.tenants && db.tenants[id].status == status {
      assert db.tenants == db.tenants[id := db.tenants[id].(status := status)];
    }
  }

  predicate IsEnabled(modules: ModuleTable, id: TenantId, code: ModuleCode) {
    (id, code) in modules && modules[(id, code)]
  }

  /** A replacement of modules succeeds exactly for a known tenant, enables the requested
      modules and no other of the tenant, and records each that changes, in either direction,
      once. Rows of disabled modules stay. */
  lemma ReplacementIsExact(db: TenantDb, id: TenantId, requested: set<ModuleCode>, enable: seq<ModuleCode>,
                           disable: seq<ModuleCode>, other: TenantId, code: ModuleCode)
    requires IsReplacement(db, id, requested, enable, disable)
    ensures var r := ReplaceModules(db, id, requested, enable, disable);
      && (r.Ok? <==> id in db.tenants)
      && (r.Ok? ==>
            && r.value.tenants == db.tenants && r.value.domains == db.domains
            && (IsEnabled(r.value.modules, other, code) <==>
                  if other == id then code in requested else IsEnabled(db.modules, other, code))
            && ((other, code) in db.modules ==> (other, code) in r.value.modules)
            && |r.value.log| == |db.log| + |enable| + |disable| && db.log <= r.value.log
            && (ModuleEnabled(other, code) in r.value.log[|db.log|..] <==>
                  other == id && code in requested && !IsEnabled(db.modules, id, code))
            && (ModuleDisabled(other, code) in r.value.log[|db.log|..] <==>
                  other == id && code !in requested && IsEnabled(db.modules, id, code)))
  {
    hide SetModules;
    assert code in EnabledModules(db.modules, id) <==> IsEnabled(db.modules, id, code);
    if id in db.tenants {
      ModulesAfter(db, id, requested, other, code);
      EventsOf(db, id, requested, enable, disable, other, code);
    }
  }

  lemma ModulesAfter(db: TenantDb, id: TenantId, requested: set<ModuleCode>, other: TenantId, code: ModuleCode)
    ensures var disable := EnabledModules(db.modules, id) - requested;
      var after := SetModules(SetModules(db.modules, id, requested, true), id, disable, false);
      && (IsEnabled(after, other, code) <==>
            if other == id then code in requested else IsEnabled(db.modules, other, code))
      && ((other, code) in db.modules ==> (other, code) in after)
  {
    assert code in EnabledModules(db.modules, id) <==> IsEnabled(db.modules, id, code);
  }

  lemma EventsOf(db: TenantDb, id: TenantId, requested: set<ModuleCode>, enable: seq<ModuleCode>,
                 disable: seq<ModuleCode>, other: TenantId, code: ModuleCode)
    requires IsReplacement(db, id, requested, enable, disable)
    ensures var events := EnabledEvents(id, enable) + DisabledEvents(id, disable);
      && (ModuleEnabled(other, code) in events <==> other == id && code in requested - EnabledModules(db.modules, id))
      && (ModuleDisabled(other, code) in events <==> other == id && code in EnabledModules(db.modules, id) - requested)
      && (db.log + EnabledEvents(id, enable) + DisabledEvents(id, disable))[|db.log|..] == events
  {
    hide EnabledModules;
    var events := EnabledEvents(id, enable) + DisabledEvents(id, disable);
    if other == id && code in enable {
      var i :| 0 <= i < |enable| && enable[i] == code;
      assert events[i] == ModuleEnabled(id, code);
    }
    if other == id && code in disable {
      var i :| 0 <= i < |disable| && disable[i] == code;
      assert events[|enable| + i] == ModuleDisabled(id, code);
    }
  }
}
