// apps/gateway-service/src/rate-limit: the fixed-window counter kept in Redis.
// INCR, EXPIRE and TTL are three calls, any of which may fail; one request is one step.
module RateLimit {
  import opened Common
  import opened Text

  /** Milliseconds on the Redis server's clock. */
  type Time = int

  /** A Redis key. `since` is when it was created (bookkeeping of this model). */
  datatype Counter = Counter(count: nat, expiresAt: Option<Time>, since: Time)

  /** A call that throws may have been executed. */
  datatype Fault = NoFault | IncrThrew(applied: bool) | ExpireThrew(applied: bool) | TtlThrew

  datatype Outcome = Answered(count: nat, remaining: int, ttl: int, exceeded: bool) | Unavailable

  predicate Live(key: Option<Counter>, now: Time) {
    key.Some? && (key.value.expiresAt.None? || now < key.value.expiresAt.value)
  }

  function Incr(key: Option<Counter>, now: Time): Counter {
    if Live(key, now) then key.value.(count := key.value.count + 1) else Counter(1, None, now)
  }

  /** EXPIRE; a time-to-live that is not positive deletes the key. */
  function Expire(counter: Counter, now: Time, windowSeconds: int): Option<Counter> {
    if windowSeconds <= 0 then None else Some(counter.(expiresAt := Some(now + windowSeconds * 1000)))
  }

  /** TTL in rounded seconds, -1 without expiry, -2 without key. */
  function Ttl(key: Option<Counter>, now: Time): int {
    if key.None? then -2
    else if key.value.expiresAt.None? then -1
    else (key.value.expiresAt.value - now + 500) / 1000
  }

  function Max(a: int, b: int): int {
    if a > b then a else b
  }

  /** The key after the request's INCR and, for a first request, EXPIRE. */
  function KeyAfter(key: Option<Counter>, windowSeconds: int, now: Time, fault: Fault): Option<Counter> {
    var counter := Incr(key, now);
    match fault
    case IncrThrew(applied) => if applied then Some(counter) else key
    case ExpireThrew(applied) =>
      if counter.count == 1 && applied then Expire(counter, now, windowSeconds) else Some(counter)
    case _ => if counter.count == 1 then Expire(counter, now, windowSeconds) else Some(counter)
  }

  function OutcomeOf(key: Option<Counter>, limit: int, windowSeconds: int, now: Time, fault: Fault): Outcome {
    var counter := Incr(key, now);
    if fault.IncrThrew? || fault.TtlThrew? || (fault.ExpireThrew? && counter.count == 1) then Unavailable
    else
      Answered(counter.count, Max(limit - counter.count, 0), Ttl(KeyAfter(key, windowSeconds, now, fault), now),
               counter.count > limit)
  }

  /** `canActivate` lets the request through. */
  predicate Admits(outcome: Outcome) {
    outcome.Answered? && !outcome.exceeded
  }

  // ---- The service ----

  class RedisRateLimitService {
    var keys: map<string, Counter>

    constructor ()
      ensures keys == map[]
    {
      keys := map[];
    }

    ghost function Key(key: string): Option<Counter>
      reads this
    {
      if key in keys then Some(keys[key]) else None
    }

    method IncrKey(key: string, now: Time) returns (count: nat)
      modifies this
      ensures keys == old(keys)[key := Incr(old(Key(key)), now)] && count == keys[key].count
    {
      if key in keys && (keys[key].expiresAt.None? || now < keys[key].expiresAt.value) {
        keys := keys[key := keys[key].(count := keys[key].count + 1)];
      } else {
        keys := keys[key := Counter(1, None, now)];
      }
      return keys[key].count;
    }

    method ExpireKey(key: string, now: Time, windowSeconds: int)
      requires key in keys
      modifies this
      ensures Key(key) == Expire(old(keys[key]), now, windowSeconds) && keys - {key} == old(keys) - {key}
    {
      if windowSeconds <= 0 {
        keys := keys - {key};
      } else {
        keys := keys[key := keys[key].(expiresAt := Some(now + windowSeconds * 1000))];
      }
    }

    /** One request touches its own key and no other. */
    method Consume(key: string, limit: int, windowSeconds: int, now: Time, fault: Fault) returns (r: Outcome)
      modifies this
      ensures r == OutcomeOf(old(Key(key)), limit, windowSeconds, now, fault)
      ensures Key(key) == KeyAfter(old(Key(key)), windowSeconds, now, fault)
      ensures keys - {key} == old(keys) - {key}
    {
      if fault == IncrThrew(false) {
        return Unavailable;
      }
      var count := IncrKey(key, now);
      if fault.IncrThrew? {
        return Unavailable;
      }
      if count == 1 {
        if fault == ExpireThrew(false) {
          return Unavailable;
        }
        ExpireKey(key, now, windowSeconds);
        if fault.ExpireThrew? {
          return Unavailable;
        }
      }
      if fault.TtlThrew? {
        return Unavailable;
      }
      var ttl := Ttl(if key in keys then Some(keys[key]) else None, now);
      return Answered(count, Max(limit - count, 0), ttl, count > limit);
    }
  }

  // ---- Traces of requests on one key ----

  datatype Request = Request(time: Time, fault: Fault)
  datatype Trace = Trace(limit: int, windowSeconds: int, requests: seq<Request>)

  ghost predicate InOrder(t: Trace) {
    forall i, j :: 0 <= i <= j < |t.requests| ==> t.requests[i].time <= t.requests[j].time
  }

  /** The key after the first `n` requests. */
  function KeyAt(t: Trace, n: nat): Option<Counter>
    requires n <= |t.requests|
  {
    if n == 0 then None
    else KeyAfter(KeyAt(t, n - 1), t.windowSeconds, t.requests[n - 1].time, t.requests[n - 1].fault)
  }

  function OutcomeAt(t: Trace, i: nat): Outcome
    requires i < |t.requests|
  {
    OutcomeOf(KeyAt(t, i), t.limit, t.windowSeconds, t.requests[i].time, t.requests[i].fault)
  }

  /** How many of the requests `i..j` are let through. */
  function Admitted(t: Trace, i: nat, j: nat): nat
    requires i <= j <= |t.requests|
    decreases j
  {
    if i == j then 0 else Admitted(t, i, j - 1) + if Admits(OutcomeAt(t, j - 1)) then 1 else 0
  }

  /** Request `i` creates the key anew: a window begins. */
  predicate Opens(t: Trace, i: nat)
    requires i < |t.requests|
  {
    !Live(KeyAt(t, i), t.requests[i].time) && t.requests[i].fault != IncrThrew(false)
  }

  /** How many counts do not exceed the limit. */
  function Cap(limit: int): nat {
    if limit < 0 then 0 else limit
  }

  lemma {:induction false} AdmittedSplits(t: Trace, i: nat, k: nat, j: nat)
    requires i <= k <= j <= |t.requests|
    ensures Admitted(t, i, j) == Admitted(t, i, k) + Admitted(t, k, j)
    decreases j
  {
    if k < j {
      AdmittedSplits(t, i, k, j - 1);
    }
  }

  /** Within one window, whatever fails, no more than the limit is admitted. */
  lemma {:induction false} OneWindow(t: Trace, i: nat, j: nat)
    requires i <= j <= |t.requests| && t.windowSeconds > 0
    requires forall k :: i < k < j ==> !Opens(t, k)
    ensures Admitted(t, i, j) <= Cap(t.limit)
    ensures Admitted(t, i, j) > 0 ==> KeyAt(t, j).Some? && Admitted(t, i, j) <= KeyAt(t, j).value.count
    decreases j
  {
    if i < j {
      OneWindow(t, i, j - 1);
      assert i < j - 1 ==> !Opens(t, j - 1);
    }
  }

  lemma KeyShape(t: Trace, n: nat)
    requires n <= |t.requests| && t.windowSeconds > 0
    ensures KeyAt(t, n).Some? ==>
              var key := KeyAt(t, n).value;
              key.count >= 1 && (key.expiresAt.Some? ==> key.expiresAt.value == key.since + t.windowSeconds * 1000)
  {
  }

  /** A window that has begun at `i` lasts at least its length. */
  lemma {:induction false} WindowLasts(t: Trace, i: nat, j: nat)
    requires InOrder(t) && t.windowSeconds > 0 && i < j <= |t.requests| && Opens(t, i)
    requires forall k :: i < k < j ==> !Opens(t, k)
    ensures KeyAt(t, j).Some? && KeyAt(t, j).value.since == t.requests[i].time
    ensures KeyAt(t, j).value.expiresAt.Some? ==>
              KeyAt(t, j).value.expiresAt.value == t.requests[i].time + t.windowSeconds * 1000
    decreases j
  {
    if i < j - 1 {
      WindowLasts(t, i, j - 1);
      KeyShape(t, j - 1);
      assert !Opens(t, j - 1);
    }
  }

  /** The first request of `i..j` that opens a window, or `j`. */
  function FirstOpen(t: Trace, i: nat, j: nat): (k: nat)
    requires i <= j <= |t.requests|
    ensures i <= k <= j && (k < j ==> Opens(t, k)) && forall m :: i <= m < k ==> !Opens(t, m)
    decreases j - i
  {
    if i == j || Opens(t, i) then i else FirstOpen(t, i + 1, j)
  }

  /** Before a window opens nothing was admitted at the same instant. */
  lemma {:induction false} NothingAdmittedAtOpening(t: Trace, i: nat, k: nat)
    requires InOrder(t) && t.windowSeconds > 0 && i <= k < |t.requests| && Opens(t, k)
    requires t.requests[i].time == t.requests[k].time && forall m :: i <= m < k ==> !Opens(t, m)
    ensures Admitted(t, i, k) == 0
    ensures !Live(KeyAt(t, i), t.requests[i].time)
    decreases k - i
  {
    if i < k {
      assert t.requests[i].time <= t.requests[i + 1].time <= t.requests[k].time;
      NothingAdmittedAtOpening(t, i + 1, k);
      AdmittedSplits(t, i, i + 1, k);
    }
  }

  /** Every time interval as long as the window, ends included, admits at most twice the
      limit, whatever calls fail. */
  lemma AnyIntervalAdmitsTwiceTheLimit(t: Trace, i: nat, j: nat)
    requires InOrder(t) && t.windowSeconds > 0 && i < j <= |t.requests|
    requires t.requests[j - 1].time <= t.requests[i].time + t.windowSeconds * 1000
    ensures Admitted(t, i, j) <= 2 * Cap(t.limit)
  {
    var first := FirstOpen(t, i, j);
    AdmittedSplits(t, i, first, j);
    OneWindow(t, i, first);
    if first < j {
      var second := FirstOpen(t, first + 1, j);
      AdmittedSplits(t, first, second, j);
      OneWindow(t, first, second);
      if second < j {
        WindowLasts(t, first, second);
        assert t.requests[i].time == t.requests[first].time;
        NothingAdmittedAtOpening(t, i, first);
        var third := FirstOpen(t, second + 1, j);
        AdmittedSplits(t, second, third, j);
        OneWindow(t, second, third);
        if third < j {
          WindowLasts(t, second, third);
        }
      }
    }
  }

  // ---- Without failures a window is exact ----

  /** The requests of one window are numbered 1, 2, ..: the first `limit` of them are let
      through, and `remaining` counts down to zero. */
  lemma {:induction false} WindowIsExact(t: Trace, i: nat, j: nat)
    requires t.windowSeconds > 0 && i < j <= |t.requests| && Opens(t, i)
    requires forall k :: i < k < j ==> !Opens(t, k)
    requires forall k :: i <= k < j ==> t.requests[k].fault == NoFault
    ensures KeyAt(t, j).Some? && KeyAt(t, j).value.count == j - i
    ensures var last := OutcomeAt(t, j - 1);
      last.Answered? && last.count == j - i && last.remaining == Max(t.limit - (j - i), 0)
    ensures Admitted(t, i, j) == if j - i < Cap(t.limit) then j - i else Cap(t.limit)
    decreases j
  {
    if i < j - 1 {
      WindowIsExact(t, i, j - 1);
      assert !Opens(t, j - 1);
    }
  }

  // ---- A key that lost its expiry ----

  /** In the window that request `i` opens, the key is without expiry exactly if that
      request got past INCR but its EXPIRE was not executed. */
  lemma {:induction false} ExpiryIsLostIff(t: Trace, i: nat, n: nat)
    requires t.windowSeconds > 0 && i < n <= |t.requests| && Opens(t, i)
    requires forall k :: i < k < n ==> !Opens(t, k)
    ensures KeyAt(t, n).Some? && KeyAt(t, n).value.expiresAt.None? <==>
      t.requests[i].fault in {IncrThrew(true), ExpireThrew(false)}
    decreases n
  {
    KeyShape(t, n - 1);
    if i < n - 1 {
      ExpiryIsLostIff(t, i, n - 1);
      assert !Opens(t, n - 1);
    }
  }

  /** From then on the window never ends: over the whole rest of the trace at most the
      limit is admitted. */
  lemma {:induction false} LostExpiryBlocksForGood(t: Trace, n: nat, j: nat)
    requires t.windowSeconds > 0 && n < j <= |t.requests| && Opens(t, n)
    requires KeyAt(t, n + 1).Some? && KeyAt(t, n + 1).value.expiresAt.None?
    ensures KeyAt(t, j).Some? && KeyAt(t, j).value.expiresAt.None?
    ensures forall k :: n < k < j ==> !Opens(t, k)
    ensures Admitted(t, n, j) <= Cap(t.limit)
    decreases j
  {
    if n < j - 1 {
      LostExpiryBlocksForGood(t, n, j - 1);
      KeyShape(t, j - 1);
    }
    OneWindow(t, n, j);
  }

  /** A window that is not positive limits nothing: each request finds a fresh key. */
  lemma {:induction false} NoWindowNoLimit(t: Trace, n: nat)
    requires t.windowSeconds <= 0 && t.limit >= 1 && n <= |t.requests|
    requires forall k :: 0 <= k < n ==> t.requests[k].fault == NoFault
    ensures KeyAt(t, n).None? && Admitted(t, 0, n) == n
  {
    if n > 0 {
      NoWindowNoLimit(t, n - 1);
    }
  }

  // ---- When to come back ----

  /** `resetAt` in seconds, from the gateway's clock. */
  function ResetAt(gatewayNow: Time, ttl: int): int {
    gatewayNow / 1000 + Max(ttl, 0)
  }

  /** Every answered request of a window is told its end: the time to live is what is left of
      the window to half a second, and with the two clocks alike `resetAt` is less than one
      and a half seconds early and at most half a second late. Without an expiry it is now. */
  lemma AnswersTellTheWindowsEnd(t: Trace, i: nat, j: nat)
    requires InOrder(t) && t.windowSeconds > 0 && i < j <= |t.requests| && Opens(t, i)
    requires forall k :: i < k < j ==> !Opens(t, k)
    requires OutcomeAt(t, j - 1).Answered?
    ensures var now, ttl := t.requests[j - 1].time, OutcomeAt(t, j - 1).ttl;
      if t.requests[i].fault in {IncrThrew(true), ExpireThrew(false)} then ttl == -1 && ResetAt(now, ttl) == now / 1000
      else
        var end := t.requests[i].time + t.windowSeconds * 1000;
        && 0 <= ttl <= t.windowSeconds
        && end - now - 500 < ttl * 1000 <= end - now + 500
        && end - 1500 < ResetAt(now, ttl) * 1000 <= end + 500
  {
    WindowLasts(t, i, j);
    ExpiryIsLostIff(t, i, j);
    KeyAliveInWindow(t, i, j);
  }

  lemma KeyAliveInWindow(t: Trace, i: nat, j: nat)
    requires InOrder(t) && t.windowSeconds > 0 && i < j <= |t.requests| && Opens(t, i)
    requires forall k :: i < k < j ==> !Opens(t, k)
    requires OutcomeAt(t, j - 1).Answered?
    ensures t.requests[i].time <= t.requests[j - 1].time
    ensures KeyAt(t, j).Some? && KeyAt(t, j).value.expiresAt.Some? ==>
      t.requests[j - 1].time < KeyAt(t, j).value.expiresAt.value
  {
    WindowLasts(t, i, j);
    if i < j - 1 {
      assert !Opens(t, j - 1);
      WindowLasts(t, i, j - 1);
    }
  }

  // ---- rate-limit.guard.ts: which requests share a key ----

  datatype Caller = Identified(tenantId: string, userId: string) | Anonymous(ip: string)

  /** The path is /api/{group}, or lies below it. */
  ghost predicate InGroup(path: string, group: string) {
    exists rest :: path == "/api/" + group + rest && (rest == "" || rest[0] == '/')
  }

  lemma GroupByPrefix(path: string, group: string)
    ensures InGroup(path, group) <==> path == "/api/" + group || "/api/" + group + "/" <= path
  {
    var base := "/api/" + group;
    if path == base {
      assert path == base + "";
    } else if base + "/" <= path {
      assert path == base + path[|base|..];
    }
  }

  lemma GroupsAreDisjoint(path: string)
    ensures InGroup(path, "auth") <==> path == "/api/auth" || "/api/auth/" <= path
    ensures InGroup(path, "admin") <==> path == "/api/admin" || "/api/admin/" <= path
    ensures !(InGroup(path, "auth") && InGroup(path, "admin"))
  {
    GroupByPrefix(path, "auth");
    GroupByPrefix(path, "admin");
    assert InGroup(path, "auth") ==> |path| > 6 && path[6] == "/api/auth"[6] == 'u';
    assert InGroup(path, "admin") ==> |path| > 6 && path[6] == "/api/admin"[6] == 'd';
  }

  /** Exactly the paths of these two groups are limited, each under its own. */
  function RouteGroup(path: string): (r: Option<string>)
    ensures r == Some("auth") <==> InGroup(path, "auth")
    ensures r == Some("admin") <==> InGroup(path, "admin")
    ensures r in {None, Some("auth"), Some("admin")}
  {
    GroupsAreDisjoint(path);
    if path == "/api/auth" || "/api/auth/" <= path then Some("auth")
    else if path == "/api/admin" || "/api/admin/" <= path then Some("admin")
    else None
  }

  function Suffix(caller: Caller, group: string): string {
    match caller
    case Identified(tenantId, userId) => tenantId + ":" + userId + ":" + group
    case Anonymous(ip) => "anonymous:" + ip + ":" + group
  }

  function BuildKey(env: string, caller: Caller, group: string): string {
    "rate-limit:" + env + ":gateway:" + Suffix(caller, group)
  }

  /** A user id comes from the token and is a UUID; the tenant of a caller whose token
      names none is whatever the request's header says. */
  predicate WellFormed(caller: Caller, group: string) {
    group in {"auth", "admin"} && (caller.Identified? ==> IsUuid(caller.userId))
  }

  /** A header that mimics an anonymous key. */
  predicate Mimics(a: Caller, b: Caller) {
    && a.Identified? && b.Anonymous?
    && (|| (a.tenantId == "anonymous" && b.ip == a.userId)
        || ("anonymous:" <= a.tenantId && b.ip == a.tenantId[10..] + ":" + a.userId))
  }

  lemma SameGroup(a: Caller, groupA: string, b: Caller, groupB: string)
    requires WellFormed(a, groupA) && WellFormed(b, groupB) && Suffix(a, groupA) == Suffix(b, groupB)
    ensures groupA == groupB
  {
    hide IsUuid;
    var x, y := Suffix(a, groupA), Suffix(b, groupB);
    assert x[|x| - 1] == groupA[|groupA| - 1] && y[|y| - 1] == groupB[|groupB| - 1];
  }

  lemma SameIdentity(a: Caller, b: Caller, group: string)
    requires WellFormed(a, group) && WellFormed(b, group) && Suffix(a, group) == Suffix(b, group)
    requires a.Identified? && b.Identified?
    ensures a == b
  {
    var x, y := Suffix(a, group), Suffix(b, group);
    var n := |a.tenantId|;
    assert a.tenantId == x[..n] == y[..n] == b.tenantId;
    assert a.userId == x[n + 1..n + 37] == y[n + 1..n + 37] == b.userId;
  }

  lemma SameAddress(a: Caller, b: Caller, group: string)
    requires Suffix(a, group) == Suffix(b, group) && a.Anonymous? && b.Anonymous?
    ensures a == b
  {
    var x, y := Suffix(a, group), Suffix(b, group);
    assert a.ip == x[10..10 + |a.ip|] == y[10..10 + |b.ip|] == b.ip;
  }

  lemma MixedKinds(a: Caller, b: Caller, group: string)
    requires WellFormed(a, group) && a.Identified? && b.Anonymous?
    ensures Suffix(a, group) == Suffix(b, group) <==> Mimics(a, b)
  {
    var x, y := Suffix(a, group), Suffix(b, group);
    var n := |a.tenantId|;
    if x == y {
      assert |b.ip| + 10 == n + 37;
      assert b.ip == y[10..10 + |b.ip|] == x[10..n + 37];
      var whole := a.tenantId + ":" + a.userId;
      assert x[..n + 37] == whole && whole[10..] == b.ip;
      assert whole[..10] == x[..10] == y[..10] == "anonymous:";
      ColonPlace(a, b, whole);
    }
    if Mimics(a, b) {
      MimicryCollides(a, b, group);
    }
  }

  lemma MimicryCollides(a: Caller, b: Caller, group: string)
    requires Mimics(a, b)
    ensures Suffix(a, group) == Suffix(b, group)
  {
  }

  lemma ColonPlace(a: Caller, b: Caller, whole: string)
    requires a.Identified? && b.Anonymous? && IsUuid(a.userId)
    requires whole == a.tenantId + ":" + a.userId && |whole| >= 10
    requires whole[..10] == "anonymous:" && whole[10..] == b.ip
    ensures Mimics(a, b)
  {
    var n := |a.tenantId|;
    assert whole[n] == ':';
    assert forall i :: 0 <= i < 9 ==> whole[i] == whole[..10][i] == "anonymous:"[i] != ':';
    if n == 9 {
      assert a.tenantId == whole[..10][..9] == "anonymous";
      assert whole[10..] == a.userId;
    } else {
      assert a.tenantId[..10] == whole[..10];
      assert whole[10..] == a.tenantId[10..] + ":" + a.userId;
    }
  }

  /** Two limited requests at one gateway count against each other exactly when they go to
      the same group and come from the same user of the same tenant, or without identity
      from the same address (which may contain colons); or when a tenant header mimics an
      anonymous key. */
  lemma KeysSeparateCallers(env: string, a: Caller, groupA: string, b: Caller, groupB: string)
    requires WellFormed(a, groupA) && WellFormed(b, groupB)
    ensures BuildKey(env, a, groupA) == BuildKey(env, b, groupB) <==>
      groupA == groupB && (a == b || Mimics(a, b) || Mimics(b, a))
  {
    hide WellFormed, Mimics, Suffix;
    var n := |"rate-limit:" + env + ":gateway:"|;
    assert Suffix(a, groupA) == BuildKey(env, a, groupA)[n..];
    assert Suffix(b, groupB) == BuildKey(env, b, groupB)[n..];
    if Suffix(a, groupA) == Suffix(b, groupB) {
      SameGroup(a, groupA, b, groupB);
    }
    if groupA == groupB {
      SameCaller(a, b, groupA);
    }
  }

  lemma SameCaller(a: Caller, b: Caller, group: string)
    requires WellFormed(a, group) && WellFormed(b, group)
    ensures Suffix(a, group) == Suffix(b, group) <==> a == b || Mimics(a, b) || Mimics(b, a)
  {
    if a.Identified? && b.Anonymous? {
      MixedKinds(a, b, group);
    } else if a.Anonymous? && b.Identified? {
      MixedKinds(b, a, group);
    } else if Suffix(a, group) == Suffix(b, group) {
      if a.Identified? {
        SameIdentity(a, b, group);
      } else {
        SameAddress(a, b, group);
      }
    }
  }

  /** No UUID mimics: between tenants of tokens and anonymous callers nothing is shared. */
  lemma UuidTenantsAreSeparate(a: Caller, b: Caller)
    requires a.Identified? && IsUuid(a.tenantId)
    ensures !Mimics(a, b)
  {
    assert IsHex(a.tenantId[1]);
  }
}
