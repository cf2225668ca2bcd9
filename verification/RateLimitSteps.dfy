// The same limiter under concurrency: INCR and EXPIRE of different requests interleave in
// any way, an EXPIRE may come late or never, and its request may have given up on it.
module RateLimitSteps {
  import opened Common
  import opened RateLimit

  datatype Op = Increment | SetExpiry

  /** What Redis executes on one key, one command after the other. */
  datatype Command = Command(time: Time, op: Op)
  datatype History = History(limit: int, windowSeconds: int, commands: seq<Command>)

  ghost predicate Ordered(h: History) {
    forall i, j :: 0 <= i <= j < |h.commands| ==> h.commands[i].time <= h.commands[j].time
  }

  function Execute(key: Option<Counter>, command: Command, windowSeconds: int): Option<Counter> {
    match command.op
    case Increment => Some(Incr(key, command.time))
    case SetExpiry => if Live(key, command.time) then Expire(key.value, command.time, windowSeconds) else None
  }

  /** The key after the first `n` commands. */
  function KeyAfterCommands(h: History, n: nat): Option<Counter>
    requires n <= |h.commands|
  {
    if n == 0 then None else Execute(KeyAfterCommands(h, n - 1), h.commands[n - 1], h.windowSeconds)
  }

  /** Command `i` is a request's INCR, and its count does not exceed the limit: without that
      the request is not admitted, whatever its other calls answer. */
  predicate Passes(h: History, i: nat)
    requires i < |h.commands|
  {
    h.commands[i].op.Increment? && Incr(KeyAfterCommands(h, i), h.commands[i].time).count <= h.limit
  }

  function Passing(h: History, i: nat, j: nat): nat
    requires i <= j <= |h.commands|
    decreases j
  {
    if i == j then 0 else Passing(h, i, j - 1) + if Passes(h, j - 1) then 1 else 0
  }

  /** Command `i` creates the key anew. */
  predicate Begins(h: History, i: nat)
    requires i < |h.commands|
  {
    h.commands[i].op.Increment? && !Live(KeyAfterCommands(h, i), h.commands[i].time)
  }

  lemma {:induction false} PassingSplits(h: History, i: nat, k: nat, j: nat)
    requires i <= k <= j <= |h.commands|
    ensures Passing(h, i, j) == Passing(h, i, k) + Passing(h, k, j)
    decreases j
  {
    if k < j {
      PassingSplits(h, i, k, j - 1);
    }
  }

  /** While no command creates the key anew, INCRs count on. */
  lemma {:induction false} OneWindowPasses(h: History, i: nat, j: nat)
    requires i <= j <= |h.commands| && h.windowSeconds > 0
    requires forall k :: i < k < j ==> !Begins(h, k)
    ensures Passing(h, i, j) <= Cap(h.limit)
    ensures Passing(h, i, j) == 0 || Expired(h, i, j)
         || (KeyAfterCommands(h, j).Some? && Passing(h, i, j) <= KeyAfterCommands(h, j).value.count)
    decreases j
  {
    if i < j {
      OneWindowPasses(h, i, j - 1);
      if i < j - 1 {
        assert !Begins(h, j - 1);
        ExpiredStays(h, i, j);
      }
    }
  }

  /** An EXPIRE found the key gone and nothing has created it since. */
  predicate Expired(h: History, i: nat, j: nat)
    requires i <= j <= |h.commands|
  {
    i < j && KeyAfterCommands(h, j).None?
  }

  lemma ExpiredStays(h: History, i: nat, j: nat)
    requires i < j - 1 && j <= |h.commands| && !Begins(h, j - 1)
    ensures Expired(h, i, j - 1) ==> Expired(h, i, j) && !h.commands[j - 1].op.Increment?
  {
  }

  /** A window that has begun lasts at least its length, or is gone when an EXPIRE finds it
      over. */
  lemma {:induction false} WindowLastsOn(h: History, i: nat, j: nat)
    requires Ordered(h) && h.windowSeconds > 0 && i < j <= |h.commands| && Begins(h, i)
    requires forall k :: i < k < j ==> !Begins(h, k)
    ensures match KeyAfterCommands(h, j)
      case Some(key) =>
        key.since == h.commands[i].time
        && (key.expiresAt.Some? ==> key.expiresAt.value >= h.commands[i].time + h.windowSeconds * 1000)
      case None => h.commands[j - 1].time >= h.commands[i].time + h.windowSeconds * 1000
    decreases j
  {
    if i < j - 1 {
      WindowLastsOn(h, i, j - 1);
      assert !Begins(h, j - 1);
      assert h.commands[i].time <= h.commands[j - 2].time <= h.commands[j - 1].time;
    }
  }

  function FirstBegin(h: History, i: nat, j: nat): (k: nat)
    requires i <= j <= |h.commands|
    ensures i <= k <= j && (k < j ==> Begins(h, k)) && forall m :: i <= m < k ==> !Begins(h, m)
    decreases j - i
  {
    if i == j || Begins(h, i) then i else FirstBegin(h, i + 1, j)
  }

  lemma NextWindowIsLater(h: History, i: nat, j: nat)
    requires Ordered(h) && h.windowSeconds > 0 && i < j < |h.commands| && Begins(h, i) && Begins(h, j)
    requires forall k :: i < k < j ==> !Begins(h, k)
    ensures h.commands[j].time >= h.commands[i].time + h.windowSeconds * 1000
  {
    WindowLastsOn(h, i, j);
    assert h.commands[j - 1].time <= h.commands[j].time;
  }

  /** Before a window begins nothing passed at the same instant. */
  lemma {:induction false} NothingPassesAtBeginning(h: History, i: nat, k: nat)
    requires Ordered(h) && h.windowSeconds > 0 && i <= k < |h.commands| && Begins(h, k)
    requires h.commands[i].time == h.commands[k].time && forall m :: i <= m < k ==> !Begins(h, m)
    ensures Passing(h, i, k) == 0
    ensures !Live(KeyAfterCommands(h, i), h.commands[i].time)
    decreases k - i
  {
    if i < k {
      assert h.commands[i].time <= h.commands[i + 1].time <= h.commands[k].time;
      NothingPassesAtBeginning(h, i + 1, k);
      PassingSplits(h, i, i + 1, k);
    }
  }

  /** However the commands of requests interleave, and however late an EXPIRE comes, every
      closed time interval as long as the window lets at most twice the limit pass. */
  lemma AnyIntervalPassesTwiceTheLimit(h: History, i: nat, j: nat)
    requires Ordered(h) && h.windowSeconds > 0 && i < j <= |h.commands|
    requires h.commands[j - 1].time <= h.commands[i].time + h.windowSeconds * 1000
    ensures Passing(h, i, j) <= 2 * Cap(h.limit)
  {
    var first := FirstBegin(h, i, j);
    PassingSplits(h, i, first, j);
    OneWindowPasses(h, i, first);
    if first < j {
      var second := FirstBegin(h, first + 1, j);
      PassingSplits(h, first, second, j);
      OneWindowPasses(h, first, second);
      if second < j {
        NextWindowIsLater(h, first, second);
        assert h.commands[i].time == h.commands[first].time;
        NothingPassesAtBeginning(h, i, first);
        var third := FirstBegin(h, second + 1, j);
        PassingSplits(h, second, third, j);
        OneWindowPasses(h, second, third);
        if third < j {
          NextWindowIsLater(h, second, third);
        }
      }
    }
  }

  /** A request alone executes INCR and, on a count of 1, EXPIRE, unless one is lost: what
      `consume` leaves is what these commands leave. */
  lemma ConsumeIsItsCommands(key: Option<Counter>, now: Time, fault: Fault, windowSeconds: int)
    ensures var counted := Execute(key, Command(now, Increment), windowSeconds);
      var expired := Execute(counted, Command(now, SetExpiry), windowSeconds);
      KeyAfter(key, windowSeconds, now, fault) ==
        if fault == IncrThrew(false) then key
        else if fault.IncrThrew? || counted.value.count != 1 || fault == ExpireThrew(false) then counted
        else expired
  {
  }
}
