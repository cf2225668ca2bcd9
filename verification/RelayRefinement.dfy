// The worker's code is one behaviour of the delivery protocol, so every guarantee about
// runs holds for it; and polls that claim something use up the retries left.
module RelayRefinement {
  import opened Envelope
  import opened Outbox
  import opened Protocol
  import opened ProtocolInvariant
  import opened Delivery
  import opened RelayRun

  /** `t` is where `actions` lead from `s`, every one of them enabled in its turn. */
  ghost predicate Reaches(c: Config, s: State, actions: seq<Action>, t: State)
    decreases |actions|
  {
    if actions == [] then t == s
    else Enabled(c, s, actions[0]) && Reaches(c, Apply(c, s, actions[0]), actions[1..], t)
  }

  lemma {:induction false} ReachesThen(c: Config, s: State, first: seq<Action>, t: State, second: seq<Action>, u: State)
    requires Reaches(c, s, first, t) && Reaches(c, t, second, u)
    ensures Reaches(c, s, first + second, u)
    decreases |first|
  {
    if first == [] {
      assert first + second == second;
    } else {
      ReachesThen(c, Apply(c, s, first[0]), first[1..], t, second, u);
      assert (first + second)[1..] == first[1..] + second;
    }
  }

  lemma ReachesOne(c: Config, s: State, a: Action)
    requires Enabled(c, s, a)
    ensures Reaches(c, s, [a], Apply(c, s, a))
  {
  }

  lemma {:induction false} ReachesKeepsInv(c: Config, s: State, actions: seq<Action>, t: State)
    requires Inv(c, s) && Reaches(c, s, actions, t)
    ensures Inv(c, t)
    decreases |actions|
  {
    if actions != [] {
      hide Inv;
      StepKeepsInv(c, s, actions[0]);
      ReachesKeepsInv(c, Apply(c, s, actions[0]), actions[1..], t);
    }
  }

  // ---- One event ----

  /** The protocol state after `outcome`, with the worker's remaining hand. */
  function After(s: State, outcome: Outcome, w: WorkerId, hand: Hand): State {
    s.(rows := outcome.rows, messages := outcome.messages,
       workers := s.workers[w := if outcome.aborted then map[] else hand])
  }

  lemma CatchReaches(c: Config, s: State, w: WorkerId, k: nat, env: Attempt) returns (actions: seq<Action>)
    requires HasJob(s, w, k, Caught)
    ensures var outcome := CatchBlock(c, s.rows, s.messages, w, k, s.workers[w][k].event, env);
      Reaches(c, s, actions, After(s, outcome, w, s.workers[w] - {k}))
  {
    hide FailureOf;
    var a := ConfirmFailed(w, k, env.error, env.failedAt, env.fail);
    actions := [a];
    ReachesOne(c, s, a);
  }

  /** After a refused or invalid send the worker is in the catch block; after an accepted
      one it goes on to `markPublished`, which may throw it there too. */
  lemma SendThenCatch(c: Config, s: State, w: WorkerId, k: nat, env: Attempt, t: State, before: seq<Action>)
    returns (actions: seq<Action>)
    requires w in s.workers && k in s.workers[w] && HasJob(t, w, k, Caught)
    requires Reaches(c, s, before, t)
    requires t == s.(rows := t.rows, messages := t.messages, workers := t.workers)
    requires t.workers.Keys == s.workers.Keys && t.workers - {w} == s.workers - {w}
    requires t.workers[w] - {k} == s.workers[w] - {k} && t.workers[w][k].event == s.workers[w][k].event
    ensures var outcome := CatchBlock(c, t.rows, t.messages, w, k, s.workers[w][k].event, env);
      Reaches(c, s, actions, After(s, outcome, w, s.workers[w] - {k}))
  {
    hide CatchBlock, Reaches;
    var rest := CatchReaches(c, t, w, k, env);
    var outcome := CatchBlock(c, t.rows, t.messages, w, k, s.workers[w][k].event, env);
    var u, v := After(t, outcome, w, t.workers[w] - {k}), After(s, outcome, w, s.workers[w] - {k});
    forall x | x in u.workers ensures x in v.workers && u.workers[x] == v.workers[x] {
      if x != w {
        assert x in t.workers - {w} && (t.workers - {w})[x] == (s.workers - {w})[x];
      }
    }
    assert u.workers == v.workers;
    ReachesThen(c, s, before, t, rest, v);
    actions := before + rest;
  }

  /** `processEvent` is a send, a mark, or a failed attempt followed by the catch block. */
  lemma EventReaches(c: Config, s: State, w: WorkerId, k: nat, env: Attempt) returns (actions: seq<Action>)
    requires HasJob(s, w, k, InHand)
    ensures var outcome := ProcessEvent(c, s.rows, s.messages, w, k, s.workers[w][k].event, env);
      Reaches(c, s, actions, After(s, outcome, w, s.workers[w] - {k}))
  {
    hide ValidateClaimed, CatchBlock, Reaches, MarkPublished;
    var hand := s.workers[w];
    var send := Send(w, k, env.send);
    var t := Apply(c, s, send);
    ReachesOne(c, s, send);
    actions := [send];
    if HasJob(t, w, k, Phase.Sent) {
      var confirm := ConfirmPublished(w, k, env.sentAt, env.target, env.confirm);
      var u := Apply(c, t, confirm);
      ReachesOne(c, t, confirm);
      ReachesThen(c, s, actions, t, [confirm], u);
      actions := actions + [confirm];
      if env.confirm.Done? {
        assert t.workers[w] - {k} == hand - {k};
        assert u.workers == s.workers[w := hand - {k}];
      } else {
        assert u.workers[w] - {k} == hand - {k};
        actions := SendThenCatch(c, s, w, k, env, u, actions);
      }
    } else {
      assert t.workers[w] - {k} == hand - {k};
      actions := SendThenCatch(c, s, w, k, env, t, actions);
    }
  }

  // ---- One batch ----

  function HandOf(rows: seq<Row>, ids: set<nat>): Hand {
    map k | k in ids && k < |rows| :: Job(ToClaimedEvent(rows[k]), InHand)
  }

  function Processed(order: seq<nat>): set<nat> {
    set i | 0 <= i < |order| :: order[i]
  }

  lemma InOrder(c: Config, rows: seq<Row>, batch: Batch)
    requires IsBatch(c, rows, batch)
    ensures forall i :: 0 <= i < |batch.order| ==> batch.order[i] in batch.chosen && batch.order[i] < |rows|
    ensures forall n :: 0 <= n < |batch.order| ==> batch.order[n] !in Processed(batch.order[..n])
  {
    hide OldestOf;
  }

  lemma ClaimReaches(c: Config, s: State, w: WorkerId, batch: Batch)
    requires w in s.workers && s.workers[w] == map[] && IsBatch(c, s.rows, batch)
    ensures var hand := if batch.db.Done? then HandOf(s.rows, batch.chosen) else map[];
      var rows := if Applied(batch.db) then LockRows(s.rows, batch.chosen, w, batch.now) else s.rows;
      Reaches(c, s, [Claim(w, batch.now, batch.skipped, batch.chosen, batch.db)],
              s.(rows := rows, workers := s.workers[w := hand]))
  {
    hide Reaches;
    var a := Claim(w, batch.now, batch.skipped, batch.chosen, batch.db);
    ReachesOne(c, s, a);
    var t := Apply(c, s, a);
    if batch.db.Done? {
      assert t.workers[w] == HandOf(s.rows, batch.chosen);
    }
    assert t.workers == s.workers[w := if batch.db.Done? then HandOf(s.rows, batch.chosen) else map[]];
  }

  lemma OneMoreReaches(c: Config, s: State, w: WorkerId, batch: Batch, env: nat -> Attempt, n: nat,
                       outcome: Outcome, before: seq<Action>)
    returns (actions: seq<Action>)
    requires w in s.workers && IsBatch(c, s.rows, batch) && n < |batch.order| && !outcome.aborted
    requires Reaches(c, s, before, After(s, outcome, w, HandOf(s.rows, batch.chosen - Processed(batch.order[..n]))))
    ensures batch.order[n] < |s.rows|
    ensures var k := batch.order[n];
      var last := ProcessEvent(c, outcome.rows, outcome.messages, w, k, ToClaimedEvent(s.rows[k]), env(k));
      Reaches(c, s, actions, After(s, last, w, HandOf(s.rows, batch.chosen - Processed(batch.order[..n + 1]))))
  {
    hide Reaches, ProcessEvent, IsBatch, ToClaimedEvent;
    InOrder(c, s.rows, batch);
    var k := batch.order[n];
    var hand := HandOf(s.rows, batch.chosen - Processed(batch.order[..n]));
    var t := After(s, outcome, w, hand);
    var rest := EventReaches(c, t, w, k, env(k));
    assert Processed(batch.order[..n + 1]) == Processed(batch.order[..n]) + {k};
    assert hand - {k} == HandOf(s.rows, batch.chosen - Processed(batch.order[..n + 1]));
    var last := ProcessEvent(c, t.rows, t.messages, w, k, hand[k].event, env(k));
    var u := After(t, last, w, hand - {k});
    assert u.workers == After(s, last, w, hand - {k}).workers;
    ReachesThen(c, s, before, t, rest, u);
    actions := before + rest;
  }

  lemma {:induction false} PrefixReaches(c: Config, s: State, w: WorkerId, batch: Batch, env: nat -> Attempt, n: nat)
    returns (actions: seq<Action>)
    requires w in s.workers && s.workers[w] == map[] && IsBatch(c, s.rows, batch)
    requires batch.db.Done? && n <= |batch.order|
    ensures var locked := LockRows(s.rows, batch.chosen, w, batch.now);
      var outcome := ProcessAll(c, s.rows, locked, s.messages, w, batch.order[..n], env);
      Reaches(c, s, actions, After(s, outcome, w, HandOf(s.rows, batch.chosen - Processed(batch.order[..n]))))
    decreases n
  {
    hide Reaches, ProcessEvent, IsBatch, LockRows, ToClaimedEvent, HandOf;
    InOrder(c, s.rows, batch);
    if n == 0 {
      ClaimReaches(c, s, w, batch);
      assert batch.chosen - Processed(batch.order[..0]) == batch.chosen;
      return [Claim(w, batch.now, batch.skipped, batch.chosen, batch.db)];
    }
    var locked := LockRows(s.rows, batch.chosen, w, batch.now);
    var k, before := batch.order[n - 1], batch.order[..n - 1];
    assert batch.order[..n][..n - 1] == before && batch.order[..n][n - 1] == k;
    actions := PrefixReaches(c, s, w, batch, env, n - 1);
    var outcome := ProcessAll(c, s.rows, locked, s.messages, w, before, env);
    if !outcome.aborted {
      actions := OneMoreReaches(c, s, w, batch, env, n - 1, outcome, actions);
    }
  }

  /** The protocol state in which one run of a worker ends. */
  ghost function BatchEnd(c: Config, s: State, w: WorkerId, batch: Batch, env: nat -> Attempt): State
    requires IsBatch(c, s.rows, batch)
  {
    After(s, RunBatch(c, s.rows, s.messages, w, batch, env), w, HandOf(s.rows, batch.chosen - Processed(batch.order)))
  }

  /** Whatever one run of a worker does to its source and the queue is a run of the
      protocol from the worker's idle state: the reachable states and all guarantees of
      `Delivery` include the code's. */
  lemma BatchReaches(c: Config, s: State, w: WorkerId, batch: Batch, env: nat -> Attempt)
    returns (actions: seq<Action>)
    requires w in s.workers && s.workers[w] == map[] && IsBatch(c, s.rows, batch)
    ensures Reaches(c, s, actions, BatchEnd(c, s, w, batch, env))
  {
    hide Reaches, IsBatch, LockRows, ProcessAll, HandOf;
    if batch.db.Threw? {
      ClaimReaches(c, s, w, batch);
      actions := [Claim(w, batch.now, batch.skipped, batch.chosen, batch.db)];
    } else {
      actions := PrefixReaches(c, s, w, batch, env, |batch.order|);
      assert batch.order[..|batch.order|] == batch.order;
    }
  }

  lemma BatchKeepsInv(c: Config, s: State, w: WorkerId, batch: Batch, env: nat -> Attempt)
    requires w in s.workers && s.workers[w] == map[] && IsBatch(c, s.rows, batch) && Inv(c, s)
    ensures Inv(c, BatchEnd(c, s, w, batch, env))
  {
    hide Reaches, Inv, BatchEnd, IsBatch;
    var actions := BatchReaches(c, s, w, batch, env);
    ReachesKeepsInv(c, s, actions, BatchEnd(c, s, w, batch, env));
  }

  // ---- Draining ----

  /** With the database answering, one event is marked one way or the other. */
  lemma EventLowersWeight(c: Config, rows: seq<Row>, messages: seq<Message>, w: WorkerId, k: nat,
                          row: Row, now: Time, env: Attempt)
    requires k < |rows| && rows[k] == Lock(row, w, now) && RowOk(c, row) && row.status.Pending? && env.fail.Done?
    ensures var outcome := ProcessEvent(c, rows, messages, w, k, ToClaimedEvent(row), env);
      && !outcome.aborted
      && |outcome.rows| == |rows|
      && outcome.rows == rows[k := outcome.rows[k]]
      && RowWeight(c, outcome.rows[k]) < RowWeight(c, row)
  {
    hide ValidateClaimed, EventOk;
  }

  /** Processed rows weigh less than when claimed, the others are as locked. */
  ghost predicate Lowered(c: Config, rows: seq<Row>, locked: seq<Row>, after: seq<Row>, done: set<nat>) {
    && |after| == |rows| == |locked|
    && forall k :: 0 <= k < |rows| ==>
         if k in done then RowWeight(c, after[k]) < RowWeight(c, rows[k]) else after[k] == locked[k]
  }

  lemma NothingLowered(c: Config, rows: seq<Row>, locked: seq<Row>)
    requires |locked| == |rows|
    ensures Lowered(c, rows, locked, locked, {})
  {
  }

  lemma LowersOneMore(c: Config, rows: seq<Row>, messages: seq<Message>, w: WorkerId, batch: Batch,
                      before: seq<Row>, done: set<nat>, k: nat, env: Attempt)
    requires RowsOk(c, rows) && k < |rows| && k in batch.chosen && k !in done && env.fail.Done?
    requires rows[k].status.Pending?
    requires Lowered(c, rows, LockRows(rows, batch.chosen, w, batch.now), before, done)
    ensures var outcome := ProcessEvent(c, before, messages, w, k, ToClaimedEvent(rows[k]), env);
      && !outcome.aborted
      && Lowered(c, rows, LockRows(rows, batch.chosen, w, batch.now), outcome.rows, done + {k})
  {
    hide ProcessEvent, RowOk, RowWeight, ToClaimedEvent;
    EventLowersWeight(c, before, messages, w, k, rows[k], batch.now, env);
  }

  lemma {:induction false} PrefixLowersWeight(c: Config, rows: seq<Row>, messages: seq<Message>, w: WorkerId,
                                              batch: Batch, env: nat -> Attempt, n: nat)
    requires RowsOk(c, rows) && IsBatch(c, rows, batch) && n <= |batch.order|
    requires forall k :: k in batch.chosen ==> env(k).fail.Done?
    ensures var locked := LockRows(rows, batch.chosen, w, batch.now);
      var outcome := ProcessAll(c, rows, locked, messages, w, batch.order[..n], env);
      !outcome.aborted && Lowered(c, rows, locked, outcome.rows, Processed(batch.order[..n]))
    decreases n
  {
    hide ProcessEvent, IsBatch, RowsOk, ToClaimedEvent, Lowered, LockRows;
    InOrder(c, rows, batch);
    var locked := LockRows(rows, batch.chosen, w, batch.now);
    if n == 0 {
      assert Processed(batch.order[..0]) == {};
      NothingLowered(c, rows, locked);
    } else {
      var k, before := batch.order[n - 1], batch.order[..n - 1];
      assert batch.order[..n][..n - 1] == before && batch.order[..n][n - 1] == k;
      PrefixLowersWeight(c, rows, messages, w, batch, env, n - 1);
      var outcome := ProcessAll(c, rows, locked, messages, w, before, env);
      assert Processed(batch.order[..n]) == Processed(before) + {k};
      LowersOneMore(c, rows, outcome.messages, w, batch, outcome.rows, Processed(before), k, env(k));
    }
  }

  /** A batch that is processed to its end while the database answers. Any rows may be
      skipped, not due or locked, and sends may succeed or fail in any way. */
  ghost predicate CompleteBatch(c: Config, rows: seq<Row>, batch: Batch, env: nat -> Attempt) {
    && IsBatch(c, rows, batch) && batch.db.Done?
    && Processed(batch.order) == batch.chosen
    && (forall k :: k in batch.chosen ==> env(k).fail.Done?)
  }

  lemma LoweredLowersWeight(c: Config, rows: seq<Row>, chosen: set<nat>, w: WorkerId, now: Time, after: seq<Row>)
    requires Lowered(c, rows, LockRows(rows, chosen, w, now), after, chosen)
    requires forall k :: k in chosen ==> k < |rows|
    ensures Weight(c, after) <= Weight(c, rows)
    ensures chosen != {} ==> Weight(c, after) < Weight(c, rows)
  {
    WeightIsMonotone(c, rows, after);
    if chosen != {} {
      var j :| j in chosen;
      assert RowWeight(c, after[j]) < RowWeight(c, rows[j]);
    }
  }

  /** A complete batch never raises the retries left, and lowers them if it claims anything. */
  lemma CompleteBatchLowersWeight(c: Config, rows: seq<Row>, messages: seq<Message>, w: WorkerId,
                                  batch: Batch, env: nat -> Attempt)
    requires RowsOk(c, rows) && CompleteBatch(c, rows, batch, env)
    ensures var after := RunBatch(c, rows, messages, w, batch, env).rows;
      && Weight(c, after) <= Weight(c, rows)
      && (batch.chosen != {} ==> Weight(c, after) < Weight(c, rows))
  {
    hide RowsOk, ProcessAll, Lowered, LockRows, RowWeight;
    var n := |batch.order|;
    assert batch.order[..n] == batch.order;
    PrefixLowersWeight(c, rows, messages, w, batch, env, n);
    LoweredLowersWeight(c, rows, batch.chosen, w, batch.now, RunBatch(c, rows, messages, w, batch, env).rows);
  }

  /** Every table has an instant at which all its pending rows are due. */
  lemma {:induction false} DueTime(c: Config, rows: seq<Row>) returns (now: Time)
    ensures forall t, k :: t >= now && 0 <= k < |rows| && rows[k].status.Pending? ==>
              Eligible(rows[k], t, c.lockTimeoutSeconds)
  {
    now := 0;
    if rows != [] {
      var n := |rows| - 1;
      now := DueTime(c, rows[..n]);
      var row := rows[n];
      if row.nextRetryAt.Some? && row.nextRetryAt.value > now {
        now := row.nextRetryAt.value;
      }
      if row.lockedAt.Some? && row.lockedAt.value + c.lockTimeoutSeconds * 1000 > now {
        now := row.lockedAt.value + c.lockTimeoutSeconds * 1000;
      }
      forall t, k | t >= now && 0 <= k < |rows| && rows[k].status.Pending?
        ensures Eligible(rows[k], t, c.lockTimeoutSeconds)
      {
        if k < n {
          assert rows[..n][k].status.Pending?;
        }
      }
    }
  }

  lemma {:induction false} Enumerate(ids: set<nat>) returns (order: seq<nat>)
    ensures Processed(order) == ids
    ensures forall i, j :: 0 <= i < j < |order| ==> order[i] != order[j]
    decreases ids
  {
    order := [];
    if ids != {} {
      var k :| k in ids;
      var rest := Enumerate(ids - {k});
      forall i | 0 <= i < |rest| ensures rest[i] != k {
        assert rest[i] in Processed(rest);
      }
      order := rest + [k];
      assert forall i :: 0 <= i < |rest| ==> order[i] == rest[i];
      assert order[|rest|] == k;
      forall x | x in Processed(rest) + {k} ensures x in Processed(order) {
        if x != k {
          var i :| 0 <= i < |rest| && rest[i] == x;
          assert order[i] == x;
        }
      }
    }
  }

  /** While a row is pending, from some instant on every poll that skips nothing claims
      something. */
  lemma ClaimingPollComes(c: Config, rows: seq<Row>) returns (due: Time)
    requires c.batchSize >= 1 && !NoPending(rows)
    ensures forall batch :: IsBatch(c, rows, batch) && batch.now >= due && batch.skipped == {} ==> batch.chosen != {}
  {
    due := DueTime(c, rows);
    var k :| 0 <= k < |rows| && rows[k].status.Pending?;
    forall batch | IsBatch(c, rows, batch) && batch.now >= due && batch.skipped == {} ensures batch.chosen != {} {
      assert k in Candidates(rows, batch.now, c.lockTimeoutSeconds, {});
    }
  }

  /** At every instant a complete batch that skips nothing is possible. */
  lemma CompleteBatchAt(c: Config, rows: seq<Row>, now: Time, env: nat -> Attempt) returns (batch: Batch)
    requires forall k: nat :: env(k).fail.Done?
    ensures CompleteBatch(c, rows, batch, env) && batch.now == now && batch.skipped == {}
  {
    var candidates := Candidates(rows, now, c.lockTimeoutSeconds, {});
    BatchExists(rows, candidates, c.batchSize);
    var chosen :| OldestOf(rows, candidates, c.batchSize, chosen);
    var order := Enumerate(chosen);
    forall i | 0 <= i < |order| ensures order[i] in chosen {
      assert order[i] in Processed(order);
    }
    batch := Batch(now, {}, chosen, Done, order);
  }

  /** What may happen between and beside the polls: complete polls of any worker, and any
      other protocol step, among them new rows, crashes and other workers' single steps. */
  datatype Round = Poll(w: WorkerId, batch: Batch, env: nat -> Attempt) | Elsewhere(action: Action)

  ghost predicate RoundAt(c: Config, s: State, round: Round, t: State) {
    match round
    case Poll(w, batch, env) =>
      && w in s.workers && s.workers[w] == map[] && CompleteBatch(c, s.rows, batch, env)
      && t == BatchEnd(c, s, w, batch, env)
    case Elsewhere(action) => Enabled(c, s, action) && t == Apply(c, s, action)
  }

  predicate ClaimsSomething(round: Round) {
    round.Poll? && round.batch.chosen != {}
  }

  predicate AddsRow(round: Round) {
    round.Elsewhere? && round.action.Produce?
  }

  function ClaimingPolls(rounds: seq<Round>): nat {
    if rounds == [] then 0
    else ClaimingPolls(rounds[..|rounds| - 1]) + if ClaimsSomething(rounds[|rounds| - 1]) then 1 else 0
  }

  function NewRows(rounds: seq<Round>): nat {
    if rounds == [] then 0 else NewRows(rounds[..|rounds| - 1]) + if AddsRow(rounds[|rounds| - 1]) then 1 else 0
  }

  ghost predicate AreRounds(c: Config, states: seq<State>, rounds: seq<Round>) {
    && |states| == |rounds| + 1
    && forall i :: 0 <= i < |rounds| ==> RoundAt(c, states[i], rounds[i], states[i + 1])
  }

  lemma PollLowersWeight(c: Config, s: State, w: WorkerId, batch: Batch, env: nat -> Attempt)
    requires Inv(c, s) && w in s.workers && s.workers[w] == map[] && CompleteBatch(c, s.rows, batch, env)
    ensures Inv(c, BatchEnd(c, s, w, batch, env))
    ensures Weight(c, BatchEnd(c, s, w, batch, env).rows) <= Weight(c, s.rows)
    ensures batch.chosen != {} ==> Weight(c, BatchEnd(c, s, w, batch, env).rows) < Weight(c, s.rows)
  {
    hide HandsOk, HoldersOk, MessagesOk, PublishedOk, AcksOk, AuditOk, ConsumersOk, RunBatch, IsBatch, RowsOk;
    CompleteBatchLowersWeight(c, s.rows, s.messages, w, batch, env);
    BatchKeepsInv(c, s, w, batch, env);
  }

  lemma ProduceAddsCap(c: Config, s: State, a: Action)
    requires a.Produce? && Enabled(c, s, a)
    ensures Weight(c, Apply(c, s, a).rows) == Weight(c, s.rows) + RetryCap(c)
  {
    var rows := Apply(c, s, a).rows;
    assert rows[..|rows| - 1] == s.rows;
  }

  lemma RoundKeepsAccount(c: Config, s: State, round: Round, t: State)
    requires Inv(c, s) && RoundAt(c, s, round, t)
    ensures Inv(c, t)
    ensures Weight(c, t.rows) + (if ClaimsSomething(round) then 1 else 0)
         <= Weight(c, s.rows) + (if AddsRow(round) then RetryCap(c) else 0)
  {
    hide Inv, CompleteBatch, BatchEnd, Enabled, Apply;
    match round {
      case Poll(w, batch, env) => PollLowersWeight(c, s, w, batch, env);
      case Elsewhere(action) =>
        StepKeepsInv(c, s, action);
        if action.Produce? {
          ProduceAddsCap(c, s, action);
        } else {
          EffectiveMarksLowerTheWeight(c, s, action);
        }
    }
  }

  lemma InvWeight(c: Config, s: State)
    requires Inv(c, s)
    ensures Weight(c, s.rows) >= 0
    ensures Weight(c, s.rows) == 0 <==> NoPending(s.rows)
  {
    hide RowOk, HandsOk, HoldersOk, MessagesOk, PublishedOk, AcksOk, AuditOk, ConsumersOk;
    WeightCountsPending(c, s.rows);
  }

  /** From any state satisfying the invariant, reachable ones among them, and whatever else
      happens: every poll that claims anything uses up a retry, of which each new row brings
      `RetryCap`. So there are at most as many such polls as retries were left and brought,
      and after as many nothing is pending. */
  lemma {:induction false} ClaimingPollsDrain(c: Config, states: seq<State>, rounds: seq<Round>)
    requires AreRounds(c, states, rounds) && Inv(c, states[0])
    ensures Inv(c, states[|rounds|])
    ensures ClaimingPolls(rounds) + Weight(c, states[|rounds|].rows)
         <= Weight(c, states[0].rows) + NewRows(rounds) * RetryCap(c)
    ensures ClaimingPolls(rounds) <= Weight(c, states[0].rows) + NewRows(rounds) * RetryCap(c)
    ensures ClaimingPolls(rounds) == Weight(c, states[0].rows) + NewRows(rounds) * RetryCap(c) ==>
              NoPending(states[|rounds|].rows)
    decreases |rounds|
  {
    hide Inv, RoundAt, Weight, ClaimsSomething, AddsRow;
    if rounds != [] {
      var n := |rounds| - 1;
      ClaimingPollsDrain(c, states[..|states| - 1], rounds[..n]);
      assert RoundAt(c, states[n], rounds[n], states[n + 1]);
      RoundKeepsAccount(c, states[n], rounds[n], states[n + 1]);
      OneMoreRow(NewRows(rounds[..n]), if AddsRow(rounds[n]) then 1 else 0, RetryCap(c));
    }
    InvWeight(c, states[|rounds|]);
  }

  lemma OneMoreRow(rows: nat, more: nat, cap: int)
    requires more <= 1
    ensures (rows + more) * cap == rows * cap + (if more == 1 then cap else 0)
  {
  }

  lemma IdleAfterPoll(c: Config, s: State, w: WorkerId, batch: Batch, env: nat -> Attempt)
    requires RowsOk(c, s.rows) && w in s.workers && s.workers[w] == map[] && CompleteBatch(c, s.rows, batch, env)
    ensures w in BatchEnd(c, s, w, batch, env).workers && BatchEnd(c, s, w, batch, env).workers[w] == map[]
  {
    hide IsBatch, RowsOk, ProcessAll, LockRows;
    assert batch.chosen - Processed(batch.order) == {};
  }

  lemma CompleteIsBatch(c: Config, rows: seq<Row>, batch: Batch, env: nat -> Attempt)
    requires CompleteBatch(c, rows, batch, env)
    ensures IsBatch(c, rows, batch)
  {
  }

  lemma InvRows(c: Config, s: State)
    requires Inv(c, s)
    ensures RowsOk(c, s.rows)
  {
  }
}
