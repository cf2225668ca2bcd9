// No row starves: however many younger rows keep coming, a pending row gets its turn once
// the rows at least as old have used up their retries.
module FairTurns {
  import opened Envelope
  import opened Outbox
  import opened Protocol
  import opened ProtocolInvariant
  import opened Delivery
  import opened RelayRun
  import opened RelayRefinement
  import opened RowEffects
  import opened FairSchedule

  // ---- A row in no hand waits ----

  predicate InNoHand(s: State, k: nat) {
    forall w :: w in s.workers ==> k !in s.workers[w]
  }

  /** A poll or a single claim that locks row `k`. */
  predicate Takes(round: Round, k: nat) {
    match round
    case Poll(_, batch, _) => k in batch.chosen
    case Elsewhere(action) => action.Claim? && k in action.chosen && Applied(action.db)
  }

  lemma PollKeepsOtherRows(c: Config, s: State, w: WorkerId, batch: Batch, env: nat -> Attempt, k: nat)
    requires RowsOk(c, s.rows) && CompleteBatch(c, s.rows, batch, env) && k < |s.rows| && k !in batch.chosen
    requires w in s.workers && s.workers[w] == map[] && InNoHand(s, k)
    ensures var t := BatchEnd(c, s, w, batch, env);
      k < |t.rows| && t.rows[k] == s.rows[k] && InNoHand(t, k)
  {
    hide RowsOk, ProcessAll, IsBatch;
    CompleteIsBatch(c, s.rows, batch, env);
    PrefixLowersWeight(c, s.rows, s.messages, w, batch, env, |batch.order|);
    assert batch.order[..|batch.order|] == batch.order;
    IdleAfterPoll(c, s, w, batch, env);
  }

  lemma StepKeepsFreeRow(c: Config, s: State, a: Action, k: nat)
    requires Inv(c, s) && Enabled(c, s, a) && !Takes(Elsewhere(a), k) && k < |s.rows| && InNoHand(s, k)
    ensures k < |Apply(c, s, a).rows| && Apply(c, s, a).rows[k] == s.rows[k]
  {
    hide Inv, FailureOf, AsPublished, OldestOf, Candidates, ValidateClaimed, HasAudit;
    if !a.Claim? {
      RowsStep(c, s, a, k);
    }
  }

  lemma StepKeepsOutOfHands(c: Config, s: State, a: Action, k: nat)
    requires Enabled(c, s, a) && !Takes(Elsewhere(a), k) && InNoHand(s, k)
    ensures InNoHand(Apply(c, s, a), k)
  {
    hide ValidateClaimed, FailureOf, AsPublished, AsFailed, HasAudit, MarkPublished, MarkFailed, OldestOf, Candidates;
  }

  lemma RoundKeepsFreeRow(c: Config, s: State, round: Round, t: State, k: nat)
    requires Inv(c, s) && RoundAt(c, s, round, t) && !Takes(round, k)
    requires k < |s.rows| && InNoHand(s, k)
    ensures k < |t.rows| && t.rows[k] == s.rows[k] && InNoHand(t, k)
  {
    hide Inv, CompleteBatch, BatchEnd, Enabled, Apply, InNoHand;
    match round {
      case Poll(w, batch, env) =>
        InvRows(c, s);
        PollKeepsOtherRows(c, s, w, batch, env, k);
      case Elsewhere(action) =>
        StepKeepsFreeRow(c, s, action, k);
        StepKeepsOutOfHands(c, s, action, k);
    }
  }

  // ---- Retries left in the rows up to a given age ----

  /** The rows created after `t` count as done. */
  function OnlyOld(rows: seq<Row>, t: Time): (r: seq<Row>)
    ensures |r| == |rows|
  {
    seq(|rows|, k requires 0 <= k < |rows| =>
      if rows[k].createdAt <= t then rows[k] else rows[k].(status := Published))
  }

  function OldWeight(c: Config, rows: seq<Row>, t: Time): int {
    Weight(c, OnlyOld(rows, t))
  }

  lemma {:induction false} NoNegativeWeight(c: Config, rows: seq<Row>)
    requires forall k :: 0 <= k < |rows| ==> RowWeight(c, rows[k]) >= 0
    ensures Weight(c, rows) >= 0
  {
    if rows != [] {
      NoNegativeWeight(c, rows[..|rows| - 1]);
    }
  }

  lemma OldWeightIsNoDebt(c: Config, s: State, t: Time)
    requires Inv(c, s)
    ensures OldWeight(c, s.rows, t) >= 0
  {
    hide EventOk, HandsOk, HoldersOk, MessagesOk, PublishedOk, AcksOk, AuditOk, ConsumersOk, Weight;
    forall k | 0 <= k < |s.rows| ensures RowWeight(c, OnlyOld(s.rows, t)[k]) >= 0 {
      assert RowOk(c, s.rows[k]);
    }
    NoNegativeWeight(c, OnlyOld(s.rows, t));
  }

  /** Rows keep their age and have no more retries left than before. */
  ghost predicate NoHeavier(c: Config, before: seq<Row>, after: seq<Row>) {
    && |before| <= |after|
    && forall k :: 0 <= k < |before| ==>
         after[k].createdAt == before[k].createdAt && RowWeight(c, after[k]) <= RowWeight(c, before[k])
  }

  lemma {:induction false} OldWeightIsMonotone(c: Config, before: seq<Row>, after: seq<Row>, t: Time)
    requires NoHeavier(c, before, after)
    requires forall k :: |before| <= k < |after| ==> after[k].createdAt > t
    ensures OldWeight(c, after, t) <= OldWeight(c, before, t)
    ensures forall k :: 0 <= k < |before| && before[k].createdAt <= t ==>
      (RowWeight(c, after[k]) < RowWeight(c, before[k]) ==> OldWeight(c, after, t) < OldWeight(c, before, t))
    decreases |after|
  {
    if |after| > |before| {
      var n := |after| - 1;
      OldWeightIsMonotone(c, before, after[..n], t);
      assert OnlyOld(after, t)[..n] == OnlyOld(after[..n], t);
    } else {
      hide Weight;
      var b, a := OnlyOld(before, t), OnlyOld(after, t);
      WeightIsMonotone(c, b, a);
      forall k | 0 <= k < |before| && before[k].createdAt <= t && RowWeight(c, after[k]) < RowWeight(c, before[k])
        ensures Weight(c, a) < Weight(c, b)
      {
        assert RowWeight(c, a[k]) < RowWeight(c, b[k]);
      }
    }
  }

  lemma StepIsNoHeavier(c: Config, s: State, a: Action)
    requires Inv(c, s) && Enabled(c, s, a)
    ensures NoHeavier(c, s.rows, Apply(c, s, a).rows)
  {
    hide Inv, Enabled, Apply, RowWeight, FailureOf;
    RowCountGrows(c, s, a);
    forall k | 0 <= k < |s.rows|
      ensures Apply(c, s, a).rows[k].createdAt == s.rows[k].createdAt
      ensures RowWeight(c, Apply(c, s, a).rows[k]) <= RowWeight(c, s.rows[k])
    {
      RowsStep(c, s, a, k);
      RowStepKeepsWeight(c, s, a, k);
    }
  }

  lemma RowCountGrows(c: Config, s: State, a: Action)
    requires Enabled(c, s, a)
    ensures |s.rows| <= |Apply(c, s, a).rows|
  {
  }

  lemma {:induction false} ReachesIsNoHeavier(c: Config, s: State, actions: seq<Action>, t: State)
    requires Inv(c, s) && Reaches(c, s, actions, t)
    ensures NoHeavier(c, s.rows, t.rows)
    decreases |actions|
  {
    if actions != [] {
      hide Inv, Enabled, Apply, RowWeight;
      StepKeepsInv(c, s, actions[0]);
      StepIsNoHeavier(c, s, actions[0]);
      ReachesIsNoHeavier(c, Apply(c, s, actions[0]), actions[1..], t);
    }
  }

  /** A complete poll keeps the ages and uses up a retry of every row it takes. */
  lemma PollIsNoHeavier(c: Config, s: State, w: WorkerId, batch: Batch, env: nat -> Attempt)
    requires Inv(c, s) && w in s.workers && s.workers[w] == map[] && CompleteBatch(c, s.rows, batch, env)
    ensures var rows := BatchEnd(c, s, w, batch, env).rows;
      && NoHeavier(c, s.rows, rows) && |rows| == |s.rows|
      && forall k :: k in batch.chosen && k < |rows| ==> RowWeight(c, rows[k]) < RowWeight(c, s.rows[k])
  {
    hide Inv, IsBatch, ProcessAll, RowsOk, NoHeavier, LockRows, RowWeight, HandOf;
    var actions := BatchReaches(c, s, w, batch, env);
    ReachesIsNoHeavier(c, s, actions, BatchEnd(c, s, w, batch, env));
    InvRows(c, s);
    PrefixLowersWeight(c, s.rows, s.messages, w, batch, env, |batch.order|);
    assert batch.order[..|batch.order|] == batch.order;
  }

  // ---- Older rows first ----

  /** Rows added are created after `t`. */
  predicate AddsYounger(round: Round, t: Time) {
    AddsRow(round) ==> round.action.createdAt > t
  }

  ghost predicate YoungerFrom(h: Schedule, i: nat, t: Time) {
    forall j :: j >= i ==> AddsYounger(h.rounds(j), t)
  }

  lemma StepKeepsOldWeight(c: Config, s: State, a: Action, age: Time)
    requires Inv(c, s) && Enabled(c, s, a) && AddsYounger(Elsewhere(a), age)
    ensures OldWeight(c, Apply(c, s, a).rows, age) <= OldWeight(c, s.rows, age)
  {
    hide Inv, OldWeight, NoHeavier;
    StepIsNoHeavier(c, s, a);
    if !a.Produce? {
      RowCount(c, s, a);
    }
    OldWeightIsMonotone(c, s.rows, Apply(c, s, a).rows, age);
  }

  lemma RoundKeepsOldWeight(c: Config, s: State, round: Round, t: State, age: Time)
    requires Inv(c, s) && RoundAt(c, s, round, t) && AddsYounger(round, age)
    ensures Inv(c, t) && OldWeight(c, t.rows, age) <= OldWeight(c, s.rows, age)
  {
    hide Inv, CompleteBatch, BatchEnd, Enabled, Apply, OldWeight, NoHeavier, Weight;
    RoundKeepsAccount(c, s, round, t);
    match round {
      case Poll(w, batch, env) =>
        PollIsNoHeavier(c, s, w, batch, env);
        OldWeightIsMonotone(c, s.rows, t.rows, age);
      case Elsewhere(action) => StepKeepsOldWeight(c, s, action, age);
    }
  }

  /** A claim that passes over an eligible row is full, and all it took is at least as old. */
  lemma PassingOverTakesOlder(c: Config, rows: seq<Row>, batch: Batch, k: nat)
    requires IsBatch(c, rows, batch) && k < |rows| && k !in batch.skipped && k !in batch.chosen
    requires Eligible(rows[k], batch.now, c.lockTimeoutSeconds)
    ensures |batch.chosen| == c.batchSize
    ensures forall j :: j in batch.chosen ==> j < |rows| && rows[j].createdAt <= rows[k].createdAt
  {
    var candidates := Candidates(rows, batch.now, c.lockTimeoutSeconds, batch.skipped);
    assert k in candidates;
    if |batch.chosen| != c.batchSize {
      SameSize(batch.chosen, candidates);
    }
  }

  lemma PassingOverLowersOldWeight(c: Config, s: State, round: Round, t: State, k: nat, due: Time)
    requires Inv(c, s) && RoundAt(c, s, round, t) && FullPoll(round, due) && !Takes(round, k) && c.batchSize >= 1
    requires k < |s.rows| && forall now :: now >= due ==> Eligible(s.rows[k], now, c.lockTimeoutSeconds)
    ensures OldWeight(c, t.rows, s.rows[k].createdAt) < OldWeight(c, s.rows, s.rows[k].createdAt)
  {
    hide Inv, IsBatch, BatchEnd, OldWeight, NoHeavier, Eligible;
    CompleteIsBatch(c, s.rows, round.batch, round.env);
    PassingOverTakesOlder(c, s.rows, round.batch, k);
    PollIsNoHeavier(c, s, round.w, round.batch, round.env);
    OldWeightIsMonotone(c, s.rows, t.rows, s.rows[k].createdAt);
    var j :| j in round.batch.chosen;
    assert RowWeight(c, t.rows[j]) < RowWeight(c, s.rows[j]);
  }

  /** From when on a pending row is eligible if nothing touches it. */
  lemma RowIsDue(c: Config, row: Row) returns (due: Time)
    requires row.status.Pending?
    ensures forall now :: now >= due ==> Eligible(row, now, c.lockTimeoutSeconds)
  {
    due := DueTime(c, [row]);
    forall now | now >= due ensures Eligible(row, now, c.lockTimeoutSeconds) {
      assert [row][0].status.Pending?;
    }
  }

  /** Until it is taken, a row in no hand stays as it is, and the older rows gain nothing. */
  lemma {:induction false} RowWaits(c: Config, h: Schedule, i: nat, n: nat, k: nat, age: Time) returns (j: nat)
    requires IsSchedule(c, h) && YoungerFrom(h, i, age) && Inv(c, h.states(i)) && i <= n
    requires k < |h.states(i).rows| && InNoHand(h.states(i), k)
    ensures i <= j <= n && Inv(c, h.states(j)) && InNoHand(h.states(j), k)
    ensures k < |h.states(j).rows| && h.states(j).rows[k] == h.states(i).rows[k]
    ensures OldWeight(c, h.states(j).rows, age) <= OldWeight(c, h.states(i).rows, age)
    ensures j < n ==> Takes(h.rounds(j), k)
    decreases n - i
  {
    hide Inv, RoundAt, AddsYounger, InNoHand, Takes, OldWeight;
    j := i;
    if i < n && !Takes(h.rounds(i), k) {
      assert RoundOf(c, h, i) && AddsYounger(h.rounds(i), age);
      RoundKeepsFreeRow(c, h.states(i), h.rounds(i), h.states(i + 1), k);
      RoundKeepsOldWeight(c, h.states(i), h.rounds(i), h.states(i + 1), age);
      j := RowWaits(c, h, i + 1, n, k, age);
    }
  }

  /** Under every fair schedule a pending row in no worker's hand is taken after a while,
      unchanged until then, however many younger rows are added all the time and whatever
      other workers, sends and marks do. */
  lemma {:induction false} EveryRowGetsItsTurn(c: Config, h: Schedule, i: nat, k: nat) returns (j: nat)
    requires IsSchedule(c, h) && Fair(h) && Inv(c, h.states(i)) && c.batchSize >= 1
    requires k < |h.states(i).rows| && h.states(i).rows[k].status.Pending? && InNoHand(h.states(i), k)
    requires YoungerFrom(h, i, h.states(i).rows[k].createdAt)
    ensures j >= i && Takes(h.rounds(j), k) && Inv(c, h.states(j))
    ensures k < |h.states(j).rows| && h.states(j).rows[k] == h.states(i).rows[k]
    decreases OldWeight(c, h.states(i).rows, h.states(i).rows[k].createdAt)
  {
    hide Inv, RoundAt, AddsYounger, InNoHand, Takes, OldWeight, FullPoll, Eligible;
    var row := h.states(i).rows[k];
    OldWeightIsNoDebt(c, h.states(i), row.createdAt);
    var due := RowIsDue(c, row);
    assert PollComes(h, i, due);
    var n: nat :| n >= i && FullPoll(h.rounds(n), due);
    j := RowWaits(c, h, i, n, k, row.createdAt);
    if !Takes(h.rounds(j), k) {
      assert j == n && RoundOf(c, h, n) && AddsYounger(h.rounds(n), row.createdAt);
      RoundKeepsFreeRow(c, h.states(n), h.rounds(n), h.states(n + 1), k);
      RoundKeepsOldWeight(c, h.states(n), h.rounds(n), h.states(n + 1), row.createdAt);
      PassingOverLowersOldWeight(c, h.states(n), h.rounds(n), h.states(n + 1), k, due);
      OldWeightIsNoDebt(c, h.states(n + 1), row.createdAt);
      j := EveryRowGetsItsTurn(c, h, n + 1, k);
    }
  }
}
