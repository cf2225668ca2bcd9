// Every fair schedule drains: whatever order polls and other steps come in, once new rows
// and stray claims cease and polls go on, nothing stays pending.
module FairSchedule {
  import opened Envelope
  import opened Outbox
  import opened Protocol
  import opened ProtocolInvariant
  import opened Delivery
  import opened RelayRun
  import opened RelayRefinement

  /** An endless sequence of rounds. */
  datatype Schedule = Schedule(states: nat -> State, rounds: nat -> Round)

  ghost predicate RoundOf(c: Config, h: Schedule, i: nat) {
    RoundAt(c, h.states(i), h.rounds(i), h.states(i + 1))
  }

  ghost predicate IsSchedule(c: Config, h: Schedule) {
    forall i: nat :: RoundOf(c, h, i)
  }

  /** No row is produced, and rows are claimed by complete polls only. */
  predicate Settled(round: Round) {
    round.Elsewhere? ==> !round.action.Produce? && !round.action.Claim?
  }

  ghost predicate SettledFrom(h: Schedule, i: nat) {
    forall j :: j >= i ==> Settled(h.rounds(j))
  }

  /** A complete poll, of whichever worker, that finds no row locked by another transaction
      and whose clock shows `t` or later. */
  predicate FullPoll(round: Round, t: Time) {
    round.Poll? && round.batch.skipped == {} && round.batch.now >= t
  }

  ghost predicate PollComes(h: Schedule, i: nat, t: Time) {
    exists j: nat :: j >= i && FullPoll(h.rounds(j), t)
  }

  /** Full polls never cease, and their clocks do not stand still. */
  ghost predicate Fair(h: Schedule) {
    forall i: nat, t: Time :: PollComes(h, i, t)
  }

  // ---- Progress ----

  ghost predicate KeptOrLowered(c: Config, before: seq<Row>, after: seq<Row>) {
    after == before || Weight(c, after) < Weight(c, before)
  }

  lemma OrderNeedsRows(order: seq<nat>, chosen: set<nat>)
    requires forall i :: 0 <= i < |order| ==> order[i] in chosen
    ensures order != [] ==> chosen != {}
  {
    if order != [] {
      assert order[0] in chosen;
    }
  }

  lemma EmptyBatchKeepsRows(c: Config, rows: seq<Row>, messages: seq<Message>, w: WorkerId,
                            batch: Batch, env: nat -> Attempt)
    requires CompleteBatch(c, rows, batch, env) && batch.chosen == {}
    ensures RunBatch(c, rows, messages, w, batch, env).rows == rows
  {
    hide OldestOf, Candidates;
    OrderNeedsRows(batch.order, batch.chosen);
    assert LockRows(rows, {}, w, batch.now) == rows;
  }

  lemma OtherStepsKeepRows(c: Config, s: State, a: Action)
    requires Enabled(c, s, a) && !a.Produce? && !a.Claim?
    requires a.ConfirmPublished? || a.ConfirmFailed? ==> !(Holds(s.rows, a.k, a.w) && Applied(a.db))
    ensures Apply(c, s, a).rows == s.rows
  {
    hide ValidateClaimed, FailureOf, AsPublished, AsFailed, HasAudit;
  }

  lemma StepKeepsOrLowers(c: Config, s: State, a: Action)
    requires Inv(c, s) && Enabled(c, s, a) && !a.Produce? && !a.Claim?
    ensures KeptOrLowered(c, s.rows, Apply(c, s, a).rows)
  {
    hide Inv, Enabled, Apply, Weight;
    if (a.ConfirmPublished? || a.ConfirmFailed?) && Holds(s.rows, a.k, a.w) && Applied(a.db) {
      EffectiveMarksLowerTheWeight(c, s, a);
    } else {
      OtherStepsKeepRows(c, s, a);
    }
  }

  lemma RoundKeepsOrLowers(c: Config, s: State, round: Round, t: State)
    requires Inv(c, s) && RoundAt(c, s, round, t) && Settled(round)
    ensures Inv(c, t) && KeptOrLowered(c, s.rows, t.rows)
    ensures ClaimsSomething(round) ==> Weight(c, t.rows) < Weight(c, s.rows)
  {
    hide Inv, CompleteBatch, RunBatch, Enabled, Apply, Weight;
    match round {
      case Poll(w, batch, env) =>
        PollLowersWeight(c, s, w, batch, env);
        CompleteIsBatch(c, s.rows, batch, env);
        if batch.chosen == {} {
          EmptyBatchKeepsRows(c, s.rows, s.messages, w, batch, env);
        }
      case Elsewhere(action) =>
        StepKeepsInv(c, s, action);
        StepKeepsOrLowers(c, s, action);
    }
  }

  lemma {:induction false} ScheduleKeepsOrLowers(c: Config, h: Schedule, i: nat, j: nat)
    requires IsSchedule(c, h) && SettledFrom(h, i) && Inv(c, h.states(i)) && i <= j
    ensures Inv(c, h.states(j)) && KeptOrLowered(c, h.states(i).rows, h.states(j).rows)
    decreases j
  {
    hide Inv, RoundAt, Settled, Weight;
    if i < j {
      ScheduleKeepsOrLowers(c, h, i, j - 1);
      assert RoundOf(c, h, j - 1) && Settled(h.rounds(j - 1));
      RoundKeepsOrLowers(c, h.states(j - 1), h.rounds(j - 1), h.states(j));
    }
  }

  lemma FullPollClaims(c: Config, s: State, round: Round, t: State, due: Time)
    requires RoundAt(c, s, round, t) && FullPoll(round, due)
    requires forall batch :: IsBatch(c, s.rows, batch) && batch.now >= due && batch.skipped == {} ==> batch.chosen != {}
    ensures ClaimsSomething(round)
  {
    hide IsBatch, BatchEnd;
    CompleteIsBatch(c, s.rows, round.batch, round.env);
  }

  /** Under every fair schedule, from any state satisfying the invariant on, nothing is
      pending after a while: whichever workers poll, whatever their sends, crashes and other
      steps beside the polls, and however the database answers those. */
  lemma {:induction false} FairSchedulesDrain(c: Config, h: Schedule, i: nat) returns (n: nat)
    requires IsSchedule(c, h) && Fair(h) && SettledFrom(h, i) && Inv(c, h.states(i)) && c.batchSize >= 1
    ensures n >= i && NoPending(h.states(n).rows)
    decreases Weight(c, h.states(i).rows)
  {
    hide Inv, RoundAt, Settled, FullPoll, Weight, IsBatch, NoPending;
    InvWeight(c, h.states(i));
    n := i;
    if !NoPending(h.states(i).rows) {
      var due := ClaimingPollComes(c, h.states(i).rows);
      assert PollComes(h, i, due);
      var j: nat :| j >= i && FullPoll(h.rounds(j), due);
      ScheduleKeepsOrLowers(c, h, i, j);
      InvWeight(c, h.states(j));
      if h.states(j).rows != h.states(i).rows {
        n := FairSchedulesDrain(c, h, j);
      } else {
        assert RoundOf(c, h, j) && Settled(h.rounds(j));
        FullPollClaims(c, h.states(j), h.rounds(j), h.states(j + 1), due);
        RoundKeepsOrLowers(c, h.states(j), h.rounds(j), h.states(j + 1));
        InvWeight(c, h.states(j + 1));
        n := FairSchedulesDrain(c, h, j + 1);
      }
    }
  }

  // ---- Fair schedules exist ----

  ghost predicate MarksGoThrough(envs: nat -> (nat -> Attempt)) {
    forall n: nat, k: nat :: envs(n)(k).fail.Done?
  }

  lemma SomeFullBatch(c: Config, rows: seq<Row>, now: Time, env: nat -> Attempt)
    requires forall k: nat :: env(k).fail.Done?
    ensures exists batch :: CompleteBatch(c, rows, batch, env) && batch.now == now && batch.skipped == {}
  {
    var batch := CompleteBatchAt(c, rows, now, env);
    assert CompleteBatch(c, rows, batch, env) && batch.now == now && batch.skipped == {};
  }

  ghost function FullBatch(c: Config, rows: seq<Row>, now: Time, env: nat -> Attempt): (r: Batch)
    requires forall k: nat :: env(k).fail.Done?
    ensures CompleteBatch(c, rows, r, env) && r.now == now && r.skipped == {}
  {
    SomeFullBatch(c, rows, now, env);
    var batch :| CompleteBatch(c, rows, batch, env) && batch.now == now && batch.skipped == {};
    batch
  }

  /** One worker polls again and again, the n-th time at instant n. */
  ghost function PollingAlone(c: Config, s: State, w: WorkerId, envs: nat -> (nat -> Attempt), n: nat): State
    requires MarksGoThrough(envs)
  {
    if n == 0 then s
    else
      var before := PollingAlone(c, s, w, envs, n - 1);
      BatchEnd(c, before, w, FullBatch(c, before.rows, n - 1, envs(n - 1)), envs(n - 1))
  }

  lemma {:induction false} PollingAloneStaysIdle(c: Config, s: State, w: WorkerId,
                                                 envs: nat -> (nat -> Attempt), n: nat)
    requires MarksGoThrough(envs) && Inv(c, s) && w in s.workers && s.workers[w] == map[]
    ensures var t := PollingAlone(c, s, w, envs, n); Inv(c, t) && w in t.workers && t.workers[w] == map[]
    decreases n
  {
    hide Inv, CompleteBatch, BatchEnd, Weight;
    if n > 0 {
      PollingAloneStaysIdle(c, s, w, envs, n - 1);
      var before := PollingAlone(c, s, w, envs, n - 1);
      var batch := FullBatch(c, before.rows, n - 1, envs(n - 1));
      PollLowersWeight(c, before, w, batch, envs(n - 1));
      InvRows(c, before);
      IdleAfterPoll(c, before, w, batch, envs(n - 1));
    }
  }

  ghost function Alone(c: Config, s: State, w: WorkerId, envs: nat -> (nat -> Attempt)): Schedule
    requires MarksGoThrough(envs)
  {
    Schedule(
      (n: nat) => PollingAlone(c, s, w, envs, n),
      (n: nat) => Poll(w, FullBatch(c, PollingAlone(c, s, w, envs, n).rows, n, envs(n)), envs(n)))
  }

  lemma AloneIsSchedule(c: Config, s: State, w: WorkerId, envs: nat -> (nat -> Attempt), i: nat)
    requires MarksGoThrough(envs) && Inv(c, s) && w in s.workers && s.workers[w] == map[]
    ensures RoundOf(c, Alone(c, s, w, envs), i)
  {
    hide Inv, CompleteBatch, BatchEnd;
    PollingAloneStaysIdle(c, s, w, envs, i);
  }

  lemma AloneIsFair(c: Config, s: State, w: WorkerId, envs: nat -> (nat -> Attempt), i: nat, t: Time)
    requires MarksGoThrough(envs)
    ensures PollComes(Alone(c, s, w, envs), i, t)
  {
    hide CompleteBatch, PollingAlone;
    var j: nat := if t > i then t else i;
    var batch := FullBatch(c, PollingAlone(c, s, w, envs, j).rows, j, envs(j));
    assert Alone(c, s, w, envs).rounds(j) == Poll(w, batch, envs(j));
    assert FullPoll(Alone(c, s, w, envs).rounds(j), t);
  }

  /** From any such state with an idle worker there is a fair schedule, for whatever becomes
      of the sends of each poll. */
  lemma FairScheduleExists(c: Config, s: State, w: WorkerId, envs: nat -> (nat -> Attempt)) returns (h: Schedule)
    requires Inv(c, s) && w in s.workers && s.workers[w] == map[] && MarksGoThrough(envs)
    ensures IsSchedule(c, h) && Fair(h) && SettledFrom(h, 0) && h.states(0) == s
    ensures forall n: nat :: h.rounds(n).Poll? && h.rounds(n).w == w && h.rounds(n).env == envs(n)
  {
    hide Inv, CompleteBatch, BatchEnd, RoundOf, PollComes, MarksGoThrough;
    h := Alone(c, s, w, envs);
    forall i: nat ensures RoundOf(c, h, i) {
      AloneIsSchedule(c, s, w, envs, i);
    }
    forall i: nat, t: Time ensures PollComes(h, i, t) {
      AloneIsFair(c, s, w, envs, i, t);
    }
  }
}
