// apps/outbox-relay-service/src/relay/relay-worker.service.ts: what one run of one worker
// does to a source and to the queue, given how the outside world answers.
module RelayRun {
  import opened Common
  import opened Json
  import opened Envelope
  import opened Outbox
  import opened Protocol
  import opened Backoff

  /** The world's answers while one event is processed. */
  datatype Attempt = Attempt(
    send: SendOutcome, target: string, sentAt: Time, confirm: DbOutcome,
    error: string, failedAt: Time, fail: DbOutcome)

  /** `aborted`: the catch block's own statement threw, which ends the run. */
  datatype Outcome = Outcome(rows: seq<Row>, messages: seq<Message>, aborted: bool)

  function CatchBlock(c: Config, rows: seq<Row>, messages: seq<Message>, w: WorkerId, k: nat,
                      event: ClaimedEvent, env: Attempt): Outcome
  {
    var failure := FailureOf(c, event.retryCount, env.error, env.failedAt);
    Outcome(if Applied(env.fail) then MarkFailed(rows, k, w, failure) else rows, messages, env.fail.Threw?)
  }

  function ProcessEvent(c: Config, rows: seq<Row>, messages: seq<Message>, w: WorkerId, k: nat,
                        event: ClaimedEvent, env: Attempt): Outcome
  {
    match ValidateClaimed(event.columns, event.payload, c.dateParses)
    case Err(_) => CatchBlock(c, rows, messages, w, k, event, env)
    case Ok(payload) =>
      var sent := if env.send.Refused? then messages else messages + [Message(Parsed(payload), Some(k), Queued, 0)];
      if !env.send.Accepted? then CatchBlock(c, rows, sent, w, k, event, env)
      else
        var marked := if Applied(env.confirm) then MarkPublished(rows, k, w, env.sentAt, env.target) else rows;
        if env.confirm.Threw? then CatchBlock(c, marked, sent, w, k, event, env)
        else Outcome(marked, sent, false)
  }

  /** The claim of one run and the order in which RETURNING listed the rows processed. */
  datatype Batch = Batch(now: Time, skipped: set<nat>, chosen: set<nat>, db: DbOutcome, order: seq<nat>)

  ghost predicate IsBatch(c: Config, rows: seq<Row>, batch: Batch)
    ensures IsBatch(c, rows, batch) ==> forall k :: k in batch.chosen ==> k < |rows| && rows[k].status.Pending?
  {
    && OldestOf(rows, Candidates(rows, batch.now, c.lockTimeoutSeconds, batch.skipped), c.batchSize, batch.chosen)
    && (forall i :: 0 <= i < |batch.order| ==> batch.order[i] in batch.chosen)
    && (forall i, j :: 0 <= i < j < |batch.order| ==> batch.order[i] != batch.order[j])
  }

  /** Events one after the other, from the rows as claimed; the first abort is the last. */
  function ProcessAll(c: Config, claimed: seq<Row>, rows: seq<Row>, messages: seq<Message>, w: WorkerId,
                      order: seq<nat>, env: nat -> Attempt): (r: Outcome)
    requires forall i :: 0 <= i < |order| ==> order[i] < |claimed|
  {
    if order == [] then Outcome(rows, messages, false)
    else
      var k := order[|order| - 1];
      var before := ProcessAll(c, claimed, rows, messages, w, order[..|order| - 1], env);
      if before.aborted then before
      else ProcessEvent(c, before.rows, before.messages, w, k, ToClaimedEvent(claimed[k]), env(k))
  }

  ghost function RunBatch(c: Config, rows: seq<Row>, messages: seq<Message>, w: WorkerId,
                          batch: Batch, env: nat -> Attempt): Outcome
    requires IsBatch(c, rows, batch)
  {
    if batch.db.Threw? then
      Outcome(if batch.db.applied then LockRows(rows, batch.chosen, w, batch.now) else rows, messages, true)
    else ProcessAll(c, rows, LockRows(rows, batch.chosen, w, batch.now), messages, w, batch.order, env)
  }

  // ---- The worker object ----

  /** The queue side of a publisher. */
  class Broker {
    var messages: seq<Message>

    constructor ()
      ensures messages == []
    {
      messages := [];
    }

    method Publish(payload: Json, k: nat, send: SendOutcome)
      modifies this
      ensures messages == if send.Refused? then old(messages)
                          else old(messages) + [Message(Parsed(payload), Some(k), Queued, 0)]
    {
      if !send.Refused? {
        messages := messages + [Message(Parsed(payload), Some(k), Queued, 0)];
      }
    }
  }

  /** How the world answers a claim. */
  datatype ClaimEnv = ClaimEnv(now: Time, skipped: set<nat>, db: DbOutcome)

  predicate IsAnswer(batch: Batch, claim: ClaimEnv) {
    batch.now == claim.now && batch.skipped == claim.skipped && batch.db == claim.db
  }

  /** The tables of all sources after the first batches, one batch a source. */
  datatype RunOutcome = RunOutcome(tables: seq<seq<Row>>, messages: seq<Message>, aborted: bool)

  ghost predicate AreBatches(c: Config, tables: seq<seq<Row>>, batches: seq<Batch>) {
    && |batches| <= |tables|
    && forall i :: 0 <= i < |batches| ==> IsBatch(c, tables[i], batches[i])
  }

  ghost function RunSources(c: Config, tables: seq<seq<Row>>, messages: seq<Message>, w: WorkerId,
                            batches: seq<Batch>, env: nat -> (nat -> Attempt)): (r: RunOutcome)
    requires AreBatches(c, tables, batches)
    ensures |r.tables| == |tables|
    ensures forall i :: |batches| <= i < |tables| ==> r.tables[i] == tables[i]
  {
    if batches == [] then RunOutcome(tables, messages, false)
    else
      var n := |batches| - 1;
      var before := RunSources(c, tables, messages, w, batches[..n], env);
      var outcome := RunBatch(c, tables[n], before.messages, w, batches[n], env(n));
      RunOutcome(before.tables[n := outcome.rows], outcome.messages, outcome.aborted)
  }

  lemma NoSourceYet(c: Config, tables: seq<seq<Row>>, messages: seq<Message>, w: WorkerId, env: nat -> (nat -> Attempt))
    ensures RunSources(c, tables, messages, w, [], env) == RunOutcome(tables, messages, false)
  {
  }

  lemma OneMoreSource(c: Config, tables: seq<seq<Row>>, messages: seq<Message>, w: WorkerId,
                      batches: seq<Batch>, batch: Batch, env: nat -> (nat -> Attempt))
    requires AreBatches(c, tables, batches) && |batches| < |tables| && IsBatch(c, tables[|batches|], batch)
    ensures AreBatches(c, tables, batches + [batch])
    ensures var before := RunSources(c, tables, messages, w, batches, env);
      var outcome := RunBatch(c, tables[|batches|], before.messages, w, batch, env(|batches|));
      RunSources(c, tables, messages, w, batches + [batch], env)
        == RunOutcome(before.tables[|batches| := outcome.rows], outcome.messages, outcome.aborted)
  {
    hide IsBatch, RunBatch;
    assert (batches + [batch])[..|batches|] == batches;
  }

  /** What one poll does: source after source up to the first whose batch aborts. */
  ghost predicate IsPoll(c: Config, tables: seq<seq<Row>>, messages: seq<Message>, w: WorkerId,
                         claims: nat -> ClaimEnv, env: nat -> (nat -> Attempt), batches: seq<Batch>)
  {
    && AreBatches(c, tables, batches)
    && (forall n :: 0 <= n < |batches| ==> IsAnswer(batches[n], claims(n)))
    && (forall n :: 0 <= n < |batches| ==> !RunSources(c, tables, messages, w, batches[..n], env).aborted)
    && (|batches| < |tables| ==> RunSources(c, tables, messages, w, batches, env).aborted)
  }

  class RelayWorker {
    const config: Config
    const workerId: WorkerId
    const sources: seq<OutboxSource>
    const broker: Broker
    var running: bool
    var shuttingDown: bool

    constructor (config: Config, workerId: WorkerId, sources: seq<OutboxSource>, broker: Broker)
      ensures this.config == config && this.workerId == workerId
      ensures this.sources == sources && this.broker == broker
      ensures !running && !shuttingDown
    {
      this.config := config;
      this.workerId := workerId;
      this.sources := sources;
      this.broker := broker;
      running := false;
      shuttingDown := false;
    }

    ghost function Tables(): (r: seq<seq<Row>>)
      reads sources
      ensures |r| == |sources|
    {
      seq(|sources|, i requires 0 <= i < |sources| reads sources => sources[i].rows)
    }

    method OnApplicationShutdown()
      modifies this
      ensures shuttingDown && running == old(running)
    {
      shuttingDown := true;
    }

    method Catch(source: OutboxSource, k: nat, event: ClaimedEvent, env: Attempt) returns (aborted: bool)
      modifies source
      ensures Outcome(source.rows, broker.messages, aborted)
           == CatchBlock(config, old(source.rows), broker.messages, workerId, k, event, env)
      ensures Applied(env.fail) && Holds(old(source.rows), k, workerId) ==>
        && |source.rows| == |old(source.rows)| && source.rows[k].retryCount == event.retryCount + 1
        && (source.rows[k].status == Failed <==> event.retryCount + 1 >= config.maxRetryCount)
        && source.rows[k].nextRetryAt ==
             if event.retryCount + 1 >= config.maxRetryCount then None
             else Some(env.failedAt + DelaySeconds(event.retryCount + 1) * 1000)
    {
      var nextRetryCount := event.retryCount + 1;
      var isFailed := nextRetryCount >= config.maxRetryCount;
      var nextRetryAt := if isFailed then None else Some(env.failedAt + DelaySeconds(nextRetryCount) * 1000);
      if Applied(env.fail) {
        source.MarkPublishFailed(k, workerId,
          Failure(if isFailed then Failed else Pending, nextRetryCount, env.error, nextRetryAt));
      }
      return env.fail.Threw?;
    }

    method ProcessOne(source: OutboxSource, k: nat, event: ClaimedEvent, env: Attempt) returns (aborted: bool)
      modifies source, broker
      ensures Outcome(source.rows, broker.messages, aborted)
           == ProcessEvent(config, old(source.rows), old(broker.messages), workerId, k, event, env)
    {
      var validated := ValidateClaimed(event.columns, event.payload, config.dateParses);
      if validated.Err? {
        aborted := Catch(source, k, event, env);
        return;
      }
      broker.Publish(validated.value, k, env.send);
      if !env.send.Accepted? {
        aborted := Catch(source, k, event, env);
        return;
      }
      if Applied(env.confirm) {
        source.MarkPublishedById(k, workerId, env.sentAt, env.target);
      }
      if env.confirm.Threw? {
        aborted := Catch(source, k, event, env);
        return;
      }
      return false;
    }

    /** Claims a batch and works it off in whatever order the rows came back; `batch.order`
        lists the rows processed, all of them unless the run was aborted. */
    method ProcessSource(source: OutboxSource, claim: ClaimEnv, env: nat -> Attempt)
      returns (batch: Batch, aborted: bool)
      modifies source, broker
      ensures IsAnswer(batch, claim) && IsBatch(config, old(source.rows), batch)
      ensures Outcome(source.rows, broker.messages, aborted)
           == RunBatch(config, old(source.rows), old(broker.messages), workerId, batch, env)
      ensures !aborted ==> forall k :: k in batch.chosen ==> k in batch.order
    {
      hide OldestOf, Candidates, LockRows, ProcessEvent;
      ghost var rows0, messages0 := source.rows, broker.messages;
      var events := source.ClaimPendingEvents(workerId, claim.now, config.lockTimeoutSeconds,
                                              config.batchSize, claim.skipped, claim.db);
      batch := Batch(claim.now, claim.skipped, events.Keys, claim.db, []);
      if claim.db.Threw? {
        return batch, true;
      }
      aborted := false;
      var todo := events.Keys;
      while todo != {} && !aborted
        invariant todo <= events.Keys
        invariant batch == Batch(claim.now, claim.skipped, events.Keys, claim.db, batch.order)
        invariant IsBatch(config, rows0, batch)
        invariant forall k :: k in batch.order <==> k in events.Keys - todo
        invariant Outcome(source.rows, broker.messages, aborted)
               == RunBatch(config, rows0, messages0, workerId, batch, env)
        decreases todo, !aborted
      {
        var k :| k in todo;
        assert k !in batch.order && forall i :: 0 <= i < |batch.order| ==> batch.order[i] != k;
        aborted := ProcessOne(source, k, events[k], env(k));
        assert (batch.order + [k])[..|batch.order|] == batch.order;
        batch := batch.(order := batch.order + [k]);
        todo := todo - {k};
      }
    }

    /** One poll: nothing while a run is going on or after shutdown; otherwise one batch per
        source, in order, up to the first abort, after which the remaining sources are left
        alone. `running` is released either way. */
    method RunOnce(claims: nat -> ClaimEnv, env: nat -> (nat -> Attempt)) returns (batches: seq<Batch>, aborted: bool)
      requires forall i, j :: 0 <= i < j < |sources| ==> sources[i] != sources[j]
      modifies this, sources, broker
      ensures shuttingDown == old(shuttingDown)
      ensures running == old(running)
      ensures old(running || shuttingDown) ==> batches == [] && !aborted
      ensures AreBatches(config, old(Tables()), batches)
      ensures RunOutcome(Tables(), broker.messages, aborted)
           == RunSources(config, old(Tables()), old(broker.messages), workerId, batches, env)
      ensures !old(running || shuttingDown) ==>
                IsPoll(config, old(Tables()), old(broker.messages), workerId, claims, env, batches)
    {
      hide IsBatch, RunBatch, RunSources, IsAnswer;
      batches, aborted := [], false;
      NoSourceYet(config, Tables(), broker.messages, workerId, env);
      if running || shuttingDown {
        return;
      }
      running := true;
      ghost var tables0, messages0 := Tables(), broker.messages;
      while |batches| < |sources| && !aborted
        invariant |batches| <= |sources|
        invariant running && shuttingDown == old(shuttingDown)
        invariant AreBatches(config, tables0, batches)
        invariant forall i :: 0 <= i < |batches| ==> IsAnswer(batches[i], claims(i))
        invariant forall n :: 0 <= n < |batches| ==>
          !RunSources(config, tables0, messages0, workerId, batches[..n], env).aborted
        invariant RunOutcome(Tables(), broker.messages, aborted)
               == RunSources(config, tables0, messages0, workerId, batches, env)
        decreases |sources| - |batches|, !aborted
      {
        var n := |batches|;
        ghost var before := Tables();
        assert sources[n].rows == before[n] == tables0[n];
        var batch, stop := ProcessSource(sources[n], claims(n), env(n));
        OneMoreSource(config, tables0, messages0, workerId, batches, batch, env);
        assert forall m :: 0 <= m <= n ==> (batches + [batch])[..m] == batches[..m];
        assert batches[..n] == batches;
        batches, aborted := batches + [batch], stop;
        assert Tables() == before[n := sources[n].rows];
      }
      running := false;
    }
  }
}
