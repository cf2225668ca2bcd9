// What a failing source does to the other sources of the same poll.
module SourceFailures {
  import opened Envelope
  import opened Outbox
  import opened Protocol
  import opened RelayRun

  /** Processing this event ends in the catch block. */
  predicate Fails(c: Config, event: ClaimedEvent, env: Attempt) {
    ValidateClaimed(event.columns, event.payload, c.dateParses).Err? || !env.send.Accepted? || env.confirm.Threw?
  }

  /** The source's own database refused the claim or a failure mark. */
  ghost predicate Aborts(c: Config, rows: seq<Row>, batch: Batch, env: nat -> Attempt)
    requires IsBatch(c, rows, batch)
  {
    batch.db.Threw? || AnyMarkThrows(c, rows, batch.order, env)
  }

  predicate AnyMarkThrows(c: Config, rows: seq<Row>, order: seq<nat>, env: nat -> Attempt)
    requires forall i :: 0 <= i < |order| ==> order[i] < |rows|
  {
    exists i :: 0 <= i < |order| && Fails(c, ToClaimedEvent(rows[order[i]]), env(order[i])) && env(order[i]).fail.Threw?
  }

  lemma {:induction false} EventsAbortIff(c: Config, claimed: seq<Row>, rows: seq<Row>, messages: seq<Message>,
                                          w: WorkerId, order: seq<nat>, env: nat -> Attempt)
    requires forall i :: 0 <= i < |order| ==> order[i] < |claimed|
    ensures ProcessAll(c, claimed, rows, messages, w, order, env).aborted <==> AnyMarkThrows(c, claimed, order, env)
    decreases |order|
  {
    hide ValidateClaimed, MarkFailed, MarkPublished;
    if order != [] {
      var init := order[..|order| - 1];
      EventsAbortIff(c, claimed, rows, messages, w, init, env);
      if AnyMarkThrows(c, claimed, init, env) {
        var i :| 0 <= i < |init|
          && Fails(c, ToClaimedEvent(claimed[init[i]]), env(init[i])) && env(init[i]).fail.Threw?;
        assert order[i] == init[i];
      }
    }
  }

  lemma BatchAbortsIff(c: Config, rows: seq<Row>, messages: seq<Message>, w: WorkerId, batch: Batch,
                       env: nat -> Attempt)
    requires IsBatch(c, rows, batch)
    ensures RunBatch(c, rows, messages, w, batch, env).aborted <==> Aborts(c, rows, batch, env)
  {
    hide OldestOf, Candidates, LockRows, ProcessAll, AnyMarkThrows;
    if batch.db.Done? {
      EventsAbortIff(c, rows, LockRows(rows, batch.chosen, w, batch.now), messages, w, batch.order, env);
    }
  }

  lemma LastBatchDecides(c: Config, tables: seq<seq<Row>>, messages: seq<Message>, w: WorkerId,
                         batches: seq<Batch>, env: nat -> (nat -> Attempt), n: nat)
    requires AreBatches(c, tables, batches) && n < |batches|
    ensures AreBatches(c, tables, batches[..n + 1])
    ensures RunSources(c, tables, messages, w, batches[..n + 1], env).aborted <==>
      Aborts(c, tables[n], batches[n], env(n))
  {
    hide IsBatch, RunBatch, Aborts;
    assert batches[..n + 1] == batches[..n] + [batches[n]];
    OneMoreSource(c, tables, messages, w, batches[..n], batches[n], env);
    BatchAbortsIff(c, tables[n], RunSources(c, tables, messages, w, batches[..n], env).messages, w, batches[n], env(n));
  }

  /** A poll reaches every source if and only if no source but the last one refuses its
      claim or a failure mark. */
  lemma EverySourceIsPolledIff(c: Config, tables: seq<seq<Row>>, messages: seq<Message>, w: WorkerId,
                               claims: nat -> ClaimEnv, env: nat -> (nat -> Attempt), batches: seq<Batch>)
    requires IsPoll(c, tables, messages, w, claims, env, batches)
    ensures |batches| == |tables| <==>
      forall n :: 0 <= n < |batches| && n < |tables| - 1 ==> !Aborts(c, tables[n], batches[n], env(n))
  {
    hide IsBatch, RunSources, Aborts, IsAnswer;
    NoSourceYet(c, tables, messages, w, env);
    forall n | 0 <= n < |batches| - 1 ensures !Aborts(c, tables[n], batches[n], env(n)) {
      LastBatchDecides(c, tables, messages, w, batches, env, n);
    }
    if |batches| < |tables| {
      assert batches != [];
      var n := |batches| - 1;
      LastBatchDecides(c, tables, messages, w, batches, env, n);
      assert batches[..n + 1] == batches;
      assert Aborts(c, tables[n], batches[n], env(n));
    }
  }

  /** So one unreachable database leaves all sources after it alone in that poll. */
  lemma FailingClaimSkipsTheRest(c: Config, tables: seq<seq<Row>>, messages: seq<Message>, w: WorkerId,
                                 claims: nat -> ClaimEnv, env: nat -> (nat -> Attempt), batches: seq<Batch>, n: nat)
    requires IsPoll(c, tables, messages, w, claims, env, batches)
    requires n < |tables| && claims(n).db.Threw?
    ensures |batches| <= n + 1
    ensures forall m :: n < m < |tables| ==> RunSources(c, tables, messages, w, batches, env).tables[m] == tables[m]
  {
    hide IsBatch, RunSources;
    if n < |batches| {
      LastBatchDecides(c, tables, messages, w, batches, env, n);
    }
  }
}
