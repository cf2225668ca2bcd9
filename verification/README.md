# wms-saas: delivery, replay, authorization and rate-limit proofs

This project models four linked parts of the platform and proves what they keep over every
run. `dafny verify dfyconfig.toml` checks all of it.

**Event delivery** (`Envelope`, `RecordRoundTrip`, `SensitiveKeys`, `Outbox`, `Protocol`,
`ProtocolInvariant`, `Delivery`, `RowEffects`, `RelayRun`, `RelayRefinement`, `SourceFailures`,
`Backoff`, `ConsumerReading`, `ConsumerRun`, `EndToEnd`, `FairSchedule`, `FairTurns`,
`FairDelivery`, `EventPayloads`, `EventReaders`). Producers write an outbox row and its envelope together; relay workers claim
rows under a lock that expires, publish and mark them; SQS delivers at least once; audit workers
look an event up, append it and only then delete the message. `Protocol` is a state machine over
single database statements, broker calls and failures: any statement may throw before or after
it took effect, workers crash and restart under new names with clocks of their own, a claim skips
any set of rows, and finding and appending are separate steps so that consumers race.
`ProtocolInvariant` has the inductive invariant, `Delivery` the theorems and `RowEffects` what each
statement does to the columns of a row. `RelayRun` and
`ConsumerRun` are the services as objects that change their tables in place; `RelayRefinement`
proves that what they do is a sequence of protocol steps, so the theorems hold of them.
`FairSchedule`, `FairTurns` and `FairDelivery` are about endless schedules: once nothing is added
nothing stays pending, no row starves even while younger ones keep coming, and what was recorded
ends in the audit log. `EventReaders` reads the stored envelopes and audit rows back: from the
written names and keys alone, the logs of the tenant and account services replay to their tables.

**Tenants** (`TenantCodes`, `Tenants`, `TenantEffects`, `TenantReplay`): code generation down to
Hangul syllable arithmetic, what each call changes, and the event log as a complete record of
statuses and modules.

**Accounts** (`AuthModel`, `PermissionCodes`, `AuthServices`, `AuthRuns`, `AuthSystem`, `AuthReplay`,
`RoleCodes`, `TokenChains`, `AuthDecisions`, `AccountEffects`, `SignIns`): roles, assignments, users,
refresh tokens and their events. `AuthModel` says what each call does to the whole database,
`AuthServices` does it in place, and the other modules prove what the event log tells, the token
chains sound, the decision functions in agreement, tenants independent of each other, and of each
call when it succeeds, which rows it changes and what other calls answer because of it.

**Rate limiting** (`RateLimit`, `RateLimitSteps`): the fixed window in Redis, for any trace of
requests and any failing calls, and its bound for any interleaving of their commands.

`Common`, `Text` and `Json` hold what these share: options and results, white space and UUIDs,
JSON values.

## Where the code does not do what one would expect

- A row written by `record` passes the relay's validator only if its tenant id is in lower case:
  `tenant_id` is a `uuid` column, which comes back in lower case, while the JSON payload keeps the
  caller's text (`RecordPassesValidatorIff`, `UpperCaseTenantIsRejected`).
- A database error in one source ends the poll for all later ones. Requirement OUTBOX-008 in
  `docs/development/services/outbox-relay-service.html` says that they continue
  (`EverySourceIsPolledIff`, `FailingClaimSkipsTheRest`).
- The limiter's INCR and EXPIRE are two calls. If the second is not executed the key never expires
  and its callers are limited for good (`ExpiryIsLostIff`, `LostExpiryBlocksForGood`); with a window
  that is not positive nothing is limited (`NoWindowNoLimit`).
- `markPublished` and `markPublishFailed` test the lock holder but not the status. That this is
  enough is an invariant of the whole protocol, not of the statements (`RowsStep`).
- An event of a changed role names the changed fields but not their values. So the log gives a
  role's code back until an update writes one, and again once an assignment or removal has named
  it, and only then (`LogDeterminesRoleCodeIff`).

- Ids are accepted in any case, and the database compares them as ids, but some places compare their
  text with a column's lower-case one. So a request that writes an id in upper case is denied a
  warehouse's permissions (`SpellingDecidesIff`), its tenant in `me` (`MeAgreesWithSummaryIff`) and
  in refreshing and revoking (`TokenTenantIsAcceptedIff`), or its own role code (`OwnCodeIsFreeIff`).

## Assumptions

- Each tenant and account call is one atomic step, as under serialisable transactions. Several
  calls of the source read outside their transaction or read and then update (`refresh`,
  `updateStatus`, `generateUniqueTenantCode`, the conflict checks); under weaker isolation two
  concurrent refreshes could both succeed.
- Generated ids, event ids and token secrets are new; hashes do not collide; a stored password
  verifies exactly the password it was made from. `Date.parse` is any predicate, the folded (NFKD)
  name and the hash behind a code base are any strings of the documented shape.
- Defaults and unique keys are those of the Prisma schemas. Runs of the tenant service start from any
  tables, those of the account service from any that satisfy its invariant, as the ones written by
  `apps/auth-iam-service/prisma/seed.ts` do if its permission codes are well-formed and outside
  `system.`; seeding writes no token and no event.
- The acting user's id comes from a signed token made from the column, so its text is the column's.
- In `RateLimit` one request's commands are one step; `RateLimitSteps` separates them.
- A queue message is dead-lettered after five receives, `infra/cdk/lib/gateway-service-stack.ts:371`.

## Model

| member | source | states |
|---|---|---|
| `Delivery.AuditLogIsFaithful` | apps/audit-log-service/src/audit-logs/audit-logs.service.ts:84-123 | in every state of every run (crashes, expired locks, duplicate sends, redeliveries, racing consumers) the audit log has at most one row per event id, a row with an outbox event's id carries that event's tenant, request, action and resource, and no stored details hold a sensitive key |
| `Delivery.TightColumnsAreKept` | apps/audit-log-service/src/audit-logs/audit-logs.service.ts:330-336 | columns without surrounding white space reach the audit row unchanged |
| `Delivery.NothingIsLost` | apps/audit-log-service/src/audit-events/sqs-audit-event.worker.ts:93-121 | in every state of every run a published row's payload was really sent, and every sent message is queued, dead-lettered after five receives, or deleted with its event in the audit log; so a body without event id is never deleted |
| `Delivery.QueuedMessageGoesOn` | infra/cdk/lib/gateway-service-stack.ts:371 | a queued message can be received by any idle consumer before its fifth receive, and from then on dead-lettered instead |
| `Delivery.RowsStep` | apps/outbox-relay-service/src/sources/postgres-outbox-source.adapter.ts:58-91 | an existing row changes only by a claim while eligible, or by a mark of the worker that holds its lock, and then the row is pending and the failure counts from the row's own retry count, although the statements test neither |
| `Delivery.FinishedRowsAreFrozen` | apps/outbox-relay-service/src/sources/postgres-outbox-source.adapter.ts:58-91 | published and failed are absorbing over all runs: no column changes any more |
| `Delivery.LostLockStaysLost` | apps/outbox-relay-service/src/sources/postgres-outbox-source.adapter.ts:58-91 | over all runs a worker whose lock was taken over never holds it again before a new claim, and none of its marks changes a row |
| `Delivery.LeasesNeverOverlap` | apps/outbox-relay-service/src/sources/postgres-outbox-source.adapter.ts:128-165 | two different leases of a row that is never released share no instant, whatever the workers' clocks |
| `Delivery.BackoffIsHonoured` | apps/outbox-relay-service/src/relay/relay-worker.service.ts:95-121 | over all runs a row that failed and stays pending is next claimed, by whichever worker, no earlier than the failure plus the delay for its new retry count |
| `Delivery.WeightCountsPending` | apps/outbox-relay-service/src/relay/relay-worker.service.ts:95-105 | the retries left over all rows are never negative, and zero exactly when nothing is pending |
| `Delivery.EffectiveMarksLowerTheWeight` | apps/outbox-relay-service/src/relay/relay-worker.service.ts:81-116 | every effective mark strictly lowers the retries left, a failure counts exactly one retry and fails the row exactly at the cap, and a stale mark changes nothing |
| `ProtocolInvariant.StepKeepsInv` | apps/outbox-relay-service/src/sources/postgres-outbox-source.adapter.ts:43-91 | the inductive invariant behind the above (a locked row is pending, lock time and holder come together, claimed events match their rows, acknowledged messages are audited, ..) survives every step |
| `ProtocolInvariant.RunKeepsInv` | apps/outbox-relay-service/src/sources/postgres-outbox-source.adapter.ts:43-91 | that invariant holds in every state of every run |
| `Outbox.BatchExists` | apps/outbox-relay-service/src/sources/postgres-outbox-source.adapter.ts:128-165 | whatever rows are skipped as locked, a batch of the limit's size, or of all candidates if they are fewer, exists in which no candidate left out is older than a chosen one |
| `Outbox.OutboxSource.ClaimPendingEvents` | apps/outbox-relay-service/src/sources/postgres-outbox-source.adapter.ts:43-56 | locks and returns a batch of the eligible rows none of which is younger than an eligible row left out; other rows stay as they are |
| `Outbox.OutboxSource.MarkPublishedById` | apps/outbox-relay-service/src/sources/postgres-outbox-source.adapter.ts:58-74 | publishes and unlocks the row if the worker holds its lock, else changes nothing |
| `Outbox.OutboxSource.MarkPublishFailed` | apps/outbox-relay-service/src/sources/postgres-outbox-source.adapter.ts:76-91 | stores the failure and unlocks the row if the worker holds its lock, else changes nothing |
| `RelayRun.RelayWorker.Catch` | apps/outbox-relay-service/src/relay/relay-worker.service.ts:95-121 | the catch block: the failure is counted, below the limit the next attempt is due after exactly the delay for the new count, from the limit on the row fails; if the mark throws, the run is aborted |
| `RelayRun.RelayWorker.ProcessOne` | apps/outbox-relay-service/src/relay/relay-worker.service.ts:81-116 | validate, publish, mark; any throw leads to the catch block |
| `RelayRun.RelayWorker.ProcessSource` | apps/outbox-relay-service/src/relay/relay-worker.service.ts:68-79 | claims one batch and processes its events in some order until one aborts |
| `RelayRun.RelayWorker.RunOnce` | apps/outbox-relay-service/src/relay/relay-worker.service.ts:47-66 | the sources in turn up to the first that throws; nothing happens while a run is on or after shutdown |
| `RelayRefinement.EventReaches` | apps/outbox-relay-service/src/relay/relay-worker.service.ts:81-116 | processing one event is a sequence of protocol steps with the same end state |
| `RelayRefinement.BatchReaches` | apps/outbox-relay-service/src/relay/relay-worker.service.ts:68-79 | processing a batch, aborted or not, is a sequence of protocol steps with the same end state |
| `RelayRefinement.BatchKeepsInv` | apps/outbox-relay-service/src/relay/relay-worker.service.ts:68-79 | so the invariant holds after every batch of the worker |
| `RelayRefinement.CompleteBatchLowersWeight` | apps/outbox-relay-service/src/relay/relay-worker.service.ts:68-116 | a batch processed to its end with the database answering never raises the retries left and lowers them if it claimed anything, whatever rows were skipped, not due or locked and whatever became of the sends |
| `RelayRefinement.ClaimingPollComes` | apps/outbox-relay-service/src/sources/postgres-outbox-source.adapter.ts:128-165 | while a row is pending, from some instant on every poll that skips nothing claims something |
| `RelayRefinement.CompleteBatchAt` | apps/outbox-relay-service/src/sources/postgres-outbox-source.adapter.ts:128-165 | at every instant a complete batch that skips nothing is possible |
| `RelayRefinement.ClaimingPollsDrain` | apps/outbox-relay-service/src/relay/relay-worker.service.ts:27-79 | from any state satisfying the invariant, with any other steps between the polls of any workers, there are at most as many claiming polls as retries were left and new rows brought, and after as many nothing is pending |
| `FairSchedule.FairSchedulesDrain` | apps/outbox-relay-service/src/relay/relay-worker.service.ts:27-79 | under every fair schedule (full polls of any workers never cease and their clocks go on; from some round on no new rows and no claims but in complete polls) nothing is pending after a while, from any state satisfying the invariant: whatever sends, crashes and other steps happen beside |
| `FairSchedule.FairScheduleExists` | apps/outbox-relay-service/src/relay/relay-worker.service.ts:27-79 | from any such state with an idle worker there is a fair schedule, for whatever becomes of the sends of each poll |
| `FairSchedule.ScheduleKeepsOrLowers` | apps/outbox-relay-service/src/relay/relay-worker.service.ts:68-116 | along such a schedule the rows are as they were or fewer retries are left |
| `SourceFailures.BatchAbortsIff` | apps/outbox-relay-service/src/relay/relay-worker.service.ts:68-116 | a source's part of a poll is cut short if and only if its database refuses the claim, or a failure mark of an event that did fail |
| `SourceFailures.EverySourceIsPolledIff` | apps/outbox-relay-service/src/relay/relay-worker.service.ts:52-61 | a poll reaches every source if and only if that happens to none but the last |
| `SourceFailures.FailingClaimSkipsTheRest` | apps/outbox-relay-service/src/relay/relay-worker.service.ts:52-61 | one refused claim leaves all later sources untouched by that poll, unlike requirement OUTBOX-008 of the service's documentation |
| `Backoff.DelayIsMonotoneAndBounded` | apps/outbox-relay-service/src/relay/relay-worker.service.ts:118-121 | the delay never falls with the retry count and stays within 5..300 seconds |
| `Backoff.TotalDelayClosedForm` | apps/outbox-relay-service/src/relay/relay-worker.service.ts:118-121 | the first n delays add up to 5(2^n - 1), from n = 6 on to 315 + 300(n - 6) |
| `RowEffects.ProduceEffect` | apps/tenant-service/src/outbox/outbox-event.service.ts:28-55 | a produced row carries the producer's columns and payload, is pending, unlocked and without retries, and no other row changes |
| `RowEffects.PublishedEffect` | apps/outbox-relay-service/src/sources/postgres-outbox-source.adapter.ts:58-74 | an effective mark publishes exactly its row, with time and target, and clears lock, retry time and error |
| `RowEffects.FailedEffect` | apps/outbox-relay-service/src/relay/relay-worker.service.ts:95-121 | an effective failure counts one retry in exactly its row; below the limit the row stays pending and is due at the failure plus min(300, 5 * 2^(k-1)) seconds for its new count k, from the limit on it fails |
| `RowEffects.ClaimEffect` | apps/outbox-relay-service/src/sources/postgres-outbox-source.adapter.ts:128-165 | a claim locks rows that are pending, due and free or locked for the timeout, and changes nothing else in them or in other rows |
| `RowEffects.RoomDecidesIff` | apps/outbox-relay-service/src/sources/postgres-outbox-source.adapter.ts:128-165 | a claim with room takes a row if and only if it is not skipped, pending, due, and free or locked for the timeout |
| `RowEffects.BackoffDecidesIff` | apps/outbox-relay-service/src/relay/relay-worker.service.ts:95-121 | over all runs, after a failure below the limit a claim with room that does not skip the untouched row takes it if and only if the delay has passed |
| `RowEffects.OlderRowsFirst` | apps/outbox-relay-service/src/sources/postgres-outbox-source.adapter.ts:136-140 | of two due, unlocked rows a claim never locks the younger and leaves the older, unless another transaction held that one |
| `FairTurns.PassingOverTakesOlder` | apps/outbox-relay-service/src/sources/postgres-outbox-source.adapter.ts:128-165 | a claim that passes over an eligible row it does not skip is full, and every row it took is at least as old |
| `FairTurns.EveryRowGetsItsTurn` | apps/outbox-relay-service/src/sources/postgres-outbox-source.adapter.ts:128-165 | no starvation: under every fair schedule a pending row in no worker's hand is claimed after a while, unchanged until then, although younger rows may be added all the time, whatever other claims, sends, marks and crashes happen |
| `RecordRoundTrip.RecordPassesValidatorIff` | apps/outbox-relay-service/src/relay/event-envelope.validator.ts:4-28 | a row written by `record` passes the relay's validator if and only if its tenant id was written in lower case; otherwise the tenantId mismatch is reported |
| `RecordRoundTrip.UpperCaseTenantIsRejected` | apps/outbox-relay-service/src/relay/event-envelope.validator.ts:4-28 | a concrete tenant id whose events are rejected |
| `RecordRoundTrip.UpperCaseTenantIsUuid` | apps/audit-log-service/src/audit-logs/audit-logs.service.ts:9 | and which passes the services' UUID test |
| `RecordRoundTrip.RecordedActor` | apps/auth-iam-service/src/outbox/outbox-event.service.ts:48-51 | a recorded user actor is read back with its id, a system actor with none, a blank user id is refused |
| `RecordRoundTrip.RecordAcceptedIff` | apps/audit-log-service/src/audit-logs/audit-logs.service.ts:84-123 | a recorded event is accepted by `recordFromEvent` if and only if its texts are not blank, its version positive, its actor readable and its data without sensitive keys; the row then equals the recorded values |
| `RecordRoundTrip.PayloadFields` | apps/auth-iam-service/src/outbox/outbox-event.service.ts:38-53 | every field of the written envelope reads back as written |
| `RecordRoundTrip.PayloadAgainstColumns` | apps/auth-iam-service/src/outbox/outbox-event.service.ts:28-53 | every field the validator compares is written equal to its column, the event and tenant ids up to the lower case of the uuid columns |
| `Envelope.ValidatorPassesIff` | apps/outbox-relay-service/src/relay/event-envelope.validator.ts:4-28 | the validator passes exactly an object whose eight fields equal the columns, whose time parses and which has data |
| `Envelope.RelayedBodyKeepsColumns` | apps/audit-log-service/src/audit-events/audit-log-event.consumer.ts:33-64 | a validated payload, read back from the queue, is keyed by and describes its row's columns |
| `Envelope.ReadDetails` | apps/audit-log-service/src/audit-logs/audit-logs.service.ts:222-237 | details are accepted exactly if no object at any depth has a key that spells a listed word, and then as they are |
| `Envelope.CommandIsAcceptedIff` | apps/audit-log-service/src/audit-logs/audit-logs.service.ts:84-123 | a command is accepted exactly if its ids are UUIDs, its texts not blank, version, time and actor readable and its data clean, and the row then holds these very fields |
| `ConsumerReading.BodyMeaning` | apps/audit-log-service/src/audit-events/audit-log-event.consumer.ts:33-64 | an object is read as it is and one in an EventBridge envelope as its detail; text that is no JSON object, and an envelope whose detail is none, are refused for their event id |
| `ConsumerReading.WrappingMakesNoDifference` | apps/audit-log-service/src/audit-events/audit-log-event.consumer.ts:33-64 | a recorded event is read alike bare and wrapped |
| `ConsumerReading.ActorReadsBack` | apps/audit-log-service/src/audit-logs/audit-logs.service.ts:189-220 | every actor written by the contract reads back as it was: users by `userId`, systems by `id`, services by `serviceId`, and a service without one as the event's source |
| `ConsumerReading.UserIdCounts` | apps/audit-log-service/src/audit-logs/audit-logs.service.ts:189-220 | without a type a user id makes a user, and it counts before `id` |
| `ConsumerReading.UntypedActorIsService` | apps/audit-log-service/src/audit-logs/audit-logs.service.ts:197 | without a type and a user id the actor is the source as a service |
| `ConsumerReading.NoActorIsTheSource` | apps/audit-log-service/src/audit-logs/audit-logs.service.ts:189-195 | so it is without an actor object |
| `ConsumerReading.OtherActorsAreRefused` | apps/audit-log-service/src/audit-logs/audit-logs.service.ts:281-287 | an actor of any other type is refused |
| `ConsumerReading.IdsAreTexts` | apps/audit-log-service/src/audit-logs/audit-logs.service.ts:210-220 | an id that is blank but not empty, or no text, is refused, for each type |
| `Text.TrimTakesSpace` | apps/audit-log-service/src/audit-logs/audit-logs.service.ts:330-336 | trimming takes away white space at both ends, all of it, and nothing else |
| `SensitiveKeys.FindSensitiveDetailPath` | apps/audit-log-service/src/audit-logs/audit-logs.service.ts:415-441 | the two nested walks, arrays walked twice and empty paths dismissed, return the first sensitive path in traversal order, and none exactly if no object at any depth has a key that spells a listed word |
| `SensitiveKeys.SecondWalkFindsNothing` | apps/audit-log-service/src/audit-logs/audit-logs.service.ts:415-441 | the second walk of an array finds nothing new |
| `SensitiveKeys.ScanDecidesCleanliness` | apps/audit-log-service/src/audit-logs/audit-logs.service.ts:415-441 | the path a value is scanned under does not matter: something is found exactly if some object at some depth has a key that spells a listed word |
| `SensitiveKeys.SensitiveIffSpelled` | apps/audit-log-service/src/audit-logs/audit-logs.service.ts:427-431 | a key is sensitive exactly if it is a listed word in any case with dashes, underscores and white space put in anywhere |
| `SensitiveKeys.SeparatorsAreIgnored` | apps/audit-log-service/src/audit-logs/audit-logs.service.ts:427 | a separator anywhere in a key makes no difference |
| `SensitiveKeys.CaseIsIgnored` | apps/audit-log-service/src/audit-logs/audit-logs.service.ts:427 | nor does the case of its letters |
| `SensitiveKeys.KeysAtAnyDepth` | apps/audit-log-service/src/audit-logs/audit-logs.service.ts:415-441 | the keys looked at are those of all objects inside the value, at whatever depth of arrays and objects |
| `ConsumerRun.AuditLogTable.FindByEventId` | apps/audit-log-service/src/audit-logs/audit-logs.repository.ts:69-75 | tells whether a row has this event id |
| `ConsumerRun.AuditLogTable.Append` | apps/audit-log-service/src/audit-logs/audit-logs.repository.ts:50-67 | adds the row unless the unique key or the database refuses; a duplicate throws and changes nothing |
| `ConsumerRun.AuditWorker.RecordFromEvent` | apps/audit-log-service/src/audit-logs/audit-logs.service.ts:84-123 | what is stored and whether it throws, for every command and every answer of the database |
| `ConsumerRun.AuditWorker.ProcessMessage` | apps/audit-log-service/src/audit-events/sqs-audit-event.worker.ts:93-121 | the message is deleted only after its event was recorded |
| `ConsumerRun.AuditWorker.PollOnce` | apps/audit-log-service/src/audit-events/sqs-audit-event.worker.ts:66-91 | the received messages one after the other |
| `ConsumerRun.ProcessMessageReaches` | apps/audit-log-service/src/audit-events/sqs-audit-event.worker.ts:93-121 | processing one message is a sequence of the protocol's consumer steps with the same end state |
| `ConsumerRun.PollReaches` | apps/audit-log-service/src/audit-events/sqs-audit-event.worker.ts:66-91 | working off a received batch is a sequence of the protocol's consumer steps with the same end state |
| `ConsumerRun.AcceptableMessageIsAudited` | apps/audit-log-service/src/audit-events/sqs-audit-event.worker.ts:93-121 | from any state satisfying the invariant an idle consumer that meets no failure gets an acceptable message into the audit log and off the queue |
| `ConsumerRun.FailuresDoNotBlockThePoll` | apps/audit-log-service/src/audit-events/sqs-audit-event.worker.ts:83-91 | messages of a poll that cannot be recorded do not keep the others from being recorded and deleted |
| `EndToEnd.ClaimedEventIsAudited` | apps/outbox-relay-service/src/relay/relay-worker.service.ts:68-116 | from any state satisfying the invariant a valid, acceptable event that is claimed in a complete batch and whose send the broker takes reaches the audit log once an idle consumer gets its message and meets no failure |
| `EndToEnd.RecordedEventIsAudited` | apps/audit-log-service/src/audit-logs/audit-logs.service.ts:84-123 | so does every recorded event with a lower-case tenant id and auditable values |
| `FairDelivery.PendingRowIsAudited` | apps/audit-log-service/src/audit-events/sqs-audit-event.worker.ts:66-121 | under every fair schedule with a queue that delivers at least once and consumers that meet no failure, a pending row in no worker's hand, with a valid and acceptable payload and sends the broker takes, ends in the audit log, however many younger rows keep coming |
| `FairDelivery.RecordedRowIsAudited` | apps/audit-log-service/src/audit-logs/audit-logs.service.ts:84-123 | so does every recorded event with a lower-case tenant id and auditable values |
| `FairDelivery.WaitingMessageIsAudited` | apps/audit-log-service/src/audit-events/sqs-audit-event.worker.ts:66-121 | a message never received yet, with an acceptable body, ends in the audit log |
| `EventReaders.TenantEventReadsBack` | apps/tenant-service/src/tenants/tenants.service.ts:261-593 | from event type, aggregate and data keys alone every tenant event reads back as what it was, for any texts that denote the ids |
| `EventReaders.AuthEventReadsBack` | apps/auth-iam-service/src/permissions/rbac.service.ts:98-465 | so does each of the nine account events, lists as sets |
| `EventReaders.StoredTenantEventsReplay` | apps/tenant-service/src/outbox/outbox-event.service.ts:28-55 | after any run the stored tenant envelopes, read by those keys and folded over the seeded tables, give every tenant's status and enabled modules |
| `EventReaders.StoredAuthEventsReplay` | apps/auth-iam-service/src/outbox/outbox-event.service.ts:28-55 | after any run the stored account envelopes, read likewise, give the tenant users and their statuses, the roles' tenants, the catalogue, the grants and the assignments |
| `EventReaders.AuditRowTellsTenantEvent` | apps/audit-log-service/src/audit-logs/audit-logs.service.ts:84-123 | a tenant event is accepted by the audit consumer exactly if its request has a readable id and user, and the stored row tells the event |
| `EventReaders.AuditRowTellsAuthEvent` | apps/audit-log-service/src/audit-logs/audit-logs.service.ts:84-123 | and so for every account event |
| `TenantCodes.HangulDecomposition` | apps/tenant-service/src/tenants/tenants.service.ts:1110-1130 | every syllable U+AC00..U+D7A3 has indices in range of the 19, 21 and 28 letters, which compose to it again |
| `TenantCodes.HangulComposition` | apps/tenant-service/src/tenants/tenants.service.ts:1110-1130 | every index triple in range composes to a syllable with these indices: with the former, a bijection |
| `TenantCodes.RomanizationIsNonEmpty` | apps/tenant-service/src/tenants/tenants.service.ts:1110-1130 | a syllable's romanisation is not empty and consists of letters |
| `TenantCodes.RomanizeFirstHangulSyllable` | apps/tenant-service/src/tenants/tenants.service.ts:1110-1130 | romanises the first syllable of the text, if any |
| `TenantCodes.SlugWithoutDashes` | apps/tenant-service/src/tenants/tenants.service.ts:1132-1141 | a slug upper-cased and stripped of dashes is its input's letters and digits in order |
| `TenantCodes.CodeBaseIsFixed` | apps/tenant-service/src/tenants/tenants.service.ts:1100-1108 | for every input the code base has exactly four characters of A-Z, 0-9 |
| `TenantCodes.CharactersCountOneByOne` | apps/tenant-service/src/tenants/tenants.service.ts:1132-1141 | each character of the folded text adds its capital, itself or nothing to the code, wherever it stands |
| `TenantCodes.CodeBaseMeaning` | apps/tenant-service/src/tenants/tenants.service.ts:1100-1108 | a base begins with the text's letters and digits, without any with the romanised first Hangul syllable, and is filled up from the hash; without either it is the middle of the hash |
| `TenantCodes.DomainDecidesThePrefix` | apps/tenant-service/src/tenants/tenants.service.ts:1072-1108 | the code of a tenant with a domain begins with the letters and digits of the label the domain is registered under, whatever subdomains and tenant name |
| `TenantCodes.LabelsOfJoin` | apps/tenant-service/src/tenants/tenants.service.ts:1072-1073 | splitting at dots undoes joining non-empty labels with dots |
| `TenantCodes.RegisteredNameIsSelected` | apps/tenant-service/src/tenants/tenants.service.ts:1072-1094 | the label before the public suffix is selected, whatever the subdomains |
| `TenantCodes.SelectedLabel` | apps/tenant-service/src/tenants/tenants.service.ts:1079-1094 | of any labels the one before the public suffix is selected, or the first if they are no more than a suffix |
| `TenantCodes.PadRoundTrip` | apps/tenant-service/src/tenants/tenants.service.ts:1062-1063 | the padded sequence number has four digits and reads back as the number |
| `TenantCodes.CandidateIsInjective` | apps/tenant-service/src/tenants/tenants.service.ts:1062-1063 | different numbers give different codes |
| `TenantCodes.FirstFreeMeaning` | apps/tenant-service/src/tenants/tenants.service.ts:1045-1070 | the smallest free number is taken, and generation fails if and only if all 9999 are taken |
| `TenantCodes.GenerateUniqueTenantCode` | apps/tenant-service/src/tenants/tenants.service.ts:1045-1070 | the loop over the codes that share the prefix finds the first code free among all codes |
| `Tenants.TenantsService.Create` | apps/tenant-service/src/tenants/tenants.service.ts:231-284 | a tenant, its domain and its event, or an error and no change |
| `Tenants.TenantsService.UpdateStatus` | apps/tenant-service/src/tenants/tenants.service.ts:456-504 | status and event change together; the same status changes nothing |
| `Tenants.TenantsService.ReplaceTenantModules` | apps/tenant-service/src/tenants/tenants.service.ts:506-615 | the enabled modules become the requested ones, with one event for each module that changes |
| `Tenants.TenantsService.Upsert` | apps/tenant-service/src/tenants/tenants.service.ts:522-544 | enables each requested module |
| `Tenants.EnabledAfterReplacement` | apps/tenant-service/src/tenants/tenants.service.ts:506-615 | after a replacement exactly the requested modules are enabled, and other tenants' are as before |
| `TenantEffects.TenantCreationIsExact` | apps/tenant-service/src/tenants/tenants.service.ts:231-284 | a tenant is created exactly if its domain is new and one of 9999 numbers is free: in provisioning, with the smallest free number, recorded with its name and domain, and nothing else changes |
| `TenantEffects.StatusChangeIsExact` | apps/tenant-service/src/tenants/tenants.service.ts:456-504 | a status is changed exactly for a known tenant and in its row alone; the event tells both statuses and the reason, and there is none if they are equal |
| `TenantEffects.ReplacementIsExact` | apps/tenant-service/src/tenants/tenants.service.ts:506-615 | for any tenant and module: enabled afterwards exactly if requested, or another tenant's and enabled before; an event tells it exactly if it changed, and disabled rows stay |
| `TenantReplay.LogReplaysToTables` | apps/tenant-service/src/tenants/tenants.service.ts:456-615 | after any run the event log folded over the seeded tables gives every tenant's status and enabled modules, and each event fits its past |
| `TenantReplay.FirstModuleEventEnables` | apps/tenant-service/src/tenants/tenants.service.ts:561-593 | the first event about a tenant's module enables it, exactly if it was not seeded enabled |
| `TenantReplay.ModuleEventsAlternate` | apps/tenant-service/src/tenants/tenants.service.ts:561-593 | enabling and disabling events strictly alternate |
| `TenantReplay.PreviousStatusIsPreceding` | apps/tenant-service/src/tenants/tenants.service.ts:482-500 | each `previousStatus` is the status of the tenant's preceding event and differs from the new one |
| `TenantReplay.CodesStayDistinct` | apps/tenant-service/src/tenants/tenants.service.ts:1045-1070 | tenant codes are pairwise distinct after any run from seeded tables in which they are |
| `AuthServices.RbacService.CreateRole` | apps/auth-iam-service/src/permissions/rbac.service.ts:56-113 | role and event, or an error and no change |
| `AuthServices.RbacService.UpdateRole` | apps/auth-iam-service/src/permissions/rbac.service.ts:178-239 | the role's changed fields and the event, or an error and no change |
| `AuthServices.RbacService.ReadCodes` | apps/auth-iam-service/src/permissions/rbac.service.ts:666-671 | reads the list of permission codes; one malformed code refuses it |
| `AuthServices.RbacService.ReplaceRolePermissions` | apps/auth-iam-service/src/permissions/rbac.service.ts:241-317 | returns and leaves exactly the requested codes, trimmed, in the role's rows and every other role's rows alone; an error changes nothing |
| `AuthServices.RbacService.FindActorLevel` | apps/auth-iam-service/src/permissions/rbac.service.ts:745-777 | the level of the acting user |
| `AuthServices.RbacService.AssignUserRole` | apps/auth-iam-service/src/permissions/rbac.service.ts:319-397 | assignment and event, or an error and no change |
| `AuthServices.RbacService.RemoveUserRole` | apps/auth-iam-service/src/permissions/rbac.service.ts:423-469 | removes the assignment, with its event, if its role is the tenant's |
| `AuthServices.RbacService.GetActiveUserAssignments` | apps/auth-iam-service/src/permissions/rbac.service.ts:574-617 | the active user's assignments to roles of the tenant |
| `AuthServices.CollectPermissionCodes` | apps/auth-iam-service/src/permissions/rbac.service.ts:619-628 | the loop collects exactly the codes some assignment carries |
| `AuthServices.RbacService.Summarize` | apps/auth-iam-service/src/permissions/rbac.service.ts:471-498 | the summary, or the first error |
| `AuthServices.RbacService.Check` | apps/auth-iam-service/src/permissions/rbac.service.ts:500-545 | the decision, or the first error, with the requested warehouse compared as text |
| `AuthServices.PermissionsService.Create` | apps/auth-iam-service/src/permissions/permissions.service.ts:39-80 | adds a new code to the catalogue, with its event |
| `PermissionCodes.PermissionCodeIff` | apps/auth-iam-service/src/permissions/rbac-utils.ts:57-67 | a permission code is three or more segments, each a lower-case letter followed by letters and digits, joined by dots |
| `AccountEffects.RoleCreationIsExact` | apps/auth-iam-service/src/permissions/rbac.service.ts:56-113 | a role is created exactly if its code is free in the tenant and not system_admin, with the requested values and without permissions or assignments; nothing else changes |
| `AccountEffects.RoleUpdateIsExact` | apps/auth-iam-service/src/permissions/rbac.service.ts:178-239 | a role is updated exactly if it is the tenant's, something is asked for and the code is free; what is not asked for stays, and the event names exactly the fields asked for |
| `AccountEffects.CatalogueIsExact` | apps/auth-iam-service/src/permissions/permissions.service.ts:39-80 | a permission is added exactly if it is well-formed and new |
| `AccountEffects.ReplacementIsExact` | apps/auth-iam-service/src/permissions/rbac.service.ts:241-317 | a replacement goes through exactly if every value is a catalogue code outside system. and the role the tenant's; then a pair is in the table exactly if it is the role and a requested code, or was there for another role |
| `AccountEffects.ReplacementDecides` | apps/auth-iam-service/src/permissions/rbac.service.ts:241-317 | afterwards `check` says yes exactly if a covering assignment is of that role and the code was requested, or of another role that has it: dropped codes no other role carries are denied |
| `AccountEffects.AssignmentDecides` | apps/auth-iam-service/src/permissions/rbac.service.ts:319-397 | an assignment adds exactly the role's codes, for its user and where its warehouse covers the request, to what `check` says yes to |
| `AccountEffects.RemovalDecides` | apps/auth-iam-service/src/permissions/rbac.service.ts:423-469 | after a removal `check` says yes exactly to what another assignment of the user covers |
| `AccountEffects.RemovalAcceptedIff` | apps/auth-iam-service/src/permissions/rbac.service.ts:423-469 | an assignment can be removed exactly in its user's tenant |
| `AccountEffects.RemovalUndoesAssignment` | apps/auth-iam-service/src/permissions/rbac.service.ts:319-469 | removing a new assignment leaves every table as it was |
| `AccountEffects.CheckRefusals` | apps/auth-iam-service/src/permissions/rbac.service.ts:500-545 | which error `check` answers, in which order; a user of the tenant who is not active gets ACCOUNT_LOCKED, an active system administrator is refused malformed codes only |
| `AccountEffects.ViewRefusals` | apps/auth-iam-service/src/permissions/rbac.service.ts:471-498 | which error `summary` and `me` answer |
| `AccountEffects.AdministratorMayDoAll` | apps/auth-iam-service/src/permissions/rbac.service.ts:471-545 | an active system administrator is allowed every catalogue code and shown the whole catalogue, in `summary` and `me` |
| `AccountEffects.SummaryRolesAreAssigned` | apps/auth-iam-service/src/permissions/rbac.service.ts:471-498 | the summary's roles are exactly the user's assignments, with their own role, code and warehouse |
| `AccountEffects.LevelMeaning` | apps/auth-iam-service/src/permissions/rbac.service.ts:745-777 | the level of an actor: super and plain system administrators are told apart by the bootstrap id, a tenant administrator is an active user whose summary in the tenant shows tenant_admin |
| `AccountEffects.EligibleIffShown` | apps/auth-iam-service/src/auth/auth.service.ts:228-242 | a tenant user is let in as an administrator exactly if the summary shows tenant_admin or one of five read permissions |
| `AuthServices.UsersService.Create` | apps/auth-iam-service/src/users/users.service.ts:103-161 | user and event; a system administrator only by the bootstrap administrator, without event |
| `AuthServices.UsersService.CreateSystemAdmin` | apps/auth-iam-service/src/users/users.service.ts:473-530 | the system administrator path of the same |
| `AuthServices.UsersService.Update` | apps/auth-iam-service/src/users/users.service.ts:252-368 | the user's changed fields; without tenant only an administrator's own |
| `AuthServices.UsersService.UpdateStatus` | apps/auth-iam-service/src/users/users.service.ts:370-428 | status, revocation of the user's tokens unless active, and event together |
| `AuthServices.UsersService.Remove` | apps/auth-iam-service/src/users/users.service.ts:430-439 | is a change to inactive |
| `AuthServices.AuthService.AdminCandidates` | apps/auth-iam-service/src/auth/auth.service.ts:172-242 | the loop finds exactly the eligible users with this email and password |
| `AuthServices.AuthService.ResolveLoginUser` | apps/auth-iam-service/src/auth/auth.service.ts:117-242 | who logs in, or the first error |
| `AuthServices.AuthService.Login` | apps/auth-iam-service/src/auth/auth.service.ts:117-159 | adds one token for that user, or changes nothing |
| `AuthServices.AuthService.Refresh` | apps/auth-iam-service/src/auth/auth.service.ts:244-306 | rotates a usable token: adds its successor, revokes and links it; or changes nothing |
| `AuthServices.AuthService.Me` | apps/auth-iam-service/src/auth/auth.service.ts:308-397 | the user's roles and permissions over all assignments, or the first error |
| `AuthServices.AuthService.Revoke` | apps/auth-iam-service/src/auth/auth.service.ts:399-472 | revokes the unrevoked tokens selected and no others, and reports how many it changed |
| `SignIns.UserCreationIsExact` | apps/auth-iam-service/src/users/users.service.ts:103-161 | a tenant user is created exactly with an email free in the tenant, a system administrator exactly by the active bootstrap administrator without a tenant; with the requested values, and nothing else changes |
| `SignIns.CreatedUserSignsIn` | apps/auth-iam-service/src/auth/auth.service.ts:117-170 | a created user signs in exactly with its password, unless created inactive or locked |
| `SignIns.AdministratorsComeFromTheBootstrap` | apps/auth-iam-service/src/users/users.service.ts:473-530 | over all runs every user who became a system administrator was created by the bootstrap administrator, active at that moment |
| `SignIns.TenantLogin` | apps/auth-iam-service/src/auth/auth.service.ts:117-170 | what a sign-in with a user's email answers: locked before a wrong password |
| `SignIns.AdminLoginRefusals` | apps/auth-iam-service/src/auth/auth.service.ts:172-226 | what a sign-in without a tenant answers an eligible administrator: ambiguous before locked |
| `SignIns.UserUpdateIsExact` | apps/auth-iam-service/src/users/users.service.ts:252-368 | a user is updated exactly in its tenant, or as an active system administrator by itself, if something is asked for and the email free; what is not asked for stays, password, type and status included, and the event names exactly the fields asked for |
| `SignIns.NewEmailSignsIn` | apps/auth-iam-service/src/users/users.service.ts:252-310 | afterwards the user signs in with the new email and the old password, and with the old email no longer |
| `SignIns.StatusChangeIsExact` | apps/auth-iam-service/src/users/users.service.ts:370-428 | a status change alters exactly the user's status and, unless it is active, revokes exactly the user's unrevoked tokens of the tenant |
| `SignIns.LockedOutEverywhere` | apps/auth-iam-service/src/permissions/rbac.service.ts:574-617 | a user made inactive or locked is answered ACCOUNT_LOCKED by check, summary, me and login, and none of its tokens refreshes |
| `SignIns.RefreshAcceptedIff` | apps/auth-iam-service/src/auth/auth.service.ts:244-306 | a refresh succeeds exactly with the secret of an unrevoked, unexpired token of an active user, whose tenant is the one named if one is |
| `SignIns.RefreshIsExact` | apps/auth-iam-service/src/auth/auth.service.ts:244-306 | it revokes and links the shown token and adds one of the same user and tenant with the new secret and expiry; no other token changes |
| `SignIns.LoginIsExact` | apps/auth-iam-service/src/auth/auth.service.ts:117-159 | a sign-in adds one unrevoked token of the user with the new secret and expiry, and changes nothing else |
| `SignIns.TokensExpire` | apps/auth-iam-service/src/auth/auth.service.ts:260-264 | at and after its expiry a token is refused, at every later point of every run |
| `SignIns.SignedInUntilExpiry` | apps/auth-iam-service/src/auth/auth.service.ts:117-306 | the token of a sign-in refreshes before its expiry and not from then on |
| `SignIns.RevokeRefusals` | apps/auth-iam-service/src/auth/auth.service.ts:399-472 | which error `revoke` answers; an unknown token is accepted and changes nothing |
| `SignIns.RevokedCountIsChanged` | apps/auth-iam-service/src/auth/auth.service.ts:399-472 | the number reported is that of the tokens changed |
| `AuthSystem.Services.Handle` | apps/auth-iam-service/src/permissions/rbac.service.ts:56-469 | each call leaves the database in the state the runs step to |
| `AuthSystem.Services.HandleAll` | apps/auth-iam-service/src/permissions/rbac.service.ts:56-469 | any calls, one after the other, are a run ending in the database as it is, so the results over all runs hold of the objects |
| `AuthRuns.StepKeepsRbac` | apps/auth-iam-service/src/permissions/rbac.service.ts:56-469 | every call keeps the next row's invariant |
| `AuthRuns.SeedScriptIsValid` | apps/auth-iam-service/prisma/seed.ts:155-283 | the tables the seed script writes (administrator, tenant user and role, granted permissions, assignment) satisfy the invariant |
| `AuthRuns.RunKeepsRbac` | apps/auth-iam-service/src/permissions/rbac.service.ts:56-469 | in every state reachable from tables that satisfy it, as the seeded ones do, role codes are unique in their tenant and never system_admin, roles hold only well-formed catalogue codes outside `system.`, an assignment's user and role share a tenant, and system administrators are exactly the users without tenant |
| `AuthRuns.TokenCallsTouchTokensOnly` | apps/auth-iam-service/src/auth/auth.service.ts:117-472 | login, refresh and revoke change the token table only |
| `AuthReplay.StepIsRecorded` | apps/auth-iam-service/src/outbox/outbox-event.service.ts:24-56 | every call either leaves the tables behind the log as they are and records nothing, or records one event that fits the past and has exactly the tables' effect |
| `AuthReplay.LogReplaysToTables` | apps/auth-iam-service/src/permissions/rbac.service.ts:241-469 | after any run the log, folded over the seeded tables, gives every tenant user's tenant and status, every role's tenant and permissions, the catalogue and the whole assignment table |
| `RoleCodes.LogDeterminesRoleCodeIff` | apps/auth-iam-service/src/permissions/rbac.service.ts:213-239 | after any run the log determines a role's code if and only if the seed or an event names the code (creation, assignment, removal) and no later update of the role writes one; it is then the last code named |
| `RoleCodes.RewrittenOtherwise` | apps/auth-iam-service/src/permissions/rbac.service.ts:213-239 | in any state an update writing a code could write another unused one and leave the same log |
| `RoleCodes.TwinRun` | apps/auth-iam-service/src/permissions/rbac.service.ts:213-239 | so every run after which the code is not named has a twin with the same log and another code |
| `TokenChains.StepKeepsTokens` | apps/auth-iam-service/src/auth/auth.service.ts:244-306 | every call keeps the next row's invariant, and revoked tokens as they are |
| `TokenChains.RunKeepsTokens` | apps/auth-iam-service/src/auth/auth.service.ts:244-306 | in every reachable state replacement links point ahead (so they are acyclic), are injective and keep user and tenant, a rotated token is revoked, an unrevoked token's user is active, and a token has its user's tenant |
| `TokenChains.RevokedTokensAreFrozen` | apps/auth-iam-service/src/auth/auth.service.ts:429-437 | `revokedAt` is write-once: over any run a revoked token never changes, others keep owner, secret and expiry |
| `TokenChains.RotatedIsRefusedForGood` | apps/auth-iam-service/src/auth/auth.service.ts:259-266 | a rotated token is refused at every later point of a run |
| `TokenChains.DeactivationIsFinal` | apps/auth-iam-service/src/users/users.service.ts:388-408 | after a user's deactivation no token issued before ever refreshes again, not even after reactivation |
| `TokenChains.RevokeIsExact` | apps/auth-iam-service/src/auth/auth.service.ts:399-472 | `revoke` revokes exactly the unrevoked tokens meant: the one shown, or the user's in the tenant named, if any |
| `TokenChains.RevocationIsFinal` | apps/auth-iam-service/src/auth/auth.service.ts:399-472 | a token shown to or covered by a successful `revoke` is refused at every later point of a run |
| `TokenChains.LoginMeaning` | apps/auth-iam-service/src/auth/auth.service.ts:117-242 | with a tenant exactly its active user with this email and password logs in; without one exactly the only eligible administrator with them, if active |
| `TokenChains.OneUnrevokedTokenPerLogin` | apps/auth-iam-service/src/auth/auth.service.ts:279-296 | tokens descend from the same login exactly if they end in the same token; at most one of them is unrevoked, and it is that last one; all have one user and tenant |
| `TokenChains.LoginsBeginChains` | apps/auth-iam-service/src/auth/auth.service.ts:143-150 | a new token begins a chain exactly if it was issued by a login |
| `AuthDecisions.CheckMeaning` | apps/auth-iam-service/src/permissions/rbac.service.ts:500-545 | for an active user of the tenant `check` says yes exactly to a code some assignment carries without warehouse or for the requested one written as the database writes it, and answers exactly for codes outside `system.` |
| `AuthDecisions.SummaryAgreesWithCheck` | apps/auth-iam-service/src/permissions/rbac.service.ts:471-545 | a code is in the summary if and only if some scope makes `check` say yes |
| `AuthDecisions.SummaryCodesAreAllowed` | apps/auth-iam-service/src/permissions/rbac-utils.ts:58-67 | a code of the summary, passed back to `check` as it is, is allowed for some scope |
| `AuthDecisions.UnscopedMeansEveryWarehouse` | apps/auth-iam-service/src/permissions/rbac.service.ts:518-533 | `check` without scope says yes if and only if it does for every warehouse, however written |
| `AuthDecisions.MeAgreesWithSummaryIff` | apps/auth-iam-service/src/auth/auth.service.ts:341-350 | `me`, which does not filter by tenant, equals `summary` for a tenant's user if and only if the tenant id is written in lower case or the user is not active; else it throws TENANT_MISMATCH |
| `AuthDecisions.OtherSpellingIsNoWarehouse` | apps/auth-iam-service/src/permissions/rbac.service.ts:524-532 | a warehouse id not written in lower case counts as none |
| `AuthDecisions.SpellingDecidesIff` | apps/auth-iam-service/src/permissions/rbac.service.ts:524-532 | where only a grant for one warehouse allows a code, `check` allows it for that warehouse if and only if the id is written in lower case |
| `AuthDecisions.OwnCodeIsFreeIff` | apps/auth-iam-service/src/permissions/rbac.service.ts:184-205 | a role can be updated with the code it has if and only if its id is written in lower case; else that is a conflict |
| `AuthDecisions.TokenTenantIsAcceptedIff` | apps/auth-iam-service/src/auth/auth.service.ts:268-420 | a usable token is rotated, and a token shown revoked, for a request naming its tenant if and only if the tenant id is written in lower case |
| `AuthDecisions.AssignmentIsAllowedIff` | apps/auth-iam-service/src/permissions/rbac.service.ts:319-397 | an assignment is made if and only if user and role are the tenant's, it is new and, for tenant_admin, the actor is an active system administrator and no warehouse is named |
| `AuthDecisions.SameViewSameDecisions` | apps/auth-iam-service/src/permissions/rbac.service.ts:574-617 | decisions depend on nothing but the tenant's own users, roles, grants and assignments |
| `AuthDecisions.ForeignStep` | apps/auth-iam-service/src/permissions/rbac.service.ts:56-469 | a call in another tenant's context leaves all of these as they are |
| `AuthDecisions.TenantsDoNotInterfere` | apps/auth-iam-service/src/permissions/rbac.service.ts:319-397 | over any sequence of calls outside a tenant every `check` and `summary` in it stays the same, for all users there were and all others not made system administrators since |
| `AuthDecisions.NewAdministratorsDecideAnew` | apps/auth-iam-service/src/permissions/rbac.service.ts:500-516 | who was made one since is allowed what was not allowed before |
| `RateLimit.RedisRateLimitService.Consume` | apps/gateway-service/src/rate-limit/redis-rate-limit.service.ts:41-60 | count, remaining, time to live and verdict of one request, whichever Redis call fails; other keys are untouched |
| `RateLimit.WindowIsExact` | apps/gateway-service/src/rate-limit/redis-rate-limit.service.ts:41-60 | without failures the n-th request of a window has count n and remaining max(limit - n, 0), and n requests admit min(n, limit) |
| `RateLimit.OneWindow` | apps/gateway-service/src/rate-limit/redis-rate-limit.service.ts:41-60 | with any failures one window admits at most the limit |
| `RateLimit.AnyIntervalAdmitsTwiceTheLimit` | apps/gateway-service/src/rate-limit/redis-rate-limit.service.ts:41-60 | with any failures every closed time interval as long as the window admits at most twice the limit |
| `RateLimitSteps.AnyIntervalPassesTwiceTheLimit` | apps/gateway-service/src/rate-limit/redis-rate-limit.service.ts:41-60 | the same bound when INCR and EXPIRE of concurrent requests interleave in any way and an EXPIRE comes late or never |
| `RateLimitSteps.ConsumeIsItsCommands` | apps/gateway-service/src/rate-limit/redis-rate-limit.service.ts:41-60 | one request alone leaves the key its commands leave |
| `RateLimit.ExpiryIsLostIff` | apps/gateway-service/src/rate-limit/redis-rate-limit.service.ts:43-47 | throughout a window the key is without expiry exactly if the request that opened it got past INCR and its EXPIRE was not executed |
| `RateLimit.LostExpiryBlocksForGood` | apps/gateway-service/src/rate-limit/redis-rate-limit.service.ts:43-47 | from then on the whole rest of the trace admits at most the limit |
| `RateLimit.NoWindowNoLimit` | apps/gateway-service/src/rate-limit/redis-rate-limit.service.ts:43-47 | a window that is not positive limits nothing |
| `RateLimit.AnswersTellTheWindowsEnd` | apps/gateway-service/src/rate-limit/redis-rate-limit.service.ts:40-60 | every answered request of a window is told its end: the time to live within half a second, `resetAt` less than 1.5 seconds early and at most 0.5 late; without an expiry it is now |
| `RateLimit.RouteGroup` | apps/gateway-service/src/rate-limit/rate-limit.guard.ts:84-94 | limited are exactly the paths that are or lie below /api/auth and /api/admin, each under its group |
| `RateLimit.KeysSeparateCallers` | apps/gateway-service/src/rate-limit/rate-limit.guard.ts:96-116 | two callers share a counter exactly if group and identity (or, without identity, address) are the same, or a tenant header mimics an anonymous key |
| `RateLimit.UuidTenantsAreSeparate` | apps/gateway-service/src/rate-limit/rate-limit.guard.ts:96-116 | which a UUID never does |

## Left out

- Several outbox sources inside one protocol instance: the state machine has one table, and what other sources and the BFFs publish appears as foreign messages. `RelayRun` and `SourceFailures` do treat a list of sources.
- Order within a claimed batch: UPDATE .. RETURNING promises none, so any order is allowed and nothing is claimed about it.
- A timed-out statement that takes effect only after its worker has moved on; a statement that throws has either been executed by then or never is.
- The SQS retention period of 14 days, FIFO queues, the EventBridge and mock publishers, visibility timeouts (a message may be received again at any time).
- Statistics, health checks, logging, timers, `pollLoop`'s sleep and `getStats`.
- Fractional counts: `batchSize` is a natural number and retry settings are integers. JSON numbers are reals.
- JSON text and the key order and duplicate handling of `jsonb`: bodies are JSON values or unparsable.
- `toLowerCase` beyond what can produce an ASCII letter, and other Unicode case rules.
- `handleSqsEvent` on several records: the worker always passes one.
- Audit log search, pagination and response mapping.
- Validation of request bodies other than permission codes, and the text of error details; ids in the tenant and account modules are already parsed; where an account service compares their text, the model keeps whether it is in lower case (`IdText`).
- The sorted order of module codes and of permission lists: the model keeps sets, and events of one replacement come in any order.
- Tenant domains beyond their uniqueness check at creation, tenant settings, and the replay of tenant names.
- User names, emails and passwords and role names and descriptions in the replay: no event carries them.
- Domain normalisation (`URL`, `domainToASCII`), part of the abstract inputs of code generation.
- JWT signing and verification, scrypt, SHA-256 and random token generation.
- Reading lists of roles, users and permissions; `lastLoginAt`.
- Events of system administrators: their creation and self-update record none, so the replay covers tenant users only.
- Access tokens, which stay valid until they expire.
- The web applications, BFF controllers, the proxy's retry loop and the CDK stacks, beside the one number cited above.
- Rate limiting outside the auth and admin route groups, which the guard does not do; its response headers.
- AuthServices.AuthService.Login: requires the unique index on (tenant_id, email), which the database enforces.
- ConsumerRun.AuditWorker.PollOnce: the number of messages a response holds is not bounded by ten.
