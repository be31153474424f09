# Verified model of the Gateway's durable state

This project models four stateful parts of the Gateway in Dafny 4.11 and proves what they keep
over every run.

**The Gateway → Core outbox.** Inbound events are stored before they are sent to Core. A store
deduplicates on enqueue, hands out due deliveries under a lease, takes reports back (delivered,
failed, retry with exponential backoff, dead letter), lets an operator replay, and purges
confirmed deliveries past retention. The store exists twice: a JSON list under a lock, and a
Postgres table with unique constraints and SQL null semantics.

- `Deliveries` is the record and what each operation writes into it; `ScopeKey` is the text kept
  in the UNIQUE column. `DeliveryLaws` says what each operation of both stores does on the fields
  of records and events, with every status and number written out, and `Retention` how long a
  confirmed delivery is remembered.
- `Protocol` is the outbox as a state machine: a clock, a map of deliveries, and workers holding
  jobs. Each locked section or transaction is one step, and `retry_or_dead_letter` is two (its
  read and its write). Runs interleave enqueues, claims, reports, replays, purges and crashes
  freely. Deduplication, field coherence, no loss and claim exclusion hold in every run. Finality
  of `delivered` holds when workers report before their own lease lapses, or when one worker
  reports before it claims again (`SoloWorker`); `ProtocolLimits` has the
  exact step that breaks it otherwise and runs showing that each hypothesis is needed.
- `SoloWorker` (attempt budget, backoff timeline), `BoundedWaiting` (a due delivery is claimed
  within `r / batch + 1` claims), `Dispatcher` (one tick over the list store) and `Settlement` (one
  report each, and an end, for both stores) treat one worker that does not crash; `Ticks` shows that
  a tick, over either store, is a stretch of such a worker's run.
- `JsonOutbox` and `PgOutbox` hold the two stores as classes, method by method, each proved against
  functions on its state. `JsonRuns` and `PgOutbox` show that every run of either store, read as a
  map, is a run of the protocol, so the protocol's theorems hold for both. `ClaimChoice` says
  what a claim may take and when it has no choice, `StoreAgreement` exactly when the two stores
  answer alike, and `StoreRuns` follows them side by side over whole runs.

**The ownership registry and the setup lifecycle.** `Registry` holds the locked sections over
clients, connections, setups and deleted names; `ConnectionSetups` the service that moves a setup
from draft to an operational connection (lazy expiry, retry after failure, cancellation, atomic
promotion); `SetupCleanup` the compensation of setups that ended with resources outside.
`SetupLaws` says, command by command, when each answer is given and what it leaves in the store,
and `RegistryLaws` does so for the locked sections and for deletions over whole runs. Every
stored write of a setup is also appended to a history, and `SetupRuns` and `SetupProtocol` prove
over all interleavings what those histories can contain; `SetupHistory` that they are complete. `provision_evolution` awaits twice and
carries its record across the awaits, so it is three steps; a cleanup attempt is two, and may be
abandoned in between.

**The alert store.** `Alerts` reconciles stored alerts with freshly computed candidates;
`AlertRuns` gives manual resolution and dismissal their meaning over whole runs; `AlertCandidates`
builds the candidates and shows that a report over distinct connection ids names each fingerprint
once; `AlertLaws` and `CandidateLaws` say the same field by field and code by code.

**The participant phone directory.** `Participants` proves the one-pass loops against an
order-free specification: a phone is kept exactly where somebody gives it and nobody gives another.

## How to read it

A class method states its whole new state through a function (`deliveries == Enqueued(old(...))`);
lemmas then say what those functions mean, the `...Laws` modules on fields alone. Time is an integer, one clock reading per operation,
never going back during a run. Fresh identifiers (UUIDs) are parameters that a run requires to be
unused. Where Python walks a dictionary, the walking order is the parameter `order`. What a
database, a provider or Core answers is a parameter too: an SQL query's contract binds which rows
`LIMIT` may return and which rows `SKIP LOCKED` may skip, and a delivery attempt meets a refusal,
no answer, a status code, or an exception nobody handles. `Filed` (setups are stored under their own id) is what
`save_setup_record_for_client` establishes and every write keeps.

Where the code does not do what it says, the code is modelled and the exact boundary is proved:

- The Postgres store announces the same contract as the JSON store. Enqueue differs in one family
  of inputs: the list looks for duplicates before it purges, the table after, so an event that
  matches expired deliveries only is refused by one and stored again by the other
  (`EnqueuesAgreeExactly`). Claims agree exactly when the list takes no delivery whose row is
  locked and, among the rows that are not, no tie on (nextAttemptAt, createdAt) straddles the batch
  (`ClaimsAgreeExactly`). Reports agree exactly on records that both hold alike, or neither
  (`ReportsAgreeExactly`): one store may have purged a delivered record past retention that the
  other still holds. Outside these cases the stores stay in agreement over whole runs
  (`StoresAgreeOverRuns`).
- `_update` checks neither status nor lease: a late report takes a delivered record back
  (`DeliveredIsUndoneExactly`, `DeliveredStaysExactly`; `LateReportUndoesDelivery` is a run).
- Claiming an abandoned lease again is not capped by the attempt budget, and retry_or_dead_letter
  decides on a count it read earlier. The budget breaks exactly on a claim of a held delivery that
  is on its last attempt, after a crash or just a slow worker, or on a retry written from a stale
  count (`BudgetBreaksExactly`, `BudgetHoldsExactly`; `CrashExceedsBudget` and
  `StaleRetryExceedsBudget` are runs).
- "Never promoted after cancellation" holds for Meta and Instagram setups. An Evolution setup that
  was cancelled or expired becomes ready again in exactly one way: provision_evolution resumes from
  its last await with a copy that read provisioning (`EvolutionRevivedExactly`,
  `EvolutionStaysEndedExactly`; `CancelledBecomesReady` is a run).
- The table has no edge out of `ready`. A cleanup attempt or a failed await that started before takes
  a ready Evolution setup back all the same (`ReadyTakenBackExactly`).
- The cap of one hour in the cleanup backoff never binds: the exponent stops at 6, that is at 1920
  seconds (`RetryDelayIsUncapped`).

Verify everything with `dafny verify dfyconfig.toml`.

## Model

| member | source | states |
|---|---|---|
| ScopeKey.KeysReadBack | gateway/app/services/core_inbound_pg_store.py:77-79 | a JSON reader that follows section 7 of RFC 8259 gets the scope back from its key, member by member, in UTF-16 units |
| ScopeKey.KeysAgreeExactly | gateway/app/services/core_inbound_pg_store.py:77-79 | two scopes of any lengths print the same JSON text exactly when they have the same UTF-16 units, member by member |
| ScopeKey.KeysAreInjective | gateway/app/services/core_inbound_pg_store.py:77-79 | for texts in which no high surrogate stands before a low one, equal keys are equal scopes |
| ScopeKey.PairedTextsCollide | gateway/app/services/core_inbound_pg_store.py:77-79 | the condition is needed: two different scopes with one key |
| ScopeKey.KeyEquality | gateway/app/services/core_inbound_dispatcher.py:75-90 | over Unicode scalar texts the UNIQUE column compares scope tuples, four-field and nine-field alike |
| Deliveries.WritesKeepCoherence | gateway/app/services/core_inbound_dispatcher.py:155-231 | claim, report and replay keep the field/status coherence of a record and never touch its identity or event |
| DeliveryLaws.IdentityByFields | gateway/app/services/core_inbound_dispatcher.py:75-90 | which stored delivery stands for an event: equal event ids, or provider, channel, account and message id all given and equal, and for two group events connection, binding, chat, event type and fromMe too; a group event never matches another by its message |
| DeliveryLaws.ListEnqueueExactly | gateway/app/services/core_inbound_dispatcher.py:92-143 | an identified event is stored exactly when no record stands for it, as a record with these fields, beside the records not delivered longer ago than the retention in milliseconds; otherwise the list is as it was |
| DeliveryLaws.BlockedExactly | gateway/app/services/core_inbound_pg_store.py:77-92 | the insert conflicts exactly with a row of the same id, the same event id, or the same message on the event's fields |
| DeliveryLaws.TableEnqueueExactly | gateway/app/services/core_inbound_pg_store.py:102-137 | the rows afterwards are those within retention, and the event exactly when none of them stands for it |
| DeliveryLaws.NewMessageIsStored | gateway/app/services/core_inbound_dispatcher.py:119-130 | in both stores an identified event with an event id and a provider message id of its own is created and stored |
| DeliveryLaws.ListClaimChooses | gateway/app/services/core_inbound_dispatcher.py:187-195 | the claim takes at most max(1, limit) deliveries, waiting and due or held past their lease, and none left out goes before one taken by due time, then creation, then place |
| DeliveryLaws.ListClaimWrites | gateway/app/services/core_inbound_dispatcher.py:196-204 | what it writes on each, lease end in milliseconds included, what it hands out, and that it touches nothing else |
| DeliveryLaws.TableClaimChooses | gateway/app/services/core_inbound_pg_store.py:175-180 | the same choice of rows, for whatever the query answers among those not locked |
| DeliveryLaws.TableClaimWrites | gateway/app/services/core_inbound_pg_store.py:181-188 | the same writes on the rows |
| DeliveryLaws.ListUpdateExactly | gateway/app/services/core_inbound_dispatcher.py:208-244 | each report, field by field, on the first record with the id and on no other |
| DeliveryLaws.TableUpdateExactly | gateway/app/services/core_inbound_pg_store.py:191-200 | the same on the row with the id |
| DeliveryLaws.RetryExactly | gateway/app/services/core_inbound_dispatcher.py:219-228 | the last attempt gives up; before it the delay is the base after the first attempt and doubles with each one more |
| DeliveryLaws.ListReplayExactly | gateway/app/services/core_inbound_dispatcher.py:145-159 | under the very connection, channel and binding of a canonical-v2 record: failed, dead-lettered or retrying becomes pending, due now, untried and without error, any other status stays; under any other binding nothing changes |
| DeliveryLaws.TableReplayExactly | gateway/app/services/core_inbound_pg_store.py:139-151 | the same on the row |
| Protocol.RecordAfter | gateway/app/services/core_inbound_dispatcher.py:145-244 | exactly what a step leaves of a record that was there before: claimed, reported on, replayed, or untouched |
| Protocol.StepKeepsDistinct | gateway/app/services/core_inbound_dispatcher.py:119-130 | no step creates a second record with an event id or provider scope already present |
| Protocol.StepKeepsInv | gateway/app/services/core_inbound_dispatcher.py:92-244 | deduplication, coherence and job bookkeeping are inductive over every step |
| Protocol.Reachable | gateway/app/services/core_inbound_dispatcher.py:92-244 | they hold in every store of every interleaving, crashes and late reports included |
| Protocol.NoLoss | gateway/app/services/core_inbound_dispatcher.py:128-143 | an event whose enqueue returned created stays, unchanged, until a purge that finds it delivered and past retention |
| Retention.DroppedIsOld | gateway/app/services/core_inbound_dispatcher.py:137-143 | no step drops a record but an enqueue, and it drops only one delivered longer ago than the retention |
| Retention.KeptForRetention | gateway/app/services/core_inbound_dispatcher.py:137-143 | over runs, a record acknowledged at one clock and dropped at another: more than max(1, days, or 7 when zero) * 86_400_000 milliseconds lie between |
| Retention.RedeliveryIsRecognised | gateway/app/services/core_inbound_dispatcher.py:119-143 | over runs, an acknowledged event that the provider sends again within the retention is not created a second time |
| Protocol.StepKeepsLease | gateway/app/services/core_inbound_dispatcher.py:191-203 | without a report a lease end never moves back |
| Protocol.ClaimExclusion | gateway/app/services/core_inbound_dispatcher.py:182-206 | two claims of one delivery with no report between them are at least the first lease apart |
| Protocol.StepKeepsExclusive | gateway/app/services/core_inbound_dispatcher.py:182-244 | when reports are timely, each unlapsed job stays the one holder of a delivery being delivered |
| Protocol.OneHolder | gateway/app/services/core_inbound_dispatcher.py:182-244 | in every timely run at most one worker holds a delivery at any time |
| Protocol.DeliveredIsFinal | gateway/app/services/core_inbound_dispatcher.py:208-244 | in every timely run a delivered record never changes again and, once purged, never comes back |
| ProtocolLimits.DeliveredIsUndoneExactly | gateway/app/services/core_inbound_dispatcher.py:233-244 | a step takes a delivered record back if and only if it is a report other than an acknowledgement, which no timely worker sends |
| ProtocolLimits.DeliveredStaysExactly | gateway/app/services/core_inbound_dispatcher.py:208-244 | over any run, a delivered record stays delivered until it is purged for good exactly while no step writes a report other than an acknowledgement on it |
| ProtocolLimits.ClaimedTwice | gateway/app/services/core_inbound_dispatcher.py:192-203 | a reachable state in which two workers hold one delivery, the first with a lapsed lease |
| ProtocolLimits.LateReportUndoesDelivery | gateway/app/services/core_inbound_dispatcher.py:230-244 | a run in which a late report fails a delivered record |
| ProtocolLimits.BudgetBreaksExactly | gateway/app/services/core_inbound_dispatcher.py:182-228 | a step takes a delivery over its attempt budget if and only if it claims a held delivery whose attempts are used up, or writes a retry decided on a count that is no longer the stored one |
| ProtocolLimits.BudgetHoldsExactly | gateway/app/services/core_inbound_dispatcher.py:182-228 | over any run, crashes and late reports included, the budget has held exactly when no step did either |
| ProtocolLimits.TimelyBudgetExactly | gateway/app/services/core_inbound_dispatcher.py:182-228 | when workers report before their lease lapses, claiming an abandoned last attempt again is the only way left |
| ProtocolLimits.CrashExceedsBudget | gateway/app/services/core_inbound_dispatcher.py:192-203 | a run in which a crash leads to a second attempt under a budget of one |
| ProtocolLimits.StaleRetryExceedsBudget | gateway/app/services/core_inbound_dispatcher.py:215-228 | a run without a crash in which a retry decided on an old count leaves a delivery waiting with its budget used up |
| SoloWorker.StepKeepsMatched | gateway/app/services/core_inbound_dispatcher.py:341-349 | with one crash-free worker the jobs in hand are exactly the records being delivered |
| SoloWorker.SoloReachable | gateway/app/services/core_inbound_dispatcher.py:182-231 | matching and attempt budget hold throughout a crash-free single-worker run |
| SoloWorker.SoloDeliveredIsFinal | gateway/app/services/core_inbound_dispatcher.py:341-349 | with one crash-free worker a delivered record never changes again, even if a tick outlasts its leases |
| SoloWorker.AttemptBudget | gateway/app/services/core_inbound_dispatcher.py:215-228 | waiting deliveries have attempts left; retry_or_dead_letter gives up at exactly attempt max_attempts |
| SoloWorker.StepStaysOnTimeline | gateway/app/services/core_inbound_dispatcher.py:224-228 | every step keeps a delivery no earlier than its backoff timeline |
| SoloWorker.BackoffTimeline | gateway/app/services/core_inbound_dispatcher.py:182-228 | counting a delivery's claims in the run since the first after enqueue or replay, the k-th comes at least base * (2^(k-1) - 1) seconds after that first one, and the stored counter is that count |
| JsonOutbox.FirstMatch | gateway/app/services/core_inbound_dispatcher.py:122-127 | the first stored record with the event's id or scope, if any |
| JsonOutbox.Survivors | gateway/app/services/core_inbound_dispatcher.py:137-143 | the purge keeps exactly the unexpired records, in their order |
| JsonOutbox.TakenIsLeast | gateway/app/services/core_inbound_dispatcher.py:187-203 | claim_due takes eligible records only, at most max(1, limit), and leaves out none that comes before one taken unless the batch is full |
| JsonOutbox.LeastChoiceUnique | gateway/app/services/core_inbound_dispatcher.py:187-203 | there is only one such choice |
| JsonOutbox.CoreInboundDeliveryStore.Enqueue | gateway/app/services/core_inbound_dispatcher.py:92-135 | the list afterwards, the created flag, the error, and which record answers a duplicate |
| JsonOutbox.CoreInboundDeliveryStore.ClaimDue | gateway/app/services/core_inbound_dispatcher.py:182-206 | the sorted loop writes exactly the records `Taken` describes and hands them out in claim order |
| JsonOutbox.CoreInboundDeliveryStore.Get | gateway/app/services/core_inbound_dispatcher.py:161-164 | the first record with this id |
| JsonOutbox.CoreInboundDeliveryStore.Update | gateway/app/services/core_inbound_dispatcher.py:233-244 | one record rewritten in place whatever its status, or KeyError and nothing changed |
| JsonOutbox.CoreInboundDeliveryStore.RetryOrDeadLetter | gateway/app/services/core_inbound_dispatcher.py:215-228 | read then write with nothing between: retry or dead letter by the stored attempt count |
| JsonOutbox.CoreInboundDeliveryStore.ReplayGroup | gateway/app/services/core_inbound_dispatcher.py:145-159 | requeues only failed, dead-lettered or retrying records of the very binding; every mismatch is refused |
| JsonRuns.PurgeFollows | gateway/app/services/core_inbound_dispatcher.py:137-143 | purging the list is removing exactly the expired ids from its contents |
| JsonRuns.ClaimFollows | gateway/app/services/core_inbound_dispatcher.py:182-206 | the list's claim is a claim the protocol allows, with the same effect on the contents |
| JsonRuns.EnqueueFollows | gateway/app/services/core_inbound_dispatcher.py:92-135 | the list's enqueue is an enqueue the protocol allows, with the same effect |
| JsonRuns.OperationFollows | gateway/app/services/core_inbound_dispatcher.py:92-244 | every list operation is a protocol step on the contents |
| JsonRuns.ListRunsFollow | gateway/app/services/core_inbound_dispatcher.py:92-244 | every run of the JSON store is a run of the protocol, with ids unique throughout |
| JsonRuns.ListIsSound | gateway/app/services/core_inbound_dispatcher.py:92-244 | every reachable list holds coherent records, no two of one event id or one scope |
| BoundedWaiting.EnqueueOvertakesNobody | gateway/app/services/core_inbound_dispatcher.py:119-130 | a new event, purge included, puts nothing ahead of a due delivery |
| BoundedWaiting.ReportOvertakesNobody | gateway/app/services/core_inbound_dispatcher.py:215-244 | no report, retry with at least a second's backoff included, puts anything ahead of it |
| BoundedWaiting.ClaimEatsAhead | gateway/app/services/core_inbound_dispatcher.py:187-203 | a batch that leaves a due delivery behind takes a full batch from ahead of it |
| BoundedWaiting.QueueShrinks | gateway/app/services/core_inbound_dispatcher.py:182-228 | over any window in which it is not claimed, the queue ahead shrinks by a batch per claim |
| BoundedWaiting.ClaimedWithinBound | gateway/app/services/core_inbound_dispatcher.py:182-228 | with r deliveries ahead of it, a due delivery is claimed within r / batch + 1 claims |
| PgOutbox.PostgresCoreInboundDeliveryStore.Insert | gateway/app/services/core_inbound_pg_store.py:86-92 | ON CONFLICT DO NOTHING: the row is added exactly when no unique column stands in the way |
| PgOutbox.PostgresCoreInboundDeliveryStore.Enqueue | gateway/app/services/core_inbound_pg_store.py:102-137 | purge, then insert, else the document the lookup returned, else an unresolved conflict |
| PgOutbox.PostgresCoreInboundDeliveryStore.ClaimDue | gateway/app/services/core_inbound_pg_store.py:171-189 | for any answer the query may give, the selected rows and no others are claimed, and returned in that order |
| PgOutbox.PostgresCoreInboundDeliveryStore.Update | gateway/app/services/core_inbound_pg_store.py:191-200 | one row rewritten whatever its status, or KeyError and nothing changed |
| PgOutbox.PostgresCoreInboundDeliveryStore.ReplayGroup | gateway/app/services/core_inbound_pg_store.py:139-151 | the same replay as the list's, on the row |
| PgOutbox.SavingKeepsRow | gateway/app/services/core_inbound_pg_store.py:94-100 | UPDATE rewrites only some columns, yet columns stay the projection of the document |
| PgOutbox.NullsAgree | gateway/app/services/core_inbound_pg_store.py:121-124 | on coherent records SQL's unknown comparisons and the list's zero defaults select the same deliveries to claim and to purge |
| PgOutbox.ConflictsAreMatches | gateway/app/services/core_inbound_pg_store.py:77-92 | a unique conflict on event id or scope key is a match on event id or scope |
| PgOutbox.EnqueueFollows | gateway/app/services/core_inbound_pg_store.py:118-137 | the transaction creates exactly when no unexpired record matches, as the protocol allows |
| PgOutbox.OperationFollows | gateway/app/services/core_inbound_pg_store.py:102-200 | every transaction is a protocol step on the documents and keeps columns equal to documents |
| PgOutbox.TableRunsFollow | gateway/app/services/core_inbound_pg_store.py:102-200 | every run of the table is a run of the protocol, columns equal to documents throughout |
| ClaimChoice.ChoiceIsUniqueExactly | gateway/app/services/core_inbound_dispatcher.py:187-203 | a claim could not have taken other deliveries exactly when no key has fewer than the limit below it and more than the limit up to it |
| ClaimChoice.TakenAreBelow | gateway/app/services/core_inbound_dispatcher.py:187-203 | then the deliveries taken are exactly those with fewer than the limit below them |
| ClaimChoice.SomeChoice | gateway/app/services/core_inbound_dispatcher.py:187-203 | there is always something a claim may take |
| StoreAgreement.ListTakesAChoice | gateway/app/services/core_inbound_dispatcher.py:187-203 | the list's claim is such a choice |
| StoreAgreement.AnswerIsAChoice | gateway/app/services/core_inbound_pg_store.py:175-180 | every answer of the query is a choice among the rows not locked |
| StoreAgreement.ChoiceIsAnAnswer | gateway/app/services/core_inbound_pg_store.py:175-180 | every such choice is one of the query's answers |
| StoreAgreement.ListClaimIsAnAnswer | gateway/app/services/core_inbound_pg_store.py:175-180 | with nothing locked the list's claim is one of the query's possible answers |
| StoreAgreement.ClaimsAgreeExactly | gateway/app/services/core_inbound_pg_store.py:171-189 | whatever rows are locked and whatever the database returns, both stores claim the same deliveries, exactly when the list takes no locked one and no tie straddles the cut |
| StoreAgreement.ClaimsAgreeByKeys | gateway/app/services/core_inbound_pg_store.py:171-189 | on keys alone: where nothing ties, the stores claim the same deliveries exactly when no locked one has fewer than the limit below it |
| StoreAgreement.OtherwiseClaimed | gateway/app/services/core_inbound_pg_store.py:175-180 | otherwise there is an answer that claims other deliveries |
| StoreAgreement.ClaimsWriteAlike | gateway/app/services/core_inbound_pg_store.py:181-188 | claiming the same deliveries writes the same documents and columns and leaves the stores in agreement |
| StoreAgreement.StepSeesLiveOnly | gateway/app/services/core_inbound_dispatcher.py:137-143 | what a step leaves alive depends on what was alive only, not on which expired records were purged |
| StoreAgreement.CreatedFlagsAgreeExactly | gateway/app/services/core_inbound_pg_store.py:118-137 | the created flags agree exactly unless the event matches expired deliveries only |
| StoreAgreement.EnqueuesAgreeExactly | gateway/app/services/core_inbound_pg_store.py:118-137 | from contents equal but for expired deliveries the stores end so again, exactly unless the event matches expired deliveries only |
| StoreAgreement.ReportsAgreeExactly | gateway/app/services/core_inbound_pg_store.py:191-200 | a report keeps the stores in agreement exactly when both hold the record, alike, or neither does |
| StoreAgreement.SameDuplicate | gateway/app/services/core_inbound_pg_store.py:127-137 | when one live record matches, both stores answer with that record |
| StoreRuns.StoresStayInStep | gateway/app/services/core_inbound_pg_store.py:102-200 | one harmless step of the same call on both stores keeps time, jobs and live contents equal |
| StoreRuns.StoresAgreeOverRuns | gateway/app/services/core_inbound_pg_store.py:102-200 | fed the same calls, the stores stay in agreement as long as no event matches expired records only, no claim ties or skips a locked row, and reports are on records both hold alike |
| StoreRuns.LiveTargetsAreAlike | gateway/app/services/core_inbound_dispatcher.py:233-244 | a live record is held alike by stores in agreement |
| StoreRuns.TimelyWorkersTargetLive | gateway/app/services/core_inbound_dispatcher.py:233-244 | workers that report before their lease lapses report on live records |
| StoreRuns.SoloWorkersTargetLive | gateway/app/services/core_inbound_dispatcher.py:233-244 | so does a single worker that does not crash |
| Dispatcher.CoreInboundDispatcher.Deliver | gateway/app/services/core_inbound_dispatcher.py:351-443 | one attempt writes the one report its outcome calls for, or lets an unhandled exception through and writes nothing |
| Dispatcher.CoreInboundDispatcher.DispatchDue | gateway/app/services/core_inbound_dispatcher.py:341-349 | a tick claims a batch, delivers it in order and counts it; an exception that escapes leaves the rest of the batch held |
| Dispatcher.OutcomeExactly | gateway/app/services/core_inbound_dispatcher.py:378-443 | in a tick: 2xx and 409 deliver; no channel, a refusal, 400, 401, 403, 404, 405, 410 and 422 fail; any other answer or none retries after base * 2^(attempts - 1) seconds, or dead-letters when the budget is used; with the error text of each |
| Dispatcher.DeliverExactly | gateway/app/services/core_inbound_dispatcher.py:351-443 | the same of one delivery on its own, where the attempts counted are the stored ones |
| Dispatcher.DecimalReads | gateway/app/services/core_inbound_dispatcher.py:424 | the code in an error text reads as the code answered |
| Dispatcher.OneReportEach | gateway/app/services/core_inbound_dispatcher.py:341-443 | claimed deliveries get exactly one report each, in order, up to the first escaping exception; the rest stays held and nothing else changes |
| Dispatcher.QuietBetween | gateway/app/services/core_inbound_dispatcher.py:341-349 | between the batches of a crash-free single worker nothing is being delivered and waiting deliveries have attempts left, in every store a run reaches |
| Dispatcher.TickMakesProgress | gateway/app/services/core_inbound_dispatcher.py:341-443 | a non-empty tick that runs to its end strictly lowers the sum of attempts left, an empty one changes nothing |
| Dispatcher.BusyTicksBounded | gateway/app/services/core_inbound_dispatcher.py:341-443 | whatever Core answers, non-empty ticks plus attempts left never exceed the attempts at the start |
| Dispatcher.OutboxSettles | gateway/app/services/core_inbound_dispatcher.py:341-443 | the list dispatcher, with nothing new: after that many due ticks that run to their end every record is delivered, failed or dead-lettered |
| Settlement.ClaimUsesUp | gateway/app/services/core_inbound_dispatcher.py:182-206 | in either store a claim makes one attempt of each delivery it takes and adds none |
| Settlement.AttemptsBounded | gateway/app/services/core_inbound_dispatcher.py:341-443 | over any stretch of a crash-free single worker's run with nothing new, attempts made plus attempts left never exceed those left at its start |
| Settlement.RunSettles | gateway/app/services/core_inbound_dispatcher.py:341-443 | once as many claims at due times as there were attempts left are made and reported, every record is delivered, failed or dead-lettered |
| Settlement.ClaimedGetsOneReport | gateway/app/services/core_inbound_dispatcher.py:341-349 | every claimed delivery gets exactly one report before the worker's hands are empty again |
| Settlement.ListSettles | gateway/app/services/core_inbound_dispatcher.py:341-443 | settlement, for the runs of the JSON store |
| Settlement.TableSettles | gateway/app/services/core_inbound_pg_store.py:171-200 | settlement, for the runs of the Postgres store |
| Settlement.ListClaimsAreChoices | gateway/app/services/core_inbound_dispatcher.py:187-203 | the list's claims always take as much as they may |
| Settlement.TableClaimsAreChoices | gateway/app/services/core_inbound_pg_store.py:175-180 | so do the table's where no row is locked |
| Ticks.ListTicks | gateway/app/services/core_inbound_dispatcher.py:341-349 | the list dispatcher's tick, read as a map |
| Ticks.TableTicks | gateway/app/services/core_inbound_dispatcher.py:341-349 | the same dispatcher over the table store: the same effect on the documents, columns equal to them |
| Ticks.TickIsAStretch | gateway/app/services/core_inbound_dispatcher.py:341-443 | a tick that runs to its end is a claim and one report per delivery of a single worker's run, and leaves its hands empty |
| Ticks.ListTickIsAStretch | gateway/app/services/core_inbound_dispatcher.py:341-443 | so the list dispatcher's ticks are stretches of such runs |
| Ticks.TableTickIsAStretch | gateway/app/services/core_inbound_dispatcher.py:341-443 | and the table dispatcher's, whatever rows the database selects |
| RegistryLaws.SaveExactly | gateway/app/services/connection_registry.py:234-244 | a connection saved for a client that exists is filed under its name, which is no longer deleted; otherwise nothing is written |
| RegistryLaws.UpdateExactly | gateway/app/services/connection_registry.py:259-269 | the first connection with the id is rewritten under its old name, field by field |
| RegistryLaws.DeletionExactly | gateway/app/services/connection_registry.py:271-285 | the first connection with the id goes and its name is among the deleted ones; no other store entry changes |
| RegistryLaws.ClientSavedExactly | gateway/app/services/connection_registry.py:143-148 | a saved client is stored as given, also over an old one of its id, and no other is touched |
| RegistryLaws.ClientDeletionExactly | gateway/app/services/connection_registry.py:315-328 | a client is gone afterwards exactly when no connection names it; no other client is touched |
| RegistryLaws.StripExactly | gateway/app/services/connection_registry.py:348 | a name is what stands between the white space on both sides |
| RegistryLaws.ImportOneExactly | gateway/app/services/connection_registry.py:347-368 | one imported record: skipped when blank or deleted, adopted by the fallback client when orphaned, else registered with its own id, or its name when it has none, for the fallback client |
| RegistryLaws.ImportedIs | gateway/app/services/connection_registry.py:345-368 | after a whole import a new name holds the connection of the first record that has it |
| RegistryLaws.PutBackExactly | gateway/app/services/connection_registry.py:271-285 | a deleted, unregistered name stays so through a step exactly unless the step saves a connection or publishes a setup under it; no import does |
| RegistryLaws.DeletedStaysDeletedExactly | gateway/app/services/connection_registry.py:277-282 | over any run a name an operator deleted stays deleted and unregistered exactly as long as no such step comes |
| Registry.SavedClientOwns | gateway/app/services/connection_registry.py:143-148 | a saved client can own connections and cannot be deleted while it does; deleting a new one that owns nothing undoes the save |
| Registry.ConnectionRegistry.SaveSetupRecordForClient | gateway/app/services/connection_registry.py:175-186 | a setup is stored only for a client that exists |
| Registry.ConnectionRegistry.UpdateSetupRecord | gateway/app/services/connection_registry.py:188-197 | given fields change, others stay, and the write enters the history |
| Registry.ConnectionRegistry.PromoteSetupToConnection | gateway/app/services/connection_registry.py:199-212 | setup and connection are published in one write, the name leaves the deleted ones, or nothing happens |
| Registry.ConnectionRegistry.SaveConnectionRecordForClient | gateway/app/services/connection_registry.py:234-244 | a connection is stored only for a client that exists |
| Registry.ConnectionRegistry.UpdateConnectionRecord | gateway/app/services/connection_registry.py:259-269 | the first connection with this id is rewritten under its name: given fields change, others stay |
| Registry.ConnectionRegistry.DeleteConnectionRecord | gateway/app/services/connection_registry.py:271-285 | the first connection with this id goes and its name is remembered as deleted |
| Registry.ConnectionRegistry.DeleteClientIfUnconnected | gateway/app/services/connection_registry.py:315-328 | a client goes only when no connection names it; which of three outcomes |
| Registry.ConnectionRegistry.EnsureLegacyConnections | gateway/app/services/connection_registry.py:330-371 | the loop's counter is the number of distinct, non-blank, undeleted, unregistered names |
| Registry.ImportShape | gateway/app/services/connection_registry.py:345-368 | any prefix of an import adds exactly its new names and leaves owned connections, setups and deletions alone |
| Registry.ImportRegisters | gateway/app/services/connection_registry.py:345-368 | every usable name ends registered with a client that exists |
| Registry.ImportRespectsOperators | gateway/app/services/connection_registry.py:330-371 | an import never revives a deleted name and never moves a connection whose client exists |
| Registry.ImportIsIdempotent | gateway/app/services/connection_registry.py:330-371 | a second import of the same records counts nothing and changes nothing |
| ConnectionSetups.ConnectionSetupService.TransitionRecord | gateway/app/services/connection_setups.py:134-143 | nothing for the same state, refusal off the table, else the stored record is updated |
| ConnectionSetups.ConnectionSetupService.Expire | gateway/app/services/connection_setups.py:90-101 | an active setup past its time moves to expired, or to cleanup_pending when it has resources |
| ConnectionSetups.ConnectionSetupService.Create | gateway/app/services/connection_setups.py:103-126 | validation, the idempotency key's answer or conflict, or one new draft |
| ConnectionSetups.ConnectionSetupService.FindKeyed | gateway/app/services/connection_registry.py:168-173 | the first setup of this client under this key |
| ConnectionSetups.ConnectionSetupService.BeginMeta | gateway/app/services/connection_setups.py:148-152 | a draft starts onboarding, later states are answered as they are, a non-Meta setup is a conflict |
| ConnectionSetups.ConnectionSetupService.BeginMetaProvisioning | gateway/app/services/connection_setups.py:154-182 | retry from failed, claim from onboarding, resources recorded once an account is known |
| ConnectionSetups.ConnectionSetupService.CompleteMeta | gateway/app/services/connection_setups.py:208-218 | resources, then promotion, or idempotent answer, or conflict |
| ConnectionSetups.ConnectionSetupService.CompleteInstagram | gateway/app/services/connection_setups.py:220-234 | the same for an Instagram account |
| ConnectionSetups.ConnectionSetupService.MarkMetaFailed | gateway/app/services/connection_setups.py:236-240 | only an active setup fails |
| ConnectionSetups.ConnectionSetupService.Publish | gateway/app/services/connection_setups.py:242-251 | promotion only of a record that reads provisioning, under its runtime name, for its client |
| ConnectionSetups.ConnectionSetupService.Cancel | gateway/app/services/connection_setups.py:253-265 | which states are answered, refused, or moved, and to where |
| ConnectionSetups.ConnectionSetupService.StartEvolution | gateway/app/services/connection_setups.py:184-192 | provision_evolution up to its first await |
| ConnectionSetups.ConnectionSetupService.AfterCreation | gateway/app/services/connection_setups.py:193-200 | from its first await to its second, trusting the local copy's state |
| ConnectionSetups.ConnectionSetupService.AfterWebhook | gateway/app/services/connection_setups.py:201-206 | from its second await to the end, trusting the local copy's state |
| ConnectionSetups.ConnectionSetupService.ExpireActive | gateway/app/services/connection_setups.py:267-275 | the sweep expires every due setup once and counts exactly those |
| SetupCleanup.ConnectionSetupCleanupService.CleanResources | gateway/app/services/connection_setup_cleanup.py:46-53 | one outcome per resource; something remains exactly when some outcome is not a success |
| SetupCleanup.ConnectionSetupCleanupService.Clean | gateway/app/services/connection_setup_cleanup.py:36-59 | an attempt writes its patch on the record it read, or answers and writes nothing more |
| SetupCleanup.RetryDelayIsUncapped | gateway/app/services/connection_setup_cleanup.py:56 | the backoff doubles from 30 seconds and stops at 1920: the hour's cap never binds |
| SetupCleanup.CleanupCompletesExactly | gateway/app/services/connection_setup_cleanup.py:54-74 | resources are dropped exactly when every one was an owned instance now gone; otherwise they stay and the setup waits |
| SetupLaws.ExpiryExactly | gateway/app/services/connection_setups.py:90-101 | a setup in progress whose deadline has come becomes expired, or cleanup_pending with cleanup required and final state expired when it has resources; any other stays |
| SetupLaws.RawExactly | gateway/app/services/connection_setups.py:84-88 | a look answers the stored setup as its due expiry leaves it; this and the next ones are for a stored setup, and `NoSetupNoCommand` for a missing one |
| SetupLaws.NoSetupNoCommand | gateway/app/services/connection_setups.py:84-88 | without a stored setup every command answers not found and writes nothing |
| SetupLaws.BeginMetaExactly | gateway/app/services/connection_setups.py:148-152 | a conflict exactly for another provider; a draft goes to onboarding, any other state stays |
| SetupLaws.BeginMetaProvisioningExactly | gateway/app/services/connection_setups.py:154-182 | allowed exactly for a Meta setup that failed, is onboarding or provisioning; which state, diagnostic and resources it ends with |
| SetupLaws.MarkMetaFailedExactly | gateway/app/services/connection_setups.py:236-240 | always answered; a setup in progress fails with its diagnostic, any other stays |
| SetupLaws.CancelExactly | gateway/app/services/connection_setups.py:253-265 | refused exactly when ready, a conflict exactly for Meta in provisioning; otherwise a setup in progress ends cancelled without resources, else cleanup_pending with cleanup required and final state cancelled |
| SetupLaws.BeginEvolutionExactly | gateway/app/services/connection_setups.py:184-192 | allowed exactly for an Evolution setup in draft, provisioning or ready; a draft starts provisioning |
| SetupLaws.CompleteMetaExactly | gateway/app/services/connection_setups.py:208-218 | when it answers ok, conflict and not found; a publication makes the setup ready and files its connection, field by field, under its runtime name |
| SetupLaws.CompleteInstagramExactly | gateway/app/services/connection_setups.py:220-234 | the same for an Instagram account |
| SetupLaws.TransitionExactly | gateway/app/services/connection_setups.py:17-32 | a move is allowed exactly by the transition table, read column by column, and writes the stored record |
| SetupLaws.CreateRefuses | gateway/app/services/connection_setups.py:63-69 | a missing client is not found, an unavailable or unsupported channel and provider is refused, and nothing is written |
| SetupLaws.CreateUnderKey | gateway/app/services/connection_setups.py:105-111 | a key in use answers its setup as the due expiry leaves it, or a conflict when channel or provider differ |
| SetupLaws.CreateOpens | gateway/app/services/connection_setups.py:112-126 | otherwise exactly one new draft, field by field |
| SetupLaws.RuntimeNameExactly | gateway/app/services/connection_setups.py:121 | a runtime name is the prefix and up to 24 characters of the id without dashes |
| SetupLaws.SweepExactly | gateway/app/services/connection_setups.py:267-275 | a sweep leaves every setup as its due expiry does, and counts the due ones |
| SetupLaws.CreatedExactly | gateway/app/services/connection_setups.py:193-200 | after the first await: the instance is recorded as owned, or cleanup is asked for with its diagnostic |
| SetupLaws.HookedExactly | gateway/app/services/connection_setups.py:201-206 | after the second: the stored setup becomes ready and its connection is filed, or cleanup is asked for; which error otherwise |
| SetupLaws.CleanupExactly | gateway/app/services/connection_setup_cleanup.py:36-74 | an attempt ends the setup exactly when every resource was an owned instance now gone; otherwise it stays pending for another try after 60, 120, ... 1920 seconds |
| SetupLaws.CleanupExplains | gateway/app/services/connection_setup_cleanup.py:54-74 | the error kept is that of the first resource that remains with one |
| SetupRuns.PlanFits | gateway/app/services/connection_setups.py:148-265 | every command's writes follow the transition table, and only completions before the deadline publish |
| SetupRuns.PerformKeepsInv | gateway/app/services/connection_setups.py:84-265 | every command keeps registry integrity and legal histories |
| SetupRuns.PromoteKeepsInv | gateway/app/services/connection_registry.py:199-212 | a promotion keeps them, publishing the connection the setup will name |
| SetupRuns.SweepKeepsInv | gateway/app/services/connection_setups.py:267-275 | a sweep keeps them |
| SetupProtocol.CreateKeepsInv | gateway/app/services/connection_setups.py:103-126 | a create keeps them, one setup per client and key included |
| SetupProtocol.CleanupFits | gateway/app/services/connection_setup_cleanup.py:36-59 | a cleanup attempt that ends on a stored setup makes a legal write; a Meta setup never leaves cleanup_pending |
| SetupProtocol.CommandsDeliver | gateway/app/services/connection_setups.py:128-265 | a command that succeeds leaves the setup in the state it is for |
| SetupProtocol.RefusalsOnlyExpire | gateway/app/services/connection_setups.py:148-265 | a command refused for the setup's state has written nothing but a due expiry |
| SetupProtocol.StepKeepsSound | gateway/app/services/connection_registry.py:143-371 | invariants and copies held across awaits are inductive over every step |
| SetupProtocol.RegistryIntegrity | gateway/app/services/connection_registry.py:199-371 | in every run: clients of connections exist, names agree and are never both live and deleted, one setup per key, and the write that made a setup ready published its connection, under its name and for its client |
| SetupProtocol.MetaWritesAreLegal | gateway/app/services/connection_setups.py:17-32 | in the history of every run each state write of a Meta or Instagram setup is an edge of the table, and each promotion precedes expires_at |
| SetupHistory.HistoryIsComplete | gateway/app/services/connection_registry.py:188-212 | over any stretch of any run the writes account for every change of a stored setup: each starts from what the one before left, and the last left what is stored |
| SetupProtocol.EndedStaysEnded | gateway/app/services/connection_setups.py:20-23 | once cancelled, expired or cleanup_pending, a Meta or Instagram setup never becomes ready |
| SetupProtocol.EvolutionRevivedExactly | gateway/app/services/connection_setups.py:184-206 | an ended Evolution setup becomes ready if and only if provision_evolution resumes from a copy that read provisioning, for a client that exists; every other step leaves it ended |
| SetupProtocol.EvolutionStaysEndedExactly | gateway/app/services/connection_setups.py:184-206 | over any run an ended Evolution setup stays ended exactly while no such publication comes |
| SetupProtocol.ReadyTakenBackExactly | gateway/app/services/connection_setups.py:193-206 | a ready setup is taken back if and only if a cleanup attempt that started before ends on it, or a failed await of provision_evolution asks for cleanup from a copy whose state allows it |
| SetupProtocol.CancelledBecomesReady | gateway/app/services/connection_setups.py:200-206 | a run in which a cancelled Evolution setup becomes ready |
| Alerts.AlertStore.Sync | gateway/app/services/alerts.py:66-112 | the two loops compute the reconciled list and the dismissals that are still reported |
| Alerts.AlertStore.UpdateStatus | gateway/app/services/alerts.py:118-134 | the first alert with this id is decided, a resolved one is answered unchanged, anything else is None |
| Alerts.AlertStore.Delete | gateway/app/services/alerts.py:136-150 | the alert goes, its fingerprint is dismissed, and whether it was there |
| Alerts.AlertStore.DeleteResolved | gateway/app/services/alerts.py:152-164 | every resolved alert goes, their fingerprints are dismissed, and how many went |
| Alerts.RaisesExactly | gateway/app/services/alerts.py:93-106 | a sync raises an alert for exactly the reported fingerprints that are neither active nor resolved by hand nor dismissed |
| Alerts.ActiveExactly | gateway/app/services/alerts.py:66-112 | after a sync a fingerprint is active exactly when reported, and active before or not suppressed |
| Alerts.SyncIsIdempotent | gateway/app/services/alerts.py:66-112 | reconciling twice with one report is reconciling once |
| AlertLaws.DecisionExactly | gateway/app/services/alerts.py:118-134 | an unresolved alert ends with the status asked for, resolved by hand and now when that is resolved; a resolved one and all others stay |
| AlertLaws.SyncExactly | gateway/app/services/alerts.py:66-112 | stored alerts stay in place, unreported ones resolve by themselves, one new alert per reported incident that is not active, hand-resolved or dismissed follows in order, and dismissals last while reported |
| AlertLaws.DeletionExactly | gateway/app/services/alerts.py:136-150 | every alert with the id goes, the others keep their order, and the incident of the first is dismissed when it has a name |
| AlertLaws.ClearingExactly | gateway/app/services/alerts.py:152-164 | the resolved alerts go, the others keep their order, and their incidents are dismissed |
| AlertRuns.StepKeepsInv | gateway/app/services/alerts.py:66-164 | unique ids, one active alert per fingerprint, and none beside a hand-resolved record, kept by every step |
| AlertRuns.OneActiveEach | gateway/app/services/alerts.py:66-112 | every reachable list has at most one active alert per fingerprint |
| AlertRuns.HandResolvedStaysQuiet | gateway/app/services/alerts.py:77-95 | while a hand-resolved record is stored no alert of its fingerprint is active, whatever is reported |
| AlertRuns.ResolvedIsFinal | gateway/app/services/alerts.py:118-134 | a resolved alert stays as it is until deleted and never comes back |
| AlertRuns.DismissedExactly | gateway/app/services/alerts.py:82-110 | a fingerprint is dismissed exactly when some deletion of it has been followed only by syncs that report it |
| AlertRuns.RaisedOverRunExactly | gateway/app/services/alerts.py:66-164 | over a whole run, when a sync raises a new alert of a fingerprint |
| AlertCandidates.FingerprintsIdentify | gateway/app/services/alerts.py:300-309 | a fingerprint determines kind and connection, and its part before the colon is the kind |
| AlertCandidates.ConnectionCandidates | gateway/app/services/alerts.py:228-255 | one incident for each status condition that holds, each fingerprint once |
| AlertCandidates.OneSignalCandidates | gateway/app/services/alerts.py:263-289 | one incident for each live signal that holds, each fingerprint once |
| AlertCandidates.Candidates | gateway/app/services/alerts.py:220-226 | the incidents of all connections; each fingerprint once where ids are distinct |
| AlertCandidates.SignalCandidates | gateway/app/services/alerts.py:257-290 | the same for live signals; none without them |
| AlertCandidates.SupersedingIsIdempotent | gateway/app/services/alerts.py:195-200 | dropping superseded incidents twice is dropping them once |
| AlertCandidates.DiagnosedExactly | gateway/app/services/alerts.py:195-200 | a connection id counts as diagnosed exactly when a specific cause is due for it |
| AlertCandidates.ReportNamesEachOnce | gateway/app/services/alerts.py:186-200 | the report holds exactly the due incidents no specific diagnosis replaces, and keeps fingerprints distinct |
| CandidateLaws.LifecycleWords | gateway/app/services/alerts.py:229-233 | a word is found in a lifecycle exactly where its letters stand, in either case |
| CandidateLaws.ReportByCode | gateway/app/services/alerts.py:186-309 | a report holds the incident of a code and a connection id exactly when its condition holds, thresholds written out, and no session or token diagnosis of that id replaces it |
| CandidateLaws.ReportDescribes | gateway/app/services/alerts.py:300-309 | every incident in a report carries the fingerprint, severity, client, connection and address of a connection of which its condition holds |
| AlertCandidates.ListAlerts | gateway/app/services/alerts.py:186-191 | after one look at the connections an incident is active exactly when it is to be shown and was active or is not suppressed |
| Participants.PhoneFromJidExactly | gateway/app/services/group_participants.py:6-10 | a phone is found exactly in phone JIDs, device number or not, and it is theirs |
| Participants.EvidenceExactly | gateway/app/services/group_participants.py:24-28 | an entry gives its id, a LID or phone JID, the phone of its number or, where that is none, its own |
| Participants.GroupPhones | gateway/app/services/group_participants.py:20-34 | the inner loop's phones and ambiguous identities are what the members say and contest; capacity is exceeded exactly by count |
| Participants.ParticipantDirectory | gateway/app/services/group_participants.py:13-36 | a directory maps an identity to a phone exactly when some entry gives it and all that name it agree; which error comes first |
| Participants.MemberOrderIsMoot | gateway/app/services/group_participants.py:13-36 | the answer, error or directory, does not depend on the order of members |
| Participants.NamesExactly | gateway/app/services/group_participants.py:38-47 | a phone counts as evidence exactly when it is a phone number and the author's JID, the alternative JID or the group's directory gives it |
| Participants.AuthorPhone | gateway/app/services/group_participants.py:38-49 | the author's phone is the one all available evidence names; a phone-JID author gets its own number or none |

## Left out

- HTTP, psycopg, files, permissions, `os.replace` and corrupt-file handling: each locked section or transaction is one atomic step. Reading a damaged alert file as empty would lose dismissals; runs here read what was written.
- Protocol.DeliveredIsFinal: needs the hypothesis that every worker reports before its own lease lapses, because `_update` does not look at the lease.
- SoloWorker.AttemptBudget: needs crash-free runs with one worker; what breaks the budget in other runs is `ProtocolLimits.BudgetHoldsExactly`.
- SetupProtocol.EndedStaysEnded: stated for Meta and Instagram setups only; for Evolution setups `SetupProtocol.EvolutionStaysEndedExactly` says when it holds.
- SetupProtocol.StepKeepsSound: a cleanup of one setup does not start while another of the same setup is under way, which is what the per-setup lock of one process gives.
- PgOutbox.PostgresCoreInboundDeliveryStore.Enqueue: Postgres refuses text that holds U+0000, with a persistence error and no effect; events hold no U+0000 here.
- StoreAgreement.CreatedFlagsAgreeExactly: for events without U+0000, which the list would store and the table refuse.
- StoreAgreement.EnqueuesAgreeExactly: likewise.
- Dispatcher.OutboxSettles: needs ticks that run to their end; after an exception that escapes, the rest of the batch waits for its lease to lapse. `Settlement.TableSettles` counts claims that found no row locked.
- Text is a sequence of Unicode scalar values other than U+0000 in the stores; `ScopeKey` states the law over code points, lone surrogates included. Event fields are optional texts; JSON values of other types in their place are not modelled.
- The group policy and credential checks before a delivery: reduced to a refusal with its error.
- The wake-up schedule of the delivery worker and of the cleanup worker (`run_once`): their parts are steps of the runs, in any order and at any time.
- The Postgres legacy import, schema creation and choice of backend: start-up I/O.
- Read-only listings of deliveries, clients and connections: they would add easy members.
- Registry primitives without a guard (`delete_client`, `save_connection_record`, `replace`), the file migration, the group transport policy, and the public `transition`: not steps of the runs; the first three can break registry integrity by design.
- In the runs `update_connection_record` changes neither the runtime name nor the client of a connection, as none of its callers does; `save_connection_record_for_client` is called with the record's own legacy name.
- Records that are not JSON objects, and setups without a readable `expires_at`: the services never write them.
- The operator texts of alerts, the final sort of the listing, the heartbeat's date parsing and the count of reconnects: a candidate carries what reconciliation and supersession read, and the counts and dates are inputs.
- Groups without an id, which raise a KeyError in the source, are not representable.
- Analytics, automations, connection health, routers, middleware, adapters, settings, encryption, dashboards and the frontend: not part of this model.
