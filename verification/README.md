# Verified model of the go-grpc-starter core

A Dafny 4.11 model of the stateful core of the service, and proofs about it. Two parts are transition systems
whose theorems hold over every run and interleaving; on top of them, classes carry the service's own control flow,
statement by statement, and are proved to take only steps of those systems. The rest are a tag index, a login
throttle, nested transactions, and text formats with their round trips.

Verify the whole project with `dafny verify dfyconfig.toml`.

## What is modelled

| module | models | how |
|---|---|---|
| `Outbox` | table `events.outbox` and its SQL: insert defaults, both marks, the dedupe index, the claim query with backoff, order and limit | pure functions on `map<id, Row>` |
| `OutboxProtocol` | publishers, drainers, task queue, row locks, dead letters, clock, sweep | steps `Apply`/`Enabled`, runs `Run`/`CanRun` |
| `OutboxInvariant`, `OutboxMeasure`, `OutboxTheorems`, `OutboxDelivery`, `OutboxExhaustion`, `OutboxFailures` | what every step keeps, the termination measure, and the results over all reachable states | lemmas |
| `OutboxWorld`, `EventBus`, `Breaker` | the bus: dispatch, direct publication, drain loop and circuit breaker. Between any two statements of a method any number of steps of other publishers and drainers happen | classes `World` and `Bus` |
| `AuthProtocol`, `AuthTheorems`, `AuthLifetimes`, `AuthService` | device sessions, refresh-token families, access tokens, retention sweep; a refresh is split into its read and its rotation, so refreshes overlap | steps and runs; class `Service` |
| `LoginLimiter`, `LoginOverlap` | the failed-login counter and its window, with whole logins and with overlapping ones as steps | steps and runs; class `Limiter` |
| `CacheTags` | cache entries, tag sets, their expiries, tag invalidation | steps and runs; class `CacheManager` |
| `TxStore` | `WithTx`/`Run` nesting over call trees | evaluation function; class `Store` |
| `Dsn`, `PasswordHash`, `TimesOfDay`, `Interpolation` (over `Strings`, `Scanning`) | the text formats | functions, and loops where the code loops |

`World.Potential` bounds the rows that others may still insert while a drain runs; everything about termination is
relative to it, and it bounds nothing else. A healthy database or store is one in which no statement fails for a reason of
its own; contracts that say so hold of failing ones too in every other clause. Times are integers in microseconds. `hide` statements only narrow what a
proof looks at.

### Where the code and its words part

The model follows the code.

* A row that reaches ten retries is never claimed again and never dead-lettered; the comment in `gen/db/models.go:507`
  and the `retry_exhausted` arm of the drain say it is dead-lettered (`ExhaustedIsNeverDeadLettered`,
  `ExhaustedIsNeverClaimed`; `RetriesAreReached` shows that such rows exist).
* The breaker's cooldown runs once. After the third all-failed batch and one minute, every later batch is let through,
  failing or not, until one has a success (`CooldownIsNotRearmed`).
* Task ids that two events share make the queue drop the second event as a duplicate, and its row is still marked
  processed. The ids of `internal/app/wire_events.go:20-38` are built from a request id and a name, so this can happen.
  `DeliveredIffPrivateId` says exactly when an event is safe from it.
* Rotation does not look whether the old token was still live, so two overlapping refreshes of one token leave a
  family with two live tokens (`OverlappingRefreshesForkTheFamily`; `RotationKeepsOneLiveIff` and `AlwaysOneLiveIff` say
  exactly when). It is enough that the refreshes of one family do not overlap (`SerializedRunsKeepOneLive`).
* The device cap is enforced before a login inserts its session, so logins of one user that overlap can each find room and
  together exceed it (`OverlappingLogins`, `TwoLoginsExceedACapOfOne`); `AlwaysUnderCapIff` says exactly when the cap holds.
* Revoking a family does not stop a refresh that has already read its token; revoking the session does
  (`FamilyRevocationAloneIsOvertaken`, `ReuseEndsTheFamily`). The code ignores a failure of the session's revocation;
  `FamilyRevocationSufficesIff` says exactly when the family's is then enough.
* The unique index on active device ids has no exception for the empty id, and a login without a device id revokes
  nothing, so it fails while anyone else is logged in without one (`LoginIsRefusedOnlyWithoutADevice`).
* The active listing leaves out a session idle for exactly the timeout, which is still valid at that instant; at every
  later instant it is not (`UnlistedYetValidNow`, `UnlistedIsInvalidLater`).
* The hour of slack on tag sets covers times to live up to an hour apart, and none that is zero (`CoverageIff`).
* A swallowed error of a nested `WithTx` does not undo the nested writes; a swallowed error of a database statement
  loses the whole transaction (`SwallowedFailureCommits`, `RefusalLosesTheTransaction`).
* A value that mentions another key's placeholder makes the result of a substitution depend on the map's order, unless
  that key stands for its own placeholder (`OrderFreeIff`).
* Logins that overlap can pass the throttle together: with up to w attempts under way at once the bound on failed checks is
  2 * (max + w) - 3 and not 2 * max - 1 (`OverlapBound`, `OverlapBoundIsMet`).
* Quiet hours from 00:00:00 to 24:00:00 are the whole day, and not the empty circular interval
  (`QuietHoursAreCircular`).

## Model

| member | source | states |
|---|---|---|
| `Outbox.SelectIsOrderedPrefix` | gen/db/outbox.sql.go:128-143 | a claimed batch consists of distinct eligible rows, never attempted ones first, then those attempted longest ago, ties by id; min(limit, eligible) of them, none overtaken by a row left out |
| `Outbox.StuckIffAttemptUncounted` | gen/db/outbox.sql.go:128-143 | an unprocessed row under the limit is ineligible forever exactly when it has an attempt time and a retry count of zero; otherwise it is eligible an hour after its last attempt |
| `OutboxInvariant.StepKeepsInv` | internal/event/bus.go:145-292 | each of the fourteen steps of publishers, drainers, queue, clock and sweep keeps the protocol's invariant |
| `OutboxInvariant.RunKeepsInv` | internal/event/bus.go:354-442 | so does every run, from any state that has it |
| `OutboxInvariant.CommittedKeepsInv` | internal/event/bus.go:354-434 | committing a batch, with all its marks and letters at once, keeps the invariant whatever others did meanwhile |
| `OutboxInvariant.MarkedKeepsInv` | gen/db/outbox.sql.go:82-100 | a publisher's unguarded mark keeps it too, on a row a drain has already marked or dead-lettered as well |
| `OutboxInvariant.BuriedKeepsInv` | internal/event/bus.go:365-417 | so do the dead-letter arms of the drain |
| `OutboxInvariant.LockedIsPending` | gen/db/outbox.sql.go:128-143 | a row some drain has locked is unprocessed and under the retry limit |
| `OutboxTheorems.NoCommittedEventIsLost` | internal/event/bus.go:145-292 | every row ever committed, swept or not, is unprocessed, or dead-lettered, or the queue has taken a task of every asynchronous subscription of its event |
| `OutboxTheorems.DecodableEventsReachTheQueue` | internal/event/bus.go:382-431 | a row whose event decodes has no dead letter, and is unprocessed or the queue has taken a task of every asynchronous subscription of it |
| `OutboxTheorems.DeadLettersAreTrue` | internal/event/bus.go:382-417 | every dead letter carries its row's event, and its reason and message are the decoder's verdict on that event |
| `OutboxTheorems.RunKeepsLettersTrue` | internal/event/outbox.go:145-162 | so do the letters of open drain transactions, over every run |
| `OutboxTheorems.OpenClaimsAreDisjoint` | gen/db/outbox.sql.go:128-143 | what two open drains claimed is disjoint, for any number of drainers |
| `OutboxTheorems.ClosedAtMostOnce` | internal/event/bus.go:354-442 | each row has at most one committed closing drain and at most one dead letter, a dead-lettered row is processed, and no letter is ever for exhausted retries |
| `OutboxTheorems.AtMostTenAttempts` | gen/db/outbox.sql.go:128-131 | each row gets at most ten committed drain attempts |
| `OutboxTheorems.OnePendingPerDedupeKey` | migrations/00015_create_events_outbox_table.up.sql:44-51 | no two pending rows share event type and dedupe key, in any reachable state |
| `OutboxTheorems.InsertGoesThroughIff` | gen/db/outbox.sql.go:38-42 | an insert under a fresh id goes through exactly when no unprocessed row has its type and its key, and leaves the row with the column defaults |
| `OutboxTheorems.RunMovesForward` | gen/db/outbox.sql.go:82-100 | over any run a row once processed stays processed, retries never decrease, and a deleted row does not come back |
| `OutboxTheorems.ProcessedIsFinal` | gen/db/outbox.sql.go:98-143 | a processed row is never pending again and never held by a drain again |
| `OutboxTheorems.ExhaustedIsNeverClaimed` | gen/db/outbox.sql.go:128-131 | a row at ten retries is held by no drain in any continuation |
| `OutboxExhaustion.ExhaustedIsNeverDeadLettered` | internal/event/bus.go:366-380 | an unprocessed row at ten retries has no dead letter in any continuation |
| `OutboxExhaustion.RetriesAreReached` | gen/db/outbox.sql.go:82-86 | for every event that decodes and has a subscription whose failure counts, and every n up to ten, drains alone reach a state with its row unprocessed after n failures, the n-th exactly n - 1 microseconds over the schedule after the first, so the bound of `BackoffOverARun` is tight |
| `OutboxFailures.StepKeepsSound` | internal/event/bus.go:217-292 | each step keeps it that rows, staged rows and dispatches under way have failed only where a subscription is asynchronous or critical, that no row is processed before it was created, and that drains close without a letter only rows whose event decodes |
| `OutboxFailures.OnlyWhatCanFailIsRetried` | internal/event/bus.go:282-291 | in every reachable state a row with a failure behind it has an event with an asynchronous or a critical subscription |
| `OutboxFailures.RetriedIffCanFail` | internal/event/bus.go:217-292 | an event that decodes can have n failures, for each n from one to ten, exactly when it has such a subscription |
| `OutboxFailures.ProcessedAfterCreation` | migrations/00015_create_events_outbox_table.up.sql:20-23 | no row is ever processed at a time before its creation |
| `OutboxFailures.LetteredIffUndecodable` | internal/event/bus.go:382-431 | of the rows drains closed, exactly those whose event does not decode have a dead letter |
| `OutboxTheorems.SweepDeletesOnlyProcessed` | gen/db/outbox.sql.go:25-28 | the sweep deletes exactly the rows processed before its cutoff, and those are unlocked, and dead-lettered or fully enqueued |
| `OutboxTheorems.BackoffOverARun` | gen/db/outbox.sql.go:82-86 | the n-th failure of a row only drains failed comes later than the whole schedule up to n, by a microsecond for each failure after the first; ten failures take strictly more than 20550 s |
| `OutboxTheorems.ClaimableAfterItsWait` | gen/db/outbox.sql.go:131-138 | an unprocessed row with one to nine failures is claimable exactly when more than 30 s, 2 min, 10 min, 30 min, or from the fifth on an hour, have passed since the last of them |
| `OutboxTheorems.RollbackUndoesTheDrain` | internal/event/bus.go:354-437 | a rolled-back drain leaves rows, letters and history as they were, frees its rows, and keeps the others' locks |
| `OutboxTheorems.NoRowIsStuck` | gen/db/outbox.sql.go:128-143 | every unprocessed row below ten retries is eligible at each time more than an hour after its last attempt |
| `OutboxMeasure.CommitDropsByFetched` | internal/event/bus.go:354-442 | a committed batch lowers the sum over unprocessed rows of max(0, 10 - retries) by at least the rows it fetched, whatever the clock does |
| `OutboxMeasure.StepMeasure` | gen/db/outbox.sql.go:41-100 | no other step raises that sum but an insert, by ten |
| `OutboxMeasure.RunMeasure` | internal/event/bus.go:326-349 | over a run: final sum plus all rows fetched by committed batches is at most the initial sum plus ten per insert |
| `OutboxTheorems.TotalWorkIsBounded` | internal/event/bus.go:326-442 | all committed batches of a run together fetch at most ten rows per row inserted |
| `OutboxDelivery.DeliveredIffPrivateId` | internal/event/bus.go:225-286 | given a dispatcher, for any event and queues: each row of the event that is neither unprocessed nor dead-lettered has a task with that event on one of the queues, in every reachable state, if and only if some asynchronous subscription there gives the event an id no other event gets on that queue |
| `OutboxDelivery.DeliveredSomewhereIffPrivateId` | internal/event/bus.go:225-286 | the same for any queue at all |
| `OutboxDelivery.PrivateIdDeliversTheEvent` | internal/event/bus.go:226-271 | one subscription with such an id has its queue hold a task with the event of every closed row |
| `OutboxDelivery.SharedIdsDropTheEvent` | internal/app/wire_events.go:20-38 | when every asynchronous subscription of an event on the queues shares its id with some other event, of whatever type, a reachable state has the event's row processed and no task there that carries it |
| `OutboxWorld.ForeignRun` | gen/db/outbox.sql.go:128-143 | whatever others do, a drainer's transaction, its locks and its claimed rows, or a publisher's record, stay as they were |
| `OutboxWorld.World.Interfere` | internal/event/bus.go:294-298 | any run of the others may come between two statements of a call |
| `OutboxWorld.World.Do` | internal/event/bus.go:354-442 | a statement of the call is one enabled step of the protocol |
| `EventBus.Bus.Dispatch` | internal/event/bus.go:217-292 | the error is a failed enqueue exactly when some enqueue was refused; otherwise the text of the first failure of a critical handler, and none when no critical handler failed, whatever other handlers did; it changes only its own dispatch |
| `EventBus.Bus.Publish` | internal/event/bus.go:185-215 | direct publication: a row is written exactly when some subscription is asynchronous and neither the statement fails nor the dedupe index refuses it; the error is the verdict on the answers of the subscriptions; unless an enqueue failed, the queue has every asynchronous task of the event when it returns; the row, if marked, is processed then and failed otherwise; no subscribers, no step |
| `EventBus.Bus.WriteRow` | internal/event/bus.go:185-199 | the write alone: without it, the statement failed, no subscription is asynchronous, or a state of the call has a pending duplicate |
| `EventBus.Bus.PublishInTx` | internal/event/bus.go:145-183 | in a caller's transaction: a row is pending exactly when the event has subscribers, the write was not refused and the transaction commits; only a failing statement or the dedupe index refuses it; nothing is dispatched |
| `EventBus.Bus.HasAsync` | internal/event/bus.go:164-170 | finds an asynchronous subscription exactly when there is one |
| `EventBus.Bus.MarkRow` | internal/event/bus.go:201-212 | a mark that succeeds leaves the row processed when every enqueue went through and failed otherwise; in a healthy database only a lock of a drain, or a creation time in the future, stops it; either way the publication ends |
| `EventBus.Bus.InvokeAsync` | internal/event/bus.go:483-514 | every asynchronous handler runs once, in order, also after a failure, and the first error is reported |
| `EventBus.Bus.DrainRow` | internal/event/bus.go:365-432 | a row that does not decode, and no other, gets a letter and the processed mark without an attempt; every other row is attempted and staged as the answers to its dispatch ask; in a healthy database only a row created after the transaction began cannot be marked |
| `EventBus.Bus.DispatchAndMark` | internal/event/bus.go:419-431 | the row is staged failed, once more, at the transaction's time and with the error's text, exactly when an enqueue was refused or a critical handler failed, and processed at that time otherwise |
| `EventBus.Bus.ClaimedRows` | internal/event/bus.go:358-362 | the rows the loop walks are the claimed ones, in batch order |
| `EventBus.Bus.DrainRows` | internal/event/bus.go:365-433 | after all rows, attempts are the rows without a letter and failures the rows staged unprocessed |
| `EventBus.Bus.ClaimBatch` | internal/event/bus.go:357-362 | claiming happens under the breaker's leave, or nothing remains of it; it takes every claimable unlocked row, or as many as the batch size |
| `EventBus.Bus.CommitBatch` | internal/event/bus.go:433-441 | the record the breaker gets is that of the transaction committed in the run |
| `EventBus.Bus.DrainBatch` | internal/event/bus.go:354-442 | a batch either commits and is logged truthfully, or is rolled back and leaves the breaker alone; success lowers the potential by the rows fetched; it says why it is not to be followed by another |
| `EventBus.Bus.DrainOnce` | internal/event/bus.go:326-349 | the loop ends although others keep stepping, and for one of five reasons: the gate is shut, the last batch tripped the breaker, it was rolled back (in a healthy database only over a row created after it began), it took every row there was to take, or the process shuts down; every batch but the last committed and left the breaker closed; with the breaker open at the call, a second batch follows only a first with a success |
| `EventBus.Bus.RecordBreaker` | internal/event/bus.go:458-481 | the two fields go on being the digest of the history: length of the trailing all-failed run, and when it reached three |
| `EventBus.Bus.BreakerRefinesHistory` | internal/event/bus.go:444-456 | the fields allow a batch exactly when the history does |
| `Breaker.TrailingMeansARun` | internal/event/bus.go:458-481 | the counter is the length of the trailing run of all-failed batches among committed batches with an attempt, and that run is maximal |
| `Breaker.OpenedAtIsTheThirdFailure` | internal/event/bus.go:461-465 | the opening time is that of the third failure in a row for as long as no batch has a success |
| `Breaker.NoBatchDuringCooldown` | internal/event/bus.go:444-456 | no batch starts within 60 s of the third all-failed batch, up to the next success |
| `Breaker.CooldownIsNotRearmed` | internal/event/bus.go:458-465 | after the cooldown further failures do not close the gate again |
| `Breaker.OnlySuccessCloses` | internal/event/bus.go:471-480 | only a batch with a success brings an open breaker below three |
| `Breaker.AllowsIff` | internal/event/bus.go:444-481 | a batch may start exactly when the breaker was not opened by a third failure in a row since the last success, or 60 s have passed since that failure |
| `AuthProtocol.StepKeepsInv` | gen/db/refresh_tokens.sql.go:66-151 | every committed transaction of the auth service keeps: families bound to sessions one to one, in flight too, and one live session per device |
| `AuthProtocol.RunKeepsInv` | internal/auth/session.go:15-44 | so does every run |
| `AuthTheorems.InvalidSessionIsFinal` | internal/auth/entity.go:38-48 | once a session is invalid, by any revocation path or by idling, no refresh on its tokens and no authentication naming it succeeds in any continuation |
| `AuthTheorems.RunKeepsSession` | gen/db/device_sessions.sql.go:221-258 | a session's record changes only by being revoked, and only once |
| `AuthTheorems.FamilyAndSessionCoincide` | internal/auth/tokens.go:85-100 | two tokens are of one family exactly when they are of one session |
| `AuthTheorems.RevokingFamilyIsRevokingSession` | gen/db/refresh_tokens.sql.go:131-151 | revoking by family and revoking by session are the same update |
| `AuthTheorems.ReuseEndsTheFamily` | internal/auth/tokens.go:30-40 | after a reused token was met its family yields no accepted token in any continuation, rotations in flight included |
| `AuthTheorems.FamilyRevocationSufficesIff` | internal/auth/tokens.go:36-37 | revoking the family alone ends it in every continuation exactly when its session is no longer valid or no refresh of the family is in flight |
| `AuthTheorems.FamilyRevocationAloneIsOvertaken` | internal/auth/tokens.go:24-68 | from every state with a refreshable token, a refresh that read it before the family was revoked still rotates, and its token is accepted |
| `AuthTheorems.RotationKeepsOneLiveIff` | internal/auth/tokens.go:56-68 | a rotation keeps one live token per family exactly when the family's live tokens at its commit are none but the one it rotates |
| `AuthTheorems.OtherStepsKeepOneLive` | gen/db/refresh_tokens.sql.go:66-151 | nothing but a rotation can make a second live token |
| `AuthTheorems.AlwaysOneLiveIff` | internal/auth/tokens.go:52-68 | whatever else happens and however refreshes overlap, a run has one live token per family throughout exactly when at each rotation the family's live tokens are none but the one it rotates |
| `AuthTheorems.SerializedRunsKeepOneLive` | internal/auth/tokens.go:18-83 | if no refresh reads a token while another of its family is in flight, each family has at most one unrevoked token at all times, whatever else comes between a read and its rotation |
| `AuthTheorems.OneLiveTokenPerFamily` | internal/auth/tokens.go:18-83 | so after every such run from the start two unrevoked tokens of a family are one |
| `AuthService.Service.OneLiveKept` | internal/auth/tokens.go:18-83 | and so after every sequence of service calls and of steps of others that serialize the refreshes of each family |
| `AuthTheorems.OverlappingRefreshesForkTheFamily` | internal/auth/tokens.go:24-68 | two overlapping refreshes of one token end with two live tokens of its family, both accepted |
| `AuthTheorems.RotationHandsOver` | internal/auth/tokens.go:52-68 | after a refresh the old token counts as reused and the new one is accepted, for the same session and family |
| `AuthLifetimes.LiveTokenLasts` | internal/auth/tokens.go:18-50 | over any continuation that ends neither a live token nor its live session and sweeps nothing past the clock, the token is answered by the clock alone: it rotates up to its expiry while the session is not idle for too long, then is expired, or unknown once swept |
| `AuthLifetimes.RotatedTokenLasts` | internal/auth/tokens.go:56-68 | after a rotation and such a continuation of length e the new token rotates exactly when e is at most the refresh lifetime and the session is not idle for too long |
| `AuthLifetimes.FirstTokenLasts` | internal/auth/tokens.go:85-101 | so does the first token of a login, with e at most the inactivity timeout as well |
| `AuthLifetimes.ReuseIsNoticedUntilSwept` | internal/maintenance/sweeper.go:47-53 | a revoked token is recognised as reused in every continuation until a sweep whose cutoff is past its expiry or its revocation, and is unknown from then on |
| `AuthLifetimes.SessionsEndExactly` | gen/db/device_sessions.sql.go:221-258 | a live session is revoked by a revocation that names it or its user, by a login on its named device, and by nothing else |
| `AuthLifetimes.TokensEndExactly` | gen/db/refresh_tokens.sql.go:100-151 | a live token is revoked by a revocation of its session's tokens or its family's, by the rotation of a call that read it, and by nothing else |
| `AuthLifetimes.KeyIsLiveIff` | internal/auth/tokens.go:18-83 | in every run from the start the key of an access token is live exactly when the run's last word on the token was to issue it, less than the access lifetime ago |
| `AuthLifetimes.AuthenticatedIff` | internal/interceptor/interceptors.go:214-234 | so at the end of any run a token authenticates a session exactly when that is so, the session is stored, unrevoked and not idle for too long, and its user is active; each refusal is given exactly in its case, and a token never issued is never let in |
| `AuthTheorems.SweepKeepsAcceptance` | internal/maintenance/sweeper.go:51-53 | a sweep whose cutoff is not in the future changes no answer of a refresh but that of the tokens that expired or were revoked before it, which were not accepted |
| `AuthTheorems.LoginIsRefusedOnlyWithoutADevice` | internal/auth/session.go:23-35 | the device index lets a login in exactly when it names a device or nobody is logged in without one |
| `AuthTheorems.OneLiveSessionPerDevice` | migrations/00008_create_device_sessions_table.up.sql:34-35 | no two unrevoked sessions share a device id, in any reachable state |
| `AuthTheorems.ActiveAfterLogin` | internal/auth/session.go:23-35 | a login leaves its user the active sessions its device does not replace, and its own unless sessions time out at once |
| `AuthTheorems.AlwaysUnderCapIff` | internal/auth/session.go:149-171 | a user under the cap stays there throughout a run, as the clock advances too, if and only if each of the user's logins finds room once the sessions of its device are gone |
| `AuthTheorems.OverlappingLogins` | internal/auth/session.go:20-44 | two logins of a user on new devices let in on the same count end two above it, so with room for each they end under the cap exactly when that count is at most two below it |
| `AuthTheorems.TwoLoginsExceedACapOfOne` | internal/auth/session.go:20-44 | from the start, with a cap of one, two such logins exceed it |
| `AuthService.Service.CapKept` | internal/auth/session.go:15-44 | with a healthy store and a positive cap, no user has more active sessions than the cap after any sequence of service calls, and of steps of others whose logins find room |
| `AuthTheorems.UnlistedIsInvalidLater` | gen/db/device_sessions.sql.go:166-170 | a session outside the active listing is invalid at every strictly later time |
| `AuthTheorems.UnlistedYetValidNow` | internal/auth/entity.go:42-48 | an unrevoked session is unlisted yet valid exactly at the instant it has idled for the timeout |
| `AuthService.Service.FindByTokenHash` | internal/auth/refresh_token_repository.go:68-105 | the prefix lookup, full comparison and loads return the stored token of that hash or nothing; with a healthy store they find it exactly when it and its session are stored |
| `AuthService.Service.ListActive` | gen/db/device_sessions.sql.go:166-170 | the listing has exactly the user's active sessions, once each, most recently active first |
| `AuthService.Service.RevokeSession` | gen/db/device_sessions.sql.go:253-258 | one session is revoked, or nothing happens; an already revoked one is an error |
| `AuthService.Service.RevokeSessionAndTokens` | internal/auth/session.go:173-186 | no session but the named one changes, and with a healthy store its tokens go with it |
| `AuthService.Service.EvictOldestIfOverLimit` | internal/auth/session.go:149-171 | what is revoked is a tail of the listing; with a healthy store the most recently active cap - 1 sessions stay |
| `AuthService.EvictedRoom` | internal/auth/session.go:163-170 | so there is room for one more session under the cap |
| `AuthService.Service.CreateSessionAndTokens` | internal/auth/session.go:12-52 | a login that succeeds leaves a fresh session of the user on the device, a refresh token and an access token of it with the configured lifetimes and, with a healthy store and a positive cap, at most cap active sessions; one that fails adds neither session nor refresh token; other users gain nothing |
| `AuthService.Service.InsertSession` | internal/auth/session.go:25-44 | the transaction inserts session and first token together, with their lifetimes, or not at all |
| `AuthService.Service.RefreshTokens` | internal/auth/tokens.go:18-83 | a success, or any answer with a healthy store, is the protocol's decision carried out, token by token and session by session, whatever other refreshes are in flight; a success stores the new token and the new access token with their lifetimes; an error adds no refresh token and only revokes |
| `AuthService.Service.EndFamily` | internal/auth/tokens.go:30-40 | reuse revokes the family's live tokens and the session, and no others |
| `AuthService.Service.Rotate` | internal/auth/tokens.go:52-71 | the old token is revoked and the new one inserted with the refresh lifetime, or an error and at most revocations |
| `AuthService.Service.RevokeListed` | internal/auth/session.go:133-147 | the listed sessions but the spared one are revoked, a failure skipping only itself |
| `AuthService.Service.RevokeOtherSessions` | internal/auth/session.go:127-147 | with a healthy store exactly the other active sessions are revoked, and no other session of the user is valid at any later time; the kept one is untouched |
| `AuthService.Service.RevokeAllSessions` | internal/auth/session.go:112-125 | the same, sparing none |
| `AuthService.Service.Logout` | internal/auth/session.go:54-67 | with a healthy store the session is revoked, its refresh tokens are revoked and its access token is gone |
| `AuthService.Service.RemoveDevice` | internal/auth/session.go:96-110 | succeeds exactly when the user has a live session on the device other than the current one, and revokes that one |
| `AuthService.Service.ChangePassword` | internal/auth/service.go:232-257 | after a success with a healthy store no session of the user but the current one is valid at any strictly later time; errors change nothing |
| `AuthService.Service.ResetPassword` | internal/auth/service.go:210-230 | a success uses up a token that is still live and, with a healthy store, revokes every live session of its user and none of anyone else's; a strong password uses the token up even when the update fails, a weak one leaves it |
| `AuthService.Service.IssueReset` | internal/auth/service.go:198-203 | a reset token is stored for its user and for an hour |
| `LoginOverlap.OverlapBound` | internal/auth/service.go:133-149 | with the cache up, no reset and at most w attempts on an email under way at once, any half-open interval of one window's length has at most 2 * (max + w) - 3 failed credential checks |
| `LoginOverlap.OverlapBoundIsMet` | internal/auth/lockout.go:41-56 | for every limit and every w some run has exactly that many |
| `LoginLimiter.RateBound` | internal/auth/lockout.go:41-63 | when attempts do not overlap, at most 2 * max - 1 |
| `LoginLimiter.RateBoundIsMet` | internal/platform/cache/manager.go:154-169 | and some run has exactly that many |
| `LoginLimiter.BlockedUntilWindowEnds` | internal/auth/lockout.go:41-56 | a blocked account stays blocked until its window ends, whatever is tried |
| `LoginLimiter.Limiter.constructor` | internal/auth/lockout.go:26-39 | settings that make no sense become 10 attempts in 15 minutes |
| `LoginLimiter.BlockedIffFailuresReachLimit` | internal/auth/lockout.go:41-56 | from the failure that opens a window until it ends, an email is blocked exactly when the checks failed since then have reached the limit |
| `LoginLimiter.BlockedIff` | internal/auth/lockout.go:41-63 | in every run with the cache up, successes included, an email is blocked exactly when the checks that failed since its latest accepted login, and since the failure that opened the running window, have reached the limit |
| `LoginLimiter.AcceptedLoginRestoresTheAllowance` | internal/auth/service.go:133-155 | n wrong passwords in the window after an accepted login leave the email unblocked exactly when n is below the limit |
| `LoginLimiter.Limiter.Login` | internal/auth/service.go:133-155 | a blocked email has no password checked; an unknown email and a wrong password get one answer and add one to the counter; a success sets it to zero; an inactive account leaves it |
| `CacheTags.CoverageIff` | internal/platform/cache/manager.go:45-70 | in every run the tag set holds each live entry whose latest Set named the tag, if and only if the times to live used with the tag are positive and differ by at most an hour |
| `CacheTags.InvalidatedUntilSet` | internal/platform/cache/tags.go:13-46 | after invalidating tags no entry whose latest Set named one of them is readable until it is set again |
| `CacheTags.UnreadableUntilSet` | internal/platform/cache/manager.go:72-92 | an unreadable key stays unreadable in every continuation that does not set it |
| `CacheTags.KeysAreApart` | internal/platform/cache/manager.go:262-268 | entry keys and tag keys never coincide, and both are injective |
| `CacheTags.TaggedAt` | internal/platform/cache/manager.go:62-66 | each named tag's set gains the key and expires an hour after the entry |
| `CacheTags.TaggedElsewhere` | internal/platform/cache/manager.go:62-66 | no other key changes |
| `CacheTags.EndlessEntryIsLost` | internal/platform/cache/manager.go:60-65 | an entry without expiry outlives its tag set |
| `CacheTags.LongEntryIsLost` | internal/platform/cache/manager.go:60-65 | a shorter Set under the tag, by more than an hour, uncovers a longer entry |
| `CacheTags.CacheManager.Set` | internal/platform/cache/manager.go:45-70 | the pipeline performs exactly the step, or an error and nothing |
| `CacheTags.ReadsLatestSet` | internal/platform/cache/manager.go:45-92 | over any run, until a key is set again, a read gives the data of its latest Set exactly while the time to live lasts and no delete or invalidation hit the entry |
| `CacheTags.CacheManager.GetDel` | internal/platform/cache/manager.go:180-199 | returns what was readable and leaves it unreadable, so a single-use token is consumed once |
| `CacheTags.CacheManager.InvalidateByTag` | internal/platform/cache/manager.go:201-224 | the step for one tag; a tag without members changes nothing |
| `CacheTags.CacheManager.InvalidateByTags` | internal/platform/cache/tags.go:13-46 | the step for all tags at once, gathered tag by tag |
| `TxStore.NestedTransactionsFlatten` | internal/store/store.go:58-67 | inside a transaction every tree behaves as the tree with its nested transactions dropped |
| `TxStore.CommitsExactlyWhenSound` | internal/store/store.go:58-85 | for every tree, swallowed errors included: it commits exactly when it begins, the callback reports no error, no refused statement was reached and the commit goes through; then it adds every row inserted, in order, and otherwise none |
| `TxStore.AllOrNothing` | internal/store/store.go:58-85 | a tree that swallows no error commits all its writes in order or none; all exactly when begin, callback and commit succeed |
| `TxStore.PublishedWithTheDomain` | internal/event/bus.go:175-183 | an event row written inside is committed exactly when each domain write is |
| `TxStore.SwallowedFailureCommits` | internal/store/store.go:65-67 | every nested call that fails without a refusal and is swallowed leaves what it inserted in the commit, though alone it would leave nothing |
| `TxStore.RefusalLosesTheTransaction` | internal/store/store.go:79-85 | a refusal by the database, reached at any depth and swallowed anywhere, loses the transaction |
| `TxStore.OutsideEveryUnitIsItsOwn` | internal/store/store.go:42-85 | outside a transaction every statement, `Run` and outermost `WithTx` is a transaction of its own: any tree commits exactly the rows of its sound units, in order, and reports exactly their errors |
| `TxStore.Store.Execute` | internal/store/store.go:42-56 | the control flow of Run and WithTx does what the evaluation of the tree says |
| `TxStore.Store.InTransaction` | internal/store/store.go:61-85 | begin, settings, callback, commit, and rollback on any error: exactly the evaluation of WithTx |
| `Dsn.TwoReplacementsAreOneEscape` | internal/platform/db/connection.go:141-147 | escaping backslashes first and quotes second is escaping both at once |
| `Dsn.SettingReadsBack` | internal/platform/db/connection.go:143-147 | a quoted setting is read as its value whatever the value and whatever follows |
| `Dsn.RoundTrip` | internal/platform/db/connection.go:127-139 | a reader by section 34.1.1.1 of the PostgreSQL 16 manual gets host, port, user, password, dbname and sslmode with exactly the six strings, then the extra settings |
| `PasswordHash.Base64RoundTrip` | internal/auth/password.go:55-56 | base64 as in section 4 of RFC 4648 without padding decodes to the bytes encoded |
| `PasswordHash.TestVectors` | internal/auth/password.go:55-56 | the test vectors of section 10 of RFC 4648 |
| `PasswordHash.NewPasswordHasher` | internal/auth/password.go:26-44 | field by field, a positive parameter is kept and a zero one takes its default, so all end up positive |
| `PasswordHash.ReadsBack` | internal/auth/password.go:46-82 | what verification reads from an encoded hash is exactly the stored salt, costs and key |
| `PasswordHash.EncodedText` | internal/auth/password.go:51-57 | the stored text, character for character, version 19 included |
| `PasswordHash.OtherShapesAreRefused` | internal/auth/password.go:62-65 | a text without exactly five dollar signs verifies no password |
| `PasswordHash.OtherAlgorithmsAreRefused` | internal/auth/password.go:62-69 | nor does a hash of another algorithm or another version |
| `PasswordHash.VerifyIffDerived` | internal/auth/password.go:61-85 | a hash accepts a password exactly when it derives the stored key under the stored salt and costs, whatever the current parameters |
| `TimesOfDay.PrintParse` | internal/store/convert.go:87-107 | printing and parsing a time drops the fraction of the second and nothing else |
| `TimesOfDay.MinutesAreEnough` | internal/store/convert.go:87-98 | hours and minutes alone, or with seconds that are no number, are that minute's first second |
| `TimesOfDay.ClockOrder` | internal/worker/notifications/processor.go:204-214 | clock texts compare as their times, up to two-digit hours |
| `TimesOfDay.QuietHoursAreCircular` | internal/worker/notifications/processor.go:186-214 | with both bounds set the text comparison is membership in a circular interval, with one exception; with one missing no time is quiet |
| `Interpolation.EveryOrderIsAtOnce` | internal/worker/notifications/processor.go:329-339 | for well-formed templates, and data without stray braces whose values mention no other key, every order of replacement gives the simultaneous substitution, unknown placeholders untouched |
| `Interpolation.PlainIsSelfContained` | internal/worker/notifications/processor.go:329-339 | brace-free keys and values are such data |
| `Interpolation.WellFormedIffBalanced` | internal/worker/notifications/processor.go:329-339 | the well-formed templates are exactly the strings whose braces are balanced and not nested |
| `Interpolation.OrderFreeIff` | internal/worker/notifications/processor.go:333-337 | for brace-free keys and values without stray or nested braces, all orders agree on every well-formed template if and only if no value mentions another key's placeholder, but of a key that stands for its own |
| `Interpolation.LastTwoDiffer` | internal/worker/notifications/processor.go:333-337 | when one does, two orders that differ in their last two keys give different results |
| `Interpolation.Interpolate` | internal/worker/notifications/processor.go:329-339 | the loop over the map in any order gives that substitution |
| `Interpolation.BuildDeepLink` | internal/worker/notifications/deeplink.go:9-32 | the same for links; no link or no template gives the empty string |

## Left out

- Wire and infrastructure: Redis, the task queue, PostgreSQL, mail, push and object storage appear only by their
  effects (keys with expiry, a set of accepted tasks, tables); a pipeline takes effect at one instant or not at all.
- JSON: a decoder is a parameter that may call a payload malformed or its type unknown; encoding always succeeds
  except in the cache's Set.
- Hashing, token entropy and key derivation: fresh values and an uninterpreted derivation of the right length.
- One clock: the service's and the database's time are the same, and `now()` is the start of the transaction.
- The drain's ticker and kick channel, metrics, logging and panics: `DrainOnce` is one wake-up.
- A subscription without a task-id function: the model gives every asynchronous subscription one.
- The content uniqueness window of the queue is folded into the duplicate answer, which may come from a task with the
  same id or the same content.
- EventBus.Bus.PublishInTx: one step, the commit of the row; that it commits with the domain writes is `TxStore`'s subject.
- Publication from the drain is the drain's own dispatch (`EventBus.Bus.DispatchAndMark`).
- EventBus.Bus.MarkRow: a mark that would wait for a drain's row lock is modelled as not happening.
- Handlers do not publish, and run outside the drain's transaction.
- Users and their status, device details and audit records; that a user is active is a parameter of `Authenticate`.
- AuthService.Service.RefreshTokens: other refreshes may be in flight, but none of their steps falls between the statements
  of the call; those runs are in `AuthTheorems`.
- LoginOverlap.OverlapBound: a process that dies between a failed check and its increment leaves the failure uncounted.
- Fine interleavings inside login, tag invalidation and the revocation loops: calls of `AuthService` are serialized.
- Email-verification tokens, which work as reset tokens do.
- OutboxDelivery.DeliveredIffPrivateId: the protocol lets a row be written for an event without asynchronous subscriptions
  outside a transaction too, which direct publication does not do.
- The session data cache written at login and cleared at revocation: no decision of the model reads it.
- CacheTags.CacheManager.Set: a pipeline that fails half way is modelled as having had no effect.
- TxStore.Store.Commit: a commit whose outcome the client does not learn is not modelled.
- Counters and cache entries are separate models; an increment of a cached entry is not a step of `CacheTags`.
- Client-side rounding of times to live to whole seconds or milliseconds, and negative times to live.
- Pattern deletion, `GetOrSet` and its flight sharing.
- Triggers, row-level security and change reasons.
- Email normalization, email templates, sender selection, pagination, bulk sending, error codes: only easy members.
- Dsn.RoundTrip: NUL characters, which a C reader takes for the end of the string, are ordinary characters here.
- TimesOfDay.PrintParse: times are not negative, as in the column; a scanned number skips ASCII white space only.
- PasswordHash.VerifyIffDerived: requires what the hasher's constructor establishes, positive iterations and threads;
  the derivation of a zero-length key is whatever the parameter gives.
- Time zones: the quiet-hours test takes the second of the day in the user's zone.
- UUID parsing and printing: families are opaque values.
