# Verified model of the review service's stateful core

This project models the parts of the review service that change shared state under
concurrency, failure or migration, and proves what they promise for all inputs, all
interleavings and all runs:

- **Credential key rotation.** An operator pages through three credential tables, opens
  each envelope under its old key, seals it under the active key and stores it with a
  compare-and-swap, while other writers replace, rebind, revoke and delete rows.
  `Credentials.dfy` holds the tables, the ciphers and the statements;
  `RotationProtocol.dfy` the interleavings of any number of operators and writers, and
  `RotationRepair.dfy` the rows no operator can reseal;
  `RotationPaging.dfy`, `RotationResult.dfy`, `KeyRotation.dfy` and `RotationRun.dfy` what
  an undisturbed operator computes.
- **Webhook replay.** `SweepSchedule.dfy` is the scheduler with its cooldowns, maintenance
  and sleeps; `WakeProtocol.dfy` is the wake-up protocol between the database, the LISTEN
  bridge and the scheduler.
- **Worker shutdown.** `SignalOwner.dfy`, `StartupCancellation.dfy`,
  `ShutdownSupervisor.dfy` and `CleanupJoin.dfy`: signals, cancellation during startup,
  draining, and the final join.
- **Owned process groups.** `ProcessOwnership.dfy`, `ProcessGroup.dfy` and
  `ProcessGroupStop.dfy`: attribution of group members and the escalation under one
  deadline.
- **Two data migrations**, upgrade and downgrade: `RekeyMigration.dfy` and
  `ReinstallMigration.dfy`.
- **Prompt seeding**: `PromptSeeding.dfy` states the result, `PromptSeeder.dfy` the command.
- **Three algorithms**: `MaxParallel.dfy`, `JsonbUnicode.dfy` and `Redaction.dfy`.

How the models read:

- A protocol is a state machine: `Next` takes one atomic step, `Run` a sequence of steps,
  and the theorems hold after every sequence. A step that is not enabled changes nothing.
- Code that works by assignment is a class or a method with a loop. The environment (clock,
  operating system, database contents changed by others, outcome of a scan) is a
  nondeterministic choice, so a contract holds for every environment.
- The scheduler and the process group code write what they do to a ghost trace. `Legal` and
  `Good` say which traces are allowed, event by event, in terms of the events before; the
  code is proved to produce only such traces, and the promises are lemmas about all of
  them.
- Times are integers (nanoseconds), UUIDs and process ids natural numbers; Python strings
  that may hold surrogates are sequences of code points.

Where the code does less than a reader might expect, the model keeps the code as it is,
shows an input, and proves exactly when the expectation holds:

- `max_parallel` counts starts minus finishes. That is the greatest number of running jobs
  if and only if, at some instant of the greatest overlap, no job that finishes before it
  starts weighs in (`PeakIsMostRunningIff`, with `InvertedRunHidesAnother`).
- The redactor stops at the first variant of a union when a key is literally the
  placeholder. It then answers as for any other undeclared key unless a dictionary hides
  behind another first variant (`UndeclaredIsHidden`, with `PlaceholderKeyEndsUnion`).
- The runbook promises `ready=false` after a failed row. An undisturbed run keeps that
  promise on every database (`FailedRunIsNotReady`). With other writers at work the row
  stays as it is until one of them touches it (`StuckStaysStale`), and a run whose failed
  row is replaced before the counts are read does report ready (`RepairedRunIsReady`).
- The supervisor passes over a task that is being cancelled by someone else. If that
  cancellation is withdrawn, as by an expiring timeout, it is never asked to end
  (`CancellationsAre`, with `WithdrawnIsNotAsked`). The watcher during startup does the same
  (`WatcherCancelsOnce`, with `StopPassesExpiringTimeout`), and if the body withdraws the
  watcher's own request, a later external cancellation is swallowed in its place
  (`ExternalCancellationIsKept`, with `ExternalCancellationTakenForOwn`).

## Model

| member | source | states |
|---|---|---|
| Credentials.ReadyIffNothingStale | app/credential_key_rotation.py:123-167 | `verify`, read off the counts per key id, holds exactly when no row of any table is under a key other than the active one |
| Credentials.CountsAreRows | app/credential_key_rotation.py:123-131 | the counts name exactly the key ids in use in a table, each with the number of its rows |
| RotationPaging.Page | app/credential_key_rotation.py:62-93 | the rows of one page are the visible rows of its ids, in order |
| RotationPaging.PageIds | app/credential_key_rotation.py:62-93 | the ids of one page are the least `limit` of the stale ids above the cursor, unrevoked if Bitbucket, in strictly ascending order |
| RotationPaging.PageIsNextSlice | app/credential_key_rotation.py:62-93 | keyset pagination refines a full ordered scan: a page is the next slice of the one ascending listing |
| RotationProtocol.ReencryptKeepsSecret | app/credential_key_rotation.py:189-223 | resealing yields the same context and plaintext under the active key's material and id |
| RotationProtocol.CasReseals | app/credential_key_rotation.py:95-121 | a successful compare-and-swap changes one envelope and key id, no other column or row, and only if generation, revocation and, for a webhook secret, binding generation are still those that were read |
| RotationProtocol.RunKeepsInv | app/credential_key_rotation.py:95-121 | every interleaving keeps the database equal, up to resealing, to the one in which no rotation ran |
| RotationProtocol.RotationIsInvisible | app/credential_key_rotation.py:169-242 | after any interleaving every row has the other writers' columns and opens, in every context, to what they last wrote |
| RotationProtocol.RotationStepEffect | app/credential_key_rotation.py:169-242 | an operator step, after any run, only replaces an envelope by one that opens alike under the active key, in a row whose generation, binding and revocation are still those that were read: none, for Bitbucket |
| RotationProtocol.SwapIsCounted | app/credential_key_rotation.py:234-241 | in every state a resealed row that is still as it was read is stored under the active key and counted, one that changed is neither, and the operator goes on to the next |
| RotationProtocol.ResealIsCounted | app/credential_key_rotation.py:189-233 | resealing hands the row on with its new envelope, or counts one failure and drops it, and writes nothing |
| RotationProtocol.UndisturbedRowIsRotated | app/credential_key_rotation.py:189-241 | a row that can be resealed and is still as it was read ends under the active key, counted once |
| RotationProtocol.VisitsAscend | app/credential_key_rotation.py:152-188 | whatever interferes, one operator visits ids in strictly ascending order, hence none twice |
| RotationProtocol.StaleNeverGrows | docs/KEY_ROTATION.md:22-83 | once writers use the active keys, no step of anyone adds a row under an old key |
| RotationProtocol.VerifiedStaysVerified | docs/KEY_ROTATION.md:64-83 | once writers use the active keys, a successful verification stays true over every run |
| RotationProtocol.OldKeysCanBeRetired | docs/KEY_ROTATION.md:72-87 | after a run that ends verified, with any keyring that keeps the active keys every row opens, in every context, to what the other writers last wrote |
| RotationRepair.StuckStaysStale | docs/KEY_ROTATION.md:72-80 | in every interleaving a row that cannot be resealed as it stands stays exactly as it is, and verification fails, until another writer touches it |
| RotationRepair.CorruptStaysUntilReplaced | docs/KEY_ROTATION.md:74-80 | an envelope that opens in no context stays until the row is replaced or deleted: neither a patch nor a rebinding helps |
| RotationRepair.UnreadableIsCorrupt | docs/KEY_ROTATION.md:74-80 | bytes that no cipher produced, and a key that no keyring has, open in no context |
| RotationRepair.RepairedRunIsReady | app/credential_key_rotation.py:319-331 | from every database whose one stale row cannot be resealed there is a run that counts a failure and, the credential replaced, is ready |
| RotationResult.CanRotateIff | app/credential_key_rotation.py:189-223 | a row can be rotated exactly when it is sealed under a key of the ring for the context of its kind, spelled out for tokens, webhook secrets and GitLab origins, with a plaintext of the allowed size, and the cipher seals under the configured key |
| RotationResult.SelectableIff | app/credential_key_rotation.py:62-93 | the filters of the paged query, kind by kind: another key id than the active one, unrevoked and with a known repository where Bitbucket demands it |
| RotationResult.ErrorClasses | app/credential_key_rotation.py:189-233 | the logged error is that of the GitLab cipher exactly when a GitLab row with a canonical origin does not open, and a plain value error otherwise |
| RotationResult.AttemptOneMore | app/credential_key_rotation.py:189-241 | an untouched row that can be resealed passes the compare-and-swap guard; any other row stays as it is |
| RotationResult.StaleAfterAttempt | app/credential_key_rotation.py:123-131 | after attempting a set of rows exactly the rotatable ones have left the stale set, and the count falls by their number |
| RotationResult.BudgetCoversQueue | app/credential_key_rotation.py:319-323 | a run reaches every selectable row exactly when its budget of rows covers them |
| RotationResult.TableReadyIff | app/credential_key_rotation.py:319-325 | nothing stale is left in a table exactly when all stale rows fit the budget and can be migrated |
| RotationResult.ReadyIff | app/credential_key_rotation.py:319-331 | an undisturbed run ends ready if and only if, before it, every stale row fits the budget, has a non-nil id, passes the filters and can be resealed |
| RotationResult.ConstrainedStaleIsSelectable | alembic/versions/20261026_0046_bitbucket_connections.py:46-52 | under the check constraints every counted stale row passes the filters of the paged query |
| RotationResult.ReadyIffNoFailure | alembic/versions/20261026_0047_bitbucket_repository_webhooks.py:48-55 | with the constraints, no nil id and enough budget, ready exactly when no row failed |
| RotationResult.RevokedWithKeyIsNeverReady | app/credential_key_rotation.py:123-131 | without the revocation constraint one revoked row with an old key keeps every run from being ready |
| RotationResult.FailureIsNeverReady | docs/KEY_ROTATION.md:74-80 | an undisturbed run that failed on a row is not ready, whatever the constraints and the budget |
| RotationResult.SecondRunIsIdle | docs/KEY_ROTATION.md:55-60 | a run on a ready database selects nothing and changes nothing |
| RotationResult.RunKeepsConstraints | app/credential_key_rotation.py:95-121 | the table constraints survive a run |
| KeyRotation.Operator.constructor | app/credential_key_rotation.py:134-154 | a fresh operator starts at the nil id with an empty failure log |
| KeyRotation.Operator.Swap | app/credential_key_rotation.py:95-121 | on whatever the table holds by then, the update counts one row exactly if it is still as read, and changes nothing otherwise |
| KeyRotation.Operator.RotateRow | app/credential_key_rotation.py:189-241 | one row is rotated or logged, and the batch so far is the closed form of what was attempted |
| KeyRotation.Operator.RotateRows | app/credential_key_rotation.py:189-242 | the loop attempts every row of the page in order, with the failures in order |
| KeyRotation.Operator.RotateBatch | app/credential_key_rotation.py:169-242 | refuses sizes outside 1 to 500; else attempts exactly the next page, moves the cursor to its end, updates plus new failures make up the page, and the stale count falls by the updates |
| RotationRun.CandidatesAfterCursor | app/credential_key_rotation.py:62-93 | above the cursor the rotated table still offers exactly the rest of the original queue |
| RotationRun.NextPage | app/credential_key_rotation.py:62-93 | after any number of batches the next page is the next slice of the original queue |
| RotationRun.BatchExtendsProgress | app/credential_key_rotation.py:169-242 | one batch extends the attempted prefix of the queue by its size |
| RotationRun.AnotherBatch | app/credential_key_rotation.py:321-323 | a batch of one kind advances that kind only, and failures plus updates stay equal to rows attempted |
| RotationRun.RunRound | app/credential_key_rotation.py:321-323 | a round advances every kind by one batch |
| RotationRun.RunRounds | app/credential_key_rotation.py:320-323 | k rounds of size b attempt exactly the first k*b stale rows of every table in id order, with the failures logged round by round, kind by kind |
| RotationRun.ProgressIsRunResult | app/credential_key_rotation.py:320-323 | the attempted prefixes are the closed form of a run, with the counts of rotated rows |
| RotationRun.FailuresAddUp | app/credential_key_rotation.py:326-331 | the failure count is the number of rows reached that cannot be rotated |
| RotationRun.Execute | app/credential_key_rotation.py:283-334 | the `run` command: refusal of bad parameters, the closed form of the database after it, exact update counts, the failures in the order met with the first hundred in detail, the counts per key, `ready` as the counts say, and success exactly when no row failed, which ready implies |
| RotationRun.RunReadyIffNoFailures | app/credential_key_rotation.py:319-331 | with the constraints, no nil id and enough budget, `run` reports ready exactly when its failure count is zero |
| RotationRun.FailedRunIsNotReady | docs/KEY_ROTATION.md:74-80 | a run that counts a failure does not report ready, with no condition on the database |
| SweepSchedule.NearestIsGreatestLowerBound | app/webhook_worker.py:310-312 | the minimum over the future cooldowns is a lower bound and one of its arguments |
| SweepSchedule.TimeoutIsLongest | app/webhook_worker.py:310-314 | the computed timeout is the longest sleep within the poll interval, the next maintenance and every future cooldown |
| SweepSchedule.LapsedCooldownIsIgnored | app/webhook_worker.py:310-312 | a cooldown that has lapsed when the sleep starts does not shorten it |
| SweepSchedule.TurnsInOrder | app/webhook_worker.py:285-296 | in every run turns come round by round and, within a round, in provider order |
| SweepSchedule.CooldownIsKept | app/webhook_worker.py:289-295 | whatever hints arrive, a provider is not scanned within a poll interval after a scan of it that crashed or reported an error was over |
| SweepSchedule.SkipIsJustified | app/webhook_worker.py:290-291 | a provider is skipped only while the cooldown of one of its own failed scans runs |
| SweepSchedule.Fair | app/webhook_worker.py:285-296 | between two scans of a provider in consecutive rounds every other provider is scanned at most once |
| SweepSchedule.TurnWasTaken | app/webhook_worker.py:289-296 | every provider has its turn in every finished round |
| SweepSchedule.HealthyIsScanned | app/webhook_worker.py:289-296 | a provider is scanned in every finished round before which none of its scans failed |
| SweepSchedule.TimeAscends | app/webhook_worker.py:285-314 | the times of a run ascend |
| SweepSchedule.LapsedIsScannedNext | app/webhook_worker.py:289-314 | a provider skipped while it cools, whose cooldown has lapsed when the sleep starts, sleeps at most one poll interval and is scanned in the next round |
| SweepSchedule.MaintenanceIsHourly | app/webhook_worker.py:301-306 | maintenance passes are at least 3600 s apart |
| SweepSchedule.MaintenanceCoversEveryone | app/webhook_worker.py:301-306 | the calls of every pass are exactly one purge of each provider, cooling or not, and a revival of those with a reviver, all before its end |
| SweepSchedule.IdleIsJustified | app/webhook_worker.py:301-306 | a round goes without maintenance only within an hour of an earlier pass |
| SweepSchedule.SleepIsBounded | app/webhook_worker.py:307-314 | every sleep follows a round without a full batch, ends within the poll interval, by the next maintenance and by each cooldown still ahead, and is the longest that does |
| SweepSchedule.Sweeper.constructor | app/webhook_worker.py:282-284 | no cooldown runs and maintenance is due at the start |
| SweepSchedule.Sweeper.TakeTurn | app/webhook_worker.py:289-296 | one legal turn: skip while cooling, else scan exactly once; the recorded result is what the scan answered, a crash or a reported error starts the cooldown at the end, and a full batch is remembered |
| SweepSchedule.Sweeper.Refresh | app/webhook_worker.py:297-300 | the rules are refreshed if there is a refresher, and a count of exactly 20 asks for another round at once |
| SweepSchedule.Sweeper.CallEveryone | app/webhook_worker.py:302-305 | the calls of a maintenance pass, provider by provider, are those answered |
| SweepSchedule.Sweeper.Maintenance | app/webhook_worker.py:301-306 | maintenance runs exactly when due, with all its calls, and is due again an hour after its end |
| SweepSchedule.Sweeper.Rest | app/webhook_worker.py:307-314 | another round at once exactly after a full batch, else a sleep with the computed timeout |
| SweepSchedule.Sweeper.Round | app/webhook_worker.py:285-314 | one iteration is one complete legal round |
| SweepSchedule.Sweeper.Sweep | app/webhook_worker.py:285-314 | any number of rounds is a legal run |
| SweepSchedule.SweepProviders | app/webhook_worker.py:272-314 | an interval that is not positive is refused; else every run is legal |
| WakeProtocol.NextKeepsInv | app/bootstrap/webhook_work_listener.py:21-35 | every step of writers, bridge and sweeper keeps that news since the last clear is flagged, under way, or will be flagged by the reconnect |
| WakeProtocol.RunKeepsInv | app/webhook_worker.py:285-314 | the same over every interleaving |
| WakeProtocol.TurnsTell | app/webhook_worker.py:289-296 | after every run the turn on record of each provider is the last one its steps show, with the time its scan started and what it returned |
| WakeProtocol.CommitsAreRecorded | app/bootstrap/webhook_work_listener.py:21-35 | no commit of a run goes unrecorded |
| WakeProtocol.BlocksUnlessFull | app/webhook_worker.py:297-314 | a finished round goes on at once exactly if the rules refresh or some scan came back full, and blocks otherwise, the flag untouched |
| WakeProtocol.BlockedStartsAgain | app/webhook_worker.py:285-314 | a blocked sweeper starts a fresh round, with the flag cleared, when the flag is set or a deadline passes |
| WakeProtocol.NoLostWakeup | app/webhook_worker.py:285-314 | told by the steps of the run alone: when the sweeper is blocked, the flag clear, the bridge past its set and nothing undelivered, the last turn of every provider was a skip, a failed scan, or a scan short of a full batch that started after every commit of a receipt of that provider |
| WakeProtocol.QuietIsReachable | app/webhook_worker.py:285-314 | from every start there is a run that ends at rest with all providers drained, so the statement above is about states that occur |
| WakeProtocol.HintReachesSweeper | app/bootstrap/webhook_work_listener.py:26-30 | from every reachable blocked state with news, at most two steps of the bridge let the sweeper wake |
| SignalOwner.NextKeepsInv | app/bootstrap/worker_shutdown.py:36-59 | every uninterruptible stretch keeps the ownership invariant |
| SignalOwner.RunKeepsInv | app/bootstrap/worker_shutdown.py:23-59 | so does every order of signals, bind, loop turns and closing |
| SignalOwner.StopReachesEvent | app/bootstrap/worker_shutdown.py:36-59 | exactly one timer is started if and only if a stop was requested before closing, its exit status is that of the first signal, and a bound event is set by the next loop turn exactly then; closing disarms the timer and restores the handlers |
| SignalOwner.RepeatedSignalIsIgnored | app/bootstrap/worker_shutdown.py:41-52 | once stopping or closed, a further signal changes nothing |
| SignalOwner.SignalOwnership.Bind | app/bootstrap/worker_shutdown.py:36-39 | an uninterrupted bind is three steps of the machine |
| SignalOwner.SignalOwnership.RequestStop | app/bootstrap/worker_shutdown.py:41-52 | an uninterrupted handler is three steps of the machine |
| SignalOwner.SignalOwnership.Close | app/bootstrap/worker_shutdown.py:54-59 | closing is one step of the machine |
| StartupCancellation.RunKeepsInv | app/bootstrap/worker_shutdown.py:78-106 | every order of stop, readiness, external cancellations, withdrawals and exits keeps the outstanding cancellations right |
| StartupCancellation.WatcherCancelsOnce | app/bootstrap/worker_shutdown.py:88-93 | the watcher cancels its parent at most once, and a step does so exactly when it wakes after a stop with the body not ready and no cancellation in progress |
| StartupCancellation.WatcherCancelsInTime | app/bootstrap/worker_shutdown.py:88-93 | told by the steps alone: the watcher never cancels without a stop before it, nor after readiness was reported |
| StartupCancellation.ExitIsTheBodys | app/bootstrap/worker_shutdown.py:95-106 | told by the steps alone: the way out is normal exactly when the body returned, the error exactly when it failed, swallowed exactly when the watcher cancelled and one cancellation was outstanding; a cancellation that breaks the final gather is raised instead |
| StartupCancellation.OnlyOwnCancellationIsSwallowed | app/bootstrap/worker_shutdown.py:78-106 | a cancellation is swallowed exactly when the watcher cancelled and one cancellation is outstanding; while the watcher's own is, that means nobody else's is |
| StartupCancellation.ExternalCancellationIsKept | app/bootstrap/worker_shutdown.py:98-102 | an outstanding cancellation by anyone else is reraised unless it is the only one and the body withdrew the watcher's; one that arrives in the final gather always is |
| StartupCancellation.ExternalCancellationTakenForOwn | app/bootstrap/worker_shutdown.py:98-102 | the exception happens: an external cancellation is swallowed in place of the withdrawn one |
| StartupCancellation.StopPassesExpiringTimeout | app/bootstrap/worker_shutdown.py:88-93 | a stop that arrives while a timeout of the body expires passes startup by |
| StartupCancellation.IgnoredRequestStaysCounted | app/bootstrap/worker_shutdown.py:88-102 | a body that ends although the watcher cancelled it leaves that request counted, unless it withdrew it |
| ShutdownSupervisor.Loop.CancelOnce | app/common/infrastructure/task_cancellation.py:8-10 | a finished task and a cancellation in progress are left alone |
| ShutdownSupervisor.Loop.CancelEach | app/bootstrap/worker_shutdown.py:119-120 | every task of the list that is neither done nor being cancelled gets one cancellation, and no other |
| ShutdownSupervisor.CancelledAreAsked | app/bootstrap/worker_shutdown.py:119-125 | right after each round of cancellations every listed task is done or has a cancellation on it |
| ShutdownSupervisor.CancellationsAre | app/bootstrap/worker_shutdown.py:109-133 | in every schedule a listed task gets the supervisor's cancellation exactly when it is neither done nor being cancelled at that moment: background tasks at the stop, consumers at the end of the drain wait, nobody else |
| ShutdownSupervisor.CancelledAtMostOnce | app/bootstrap/worker_shutdown.py:109-133 | at most one cancellation for a task on one list, of a background task at the stop, of a consumer only after the drain timeout |
| ShutdownSupervisor.WithdrawnIsNotAsked | app/bootstrap/worker_shutdown.py:119-125 | a background task whose timeout expires as the stop arrives is passed over and ends without being asked |
| ShutdownSupervisor.SuperviseShutdown | app/bootstrap/worker_shutdown.py:109-133 | in every schedule, withdrawn cancellations included: background tasks are cancelled at the stop, consumers when all are done or the drain timeout has passed, and it returns only when all are done; it warns exactly when some outlive the wait that ends 30 s after the stop, with their number; no consumers at all is an error after the first round |
| ShutdownSupervisor.JoinAll | app/bootstrap/worker_shutdown.py:126-133 | returns only when every task of the set is done; it waits once if any is not, and again after a warning, which says how many are left, exactly when the deadline passed first |
| CleanupJoin.FinishCleanup | app/bootstrap/worker_shutdown.py:144-170 | under any number of caller cancellations it leaves only when the cleanup task is done, raises the first cancellation, and raises a cleanup error exactly when there is neither a prior error nor an interruption |
| ProcessOwnership.ProveRetained | scripts/gitlab_network_proof_launcher.py:153-158 | fails exactly when a retained pid has another birth, else proves the retained live members |
| ProcessOwnership.Spread | scripts/gitlab_network_proof_launcher.py:159-165 | the closure loop ends, and proves all live members exactly when each has a parent chain inside the group to a root |
| ProcessOwnership.Attribute | scripts/gitlab_network_proof_launcher.py:149-167 | succeeds if and only if the group is owned, and then adds the live members |
| ProcessOwnership.RetentionOnlyGrows | scripts/gitlab_network_proof_launcher.py:128-170 | over any sequence of observations the members only grow and no pid is bound to another birth |
| ProcessOwnership.OwnedIsStable | scripts/gitlab_network_proof_launcher.py:128-170 | an owned group is owned again after its members were retained |
| ProcessGroup.World.Remaining | scripts/gitlab_network_proof_launcher.py:109-113 | the time left is positive, or the deadline has passed |
| ProcessGroup.World.Identity | scripts/gitlab_network_proof_launcher.py:116-125 | the probe follows a clock reading before the deadline, lasts at most 2 s and no longer than the time left, and its answer counts only if the deadline has not passed then |
| ProcessGroup.Births | scripts/gitlab_network_proof_launcher.py:148-148 | every listed member is asked for its birth and exactly those with one are current |
| ProcessGroup.Observe | scripts/gitlab_network_proof_launcher.py:135-148 | the listing counts only if it arrives in time, then every listed member and no other is probed; every failure has its reason |
| ProcessGroup.RetainOwned | scripts/gitlab_network_proof_launcher.py:128-170 | success means the freshly listed group is owned by the members retained so far, and exactly its live members are added to them; refusal means it is not; every failure, a passed deadline included, leaves the record untouched and has its reason |
| ProcessGroup.KnownOnlyGrows | scripts/gitlab_network_proof_launcher.py:149-169 | over a whole run members are only added and keep their births, unless the child is identified in between |
| ProcessGroup.MembersHaveOrigin | scripts/gitlab_network_proof_launcher.py:128-183 | every member was retained at the start, is the identified child, or was live in a group owned by the members before it |
| ProcessGroup.SignalledGroupIsOwned | scripts/gitlab_network_proof_launcher.py:217-233 | a signalled group was, just before, observed to be owned by the members retained at that moment, and each live member was seen in it |
| ProcessGroup.WaitsStayInPhase | scripts/gitlab_network_proof_launcher.py:234-248 | after the first, second and third signal the group is watched for 8, 4 and 3 s or until the deadline; every wait follows a clock reading in the phase and is given no more than what is then left of it |
| ProcessGroupStop.IdentifyChild | scripts/gitlab_network_proof_launcher.py:173-183 | a live child is retained only with a birth and a group seen just before, still unreaped in between; a failure or an exited child changes nothing |
| ProcessGroupStop.ReapChild | scripts/gitlab_network_proof_launcher.py:186-199 | the direct child gets a prefix of the three signals, each just after it was polled alive and before the deadline, all of them if it survives, and the group none; the exit is recorded in every case |
| ProcessGroupStop.CheckGroup | scripts/gitlab_network_proof_launcher.py:224-227 | success means every observed member was seen in the group since the verdict |
| ProcessGroupStop.Strike | scripts/gitlab_network_proof_launcher.py:224-233 | one signal to a group just attributed and checked, or a failure with its reason |
| ProcessGroupStop.WaitForChild | scripts/gitlab_network_proof_launcher.py:239-241 | a child that has exited is not waited for; one that has not is, once, unless the deadline has passed |
| ProcessGroupStop.LookOnce | scripts/gitlab_network_proof_launcher.py:236-248 | one round of the watch: the group is still there only if the phase was over before it began or it was just observed alive |
| ProcessGroupStop.WatchPhase | scripts/gitlab_network_proof_launcher.py:234-248 | ends on an empty observation, on a failure with its reason, or when the phase or the deadline is over, and then the group was seen alive at every observation of the phase |
| ProcessGroupStop.Escalate | scripts/gitlab_network_proof_launcher.py:217-248 | one level sends the signal of its number at most once, and gives up on the group only after its whole phase, in which it was seen alive at every look |
| ProcessGroupStop.EscalateAll | scripts/gitlab_network_proof_launcher.py:217-249 | the group gets a prefix of INT, TERM, KILL, and survives only after all three and their phases, alive at every look since it was last struck |
| ProcessGroupStop.IdentifyOrReap | scripts/gitlab_network_proof_launcher.py:211-216 | a child that cannot be identified is reaped and the failure kept, with no signal to the group; a child that outlives that fails the call in its place |
| ProcessGroupStop.TakeDown | scripts/gitlab_network_proof_launcher.py:217-249 | an empty observation is success, a broken phase its failure, and survival of the whole escalation a timeout |
| ProcessGroupStop.StopKnown | scripts/gitlab_network_proof_launcher.py:211-249 | a child of which nothing is known is identified before the group is judged or signalled |
| ProcessGroupStop.StopOwned | scripts/gitlab_network_proof_launcher.py:202-249 | signals only after a founded verdict against the members retained from the start of the call on, and a check of every member, in order and at most once each; every probe, wait and signal follows a clock reading before the deadline; empty exactly when it returns normally, on an empty observation; every failure has its reason, survival of the group only after all signals with the group seen alive since; the record ends with what the run taught it |
| RekeyMigration.FirstRun | alembic/versions/20260928_0016_rekey_review_blobs.py:28-33 | a diff goes to the run of its code change and head that was created first, the least id among those, and to none exactly if there is none |
| RekeyMigration.OneRowPerPair | alembic/versions/20260928_0016_rekey_review_blobs.py:28-44 | the upgrade yields exactly one row per pair of a run and an old diff of the same code change and head, carrying that diff |
| RekeyMigration.UpgradeIsUniquePerRun | alembic/versions/20260928_0016_rekey_review_blobs.py:58-60 | from the old uniqueness follows the new one on run and filename |
| RekeyMigration.SnapshotIff | alembic/versions/20260928_0016_rekey_review_blobs.py:45-48 | a run gets a snapshot timestamp exactly when some old diff matched it |
| RekeyMigration.DowngradeIsUniquePerHead | alembic/versions/20260928_0016_rekey_review_blobs.py:171-186 | the downgrade restores the old uniqueness from any table unique per run and filename |
| RekeyMigration.DowngradeKeepsFiles | alembic/versions/20260928_0016_rekey_review_blobs.py:171-178 | for every row before the collapse a row with its code change, head and filename is left |
| RekeyMigration.LeastRunStays | alembic/versions/20260928_0016_rekey_review_blobs.py:173-178 | of every file the copy of the least run id stays |
| RekeyMigration.RoundTrip | alembic/versions/20260928_0016_rekey_review_blobs.py:28-186 | upgrade then downgrade gives back exactly the original relation, minus diffs that no run matches |
| RekeyMigration.RoundTripKeepsId | alembic/versions/20260928_0016_rekey_review_blobs.py:28-186 | a row id survives the round trip exactly when the earliest matching run also has the least id |
| RekeyMigration.ReviewTables.Upgrade | alembic/versions/20260928_0016_rekey_review_blobs.py:20-60 | the four statements in order give the declarative result and the new key |
| RekeyMigration.ReviewTables.Downgrade | alembic/versions/20260928_0016_rekey_review_blobs.py:171-187 | the collapse and the dropped columns give the declarative result and the old key |
| RekeyMigration.ReviewTables.UpgradeAndDowngrade | alembic/versions/20260924_0008_add_code_change_diff_snapshots.py:34-34 | both ways in place: the old key and the old relation come back, minus diffs without a run |
| ReinstallMigration.UpgradeDerivesAvailability | alembic/versions/20261010_0029_app_reinstall_identity.py:37-78 | the new columns in terms of the old database: deleted at the whole-installation revocation; unavailable exactly when retired, or disabled with a revocation no later grant answers; nothing else changes |
| ReinstallMigration.AvailableUnlessRetired | alembic/versions/20261010_0029_app_reinstall_identity.py:52-78 | an enabled repository, and one granted again, is unavailable only if its installation is retired |
| ReinstallMigration.DowngradeFoldsBack | alembic/versions/20261010_0029_app_reinstall_identity.py:81-90 | on every database a repository ends enabled exactly where it was both enabled and available, and nothing else but the dropped columns changes |
| ReinstallMigration.RoundTrip | alembic/versions/20261010_0029_app_reinstall_identity.py:37-90 | upgrade then downgrade changes nothing except that repositories of a wholly revoked GitHub installation end disabled |
| ReinstallMigration.SelectedRevocationsDoNotMatter | alembic/versions/20261010_0029_app_reinstall_identity.py:55-83 | revocations of selected repositories, and grants, never flip a preference over the round trip |
| ReinstallMigration.InstallationTables.Upgrade | alembic/versions/20261010_0029_app_reinstall_identity.py:37-78 | the two updates in order derive both columns as the old database determines them, although the second reads what the first wrote |
| ReinstallMigration.InstallationTables.Downgrade | alembic/versions/20261010_0029_app_reinstall_identity.py:81-90 | the fold-back and the dropped columns give the declarative result in the old shape |
| PromptSeeding.SeedingKeepsRows | app/bootstrap/seed_prompts.py:95-101 | no stored content or checksum changes, no row disappears, and keys that are not seeded are untouched |
| PromptSeeding.SeedingInsertsAssets | app/bootstrap/seed_prompts.py:112-122 | a version not stored before gets the content and the checksum of its asset |
| PromptSeeding.SeedingActivatesNewest | app/bootstrap/seed_prompts.py:129-143 | exactly the newest known version of a seeded key is active, and every key has at most one active row |
| PromptSeeding.SeedingKeepsChecksumsUnique | app/bootstrap/seed_prompts.py:107-127 | the uniqueness of checksums survives |
| PromptSeeding.SeedingComposes | app/bootstrap/seed_prompts.py:95-144 | seeding one set after another gives what seeding them together gives |
| PromptSeeding.SeedingCommutes | app/bootstrap/seed_prompts.py:95-144 | compatible sets give the same table in either order |
| PromptSeeding.SeedingIsIdempotent | app/bootstrap/seed_prompts.py:95-144 | seeding again changes nothing |
| PromptSeeding.SeedableComposes | app/bootstrap/seed_prompts.py:107-127 | two compatible sets can be seeded one after another exactly when they can be seeded together |
| PromptSeeder.GroupByKey | app/bootstrap/seed_prompts.py:103-105 | every key once, in order of appearance, with exactly its assets in order |
| PromptSeeder.Scan | app/bootstrap/seed_prompts.py:110-127 | fails exactly when a stored version has another checksum, else gives the assets not stored yet |
| PromptSeeder.NewestVersion | app/bootstrap/seed_prompts.py:129-129 | the newest version known from the table and the assets |
| PromptSeeder.AcceptedIsSeedable | app/bootstrap/seed_prompts.py:107-127 | an accepted list names every version with one content, so the declarative result is defined |
| PromptSeeder.AcceptsNextKey | app/bootstrap/seed_prompts.py:107-127 | seeding other keys first does not change whether a key is accepted |
| PromptSeeder.StatementsSeed | app/bootstrap/seed_prompts.py:129-143 | insert, deactivate and activate together give the declarative result |
| PromptSeeder.PromptTable.Insert | app/bootstrap/seed_prompts.py:112-122 | an insert succeeds exactly when neither its version nor its checksum is stored, and adds an inactive row |
| PromptSeeder.PromptTable.Deactivate | app/bootstrap/seed_prompts.py:134-138 | the first statement keeps at most one active row per key |
| PromptSeeder.PromptTable.Activate | app/bootstrap/seed_prompts.py:139-143 | so does the second, after the first |
| PromptSeeder.PromptTable.Flush | app/bootstrap/seed_prompts.py:112-138 | the pending rows are all inserted exactly when none clashes with a stored or an earlier one |
| PromptSeeder.PromptTable.SeedKey | app/bootstrap/seed_prompts.py:107-143 | for one key: accepted exactly when nothing stored changes and nothing clashes, then the declarative result and the number of new rows |
| PromptSeeder.PromptTable.Seed | app/bootstrap/seed_prompts.py:95-144 | the whole command: success exactly when accepted, then the declarative result and the number of new rows; on failure nothing changes |
| MaxParallel.SortIsSorted | scripts/parallel_runs_load.py:343-344 | the events are put in tuple order, finishes first at equal times, and none is lost |
| MaxParallel.NetIsPrefixSum | scripts/parallel_runs_load.py:343-346 | the count at any instant is one the sweep goes through |
| MaxParallel.StartPrefixBelowNet | scripts/parallel_runs_load.py:343-346 | after each start the running count is at most the count at that instant |
| MaxParallel.Sweep | scripts/parallel_runs_load.py:343-347 | the peak of the sweep is the greatest excess of starts over finishes at one instant |
| MaxParallel.NetIsRunningLessInversions | scripts/parallel_runs_load.py:338-342 | at every instant starts minus finishes is the number of running jobs minus the inverted ones around it |
| MaxParallel.PeakIsMostRunningIff | scripts/parallel_runs_load.py:335-347 | the peak is the greatest number of running jobs if and only if some instant of the greatest overlap has no inverted job around it, or nothing ever runs |
| MaxParallel.MaxParallel | scripts/parallel_runs_load.py:335-347 | for all rows the greatest excess of starts over finishes; exactly when it is the greatest number of half-open intervals covering one instant, ties and empty runs included; always if no run finishes before it starts |
| MaxParallel.InvertedRunHidesAnother | scripts/parallel_runs_load.py:335-347 | a run that finishes before it starts hides another |
| JsonbUnicode.GoodIffClean | app/main.py:560-571 | checking by structure is checking every path into the value |
| JsonbUnicode.ExpandingShrinks | app/main.py:567-569 | replacing an object by its keys and values makes the worklist smaller |
| JsonbUnicode.ValidateJsonbUnicode | app/main.py:560-571 | the worklist ends, and accepts exactly the values in which no string and no key at any depth holds NUL or a surrogate |
| Redaction.SegmentIsFirstMatch | app/main.py:345-365 | nested unions and annotations amount to a linear search: of the alternatives consulted the first that settles the segment decides; all are consulted, except that the placeholder consults the leftmost only |
| Redaction.PlaceholderTakesLeftmost | app/main.py:349-354 | a key that is literally the placeholder is answered by the leftmost alternative |
| Redaction.ShownIffDeclaredFirst | app/main.py:345-365 | a segment is shown exactly when the first consulted alternative that settles it is not a dictionary, or it is the placeholder anyway |
| Redaction.SegmentIsExplained | app/main.py:345-365 | every answer is the placeholder, or comes from an alternative that declares the segment or hides a dictionary key |
| Redaction.UndeclaredIsHidden | app/main.py:345-365 | undeclared segments become the placeholder, and two of them get the same answer if and only if both or neither is the placeholder, or no dictionary hides behind another first variant |
| Redaction.PlaceholderKeyEndsUnion | app/main.py:349-354 | a plain variant before a dictionary is such an annotation |
| Redaction.FoundIsDeclared | app/main.py:328-342 | an annotation that is found belongs to a parameter of that alias in the dependency tree |
| Redaction.DeclaredIsFound | app/main.py:328-342 | with annotations everywhere no declared parameter is missed |
| Redaction.ParametersAreShown | app/main.py:328-392 | each of the five sources goes by its name, and a declared path, query, header or cookie parameter is shown under its own |
| Redaction.ContainersLead | app/main.py:356-361 | what a list index and a dictionary key lead to, missing arguments included |
| Redaction.FieldIsShown | app/main.py:362-365 | the first field that goes by a name or alias is shown and followed |
| Redaction.WalksStart | app/main.py:373-392 | a body is walked from its annotation; under an unknown parameter nothing at all is shown |
| Redaction.RedactedIsJustified | app/main.py:368-392 | every shown element of a location was declared by the schema along the path before it: a parameter alias, a field name or alias, or a list index |
| Redaction.HiddenSegmentLeavesNoTrace | app/main.py:368-392 | replacing one undeclared segment by another changes nothing in the redacted location, the placeholder included where no dictionary hides behind another first variant |
| Redaction.SafeValidationLocation | app/main.py:368-392 | the fallbacks for a missing or unknown source and for no route, else the redacted location, justified element by element |

## Left out

- `scripts/webhook_ack_load.py`: exact-size bodies, percentile and fail-fast counters would only add easy members.
- HTTP routes, DTO mapping and settings validation: field copying and independent range checks.
- Composition roots and the remaining migrations: wiring and plain column, index and constraint changes; two migrations serve as the source of table constraints.
- The `dry-run` and `verify` commands of the rotation tool beyond `Ready`: they print counts.
- Cryptography: an envelope is ideal, it opens only with its own key, key id and context; the nonce is a parameter.
- RotationProtocol.RunKeepsInv: every process has the same keyrings, as the runbook demands; only the active key may differ between processes.
- PostgreSQL: every statement is one atomic step; `updated_at` columns are not modelled.
- RotationRun.Execute: configuration errors and the database connection are not modelled; the refusal of bad parameters is.
- StartupCancellation.RunKeepsInv: withdrawals are made by the body itself, not by other tasks on its behalf.
- WakeProtocol.HintReachesSweeper: says that the bridge can bring the hint in two steps, not that the operating system schedules it.
- SweepSchedule.Sweeper.Rest: a timer fires when it is due, without the delay of a busy event loop; telemetry and log text are not modelled.
- SignalOwner.StopReachesEvent: the process timer is a flag; that it ends the process after its delay is not modelled.
- ProcessGroup.RetainOwned: the text format of `ps` is not modelled; a listing is a map from pid to parent pid, and a pid occurs in it once.
- ProcessGroup.World.Identity: the default deadlines of calls without one are not modelled.
- RekeyMigration.OneRowPerPair: the md5 row ids are assumed distinct from each other and from the old ids; the columns of the same migration that only describe a file, and the cached blobs it discards, are not modelled.
- PromptSeeder.PromptTable.Seed: the checksum is assumed to identify the content within one list of assets; reading assets from files is not modelled.
- MaxParallel.MaxParallel: times are exact; not-a-number values are not modelled.
- Redaction.SafeValidationLocation: a location holds integers and strings only; annotations are the forms the code distinguishes, everything else is one case.
- JsonbUnicode.ValidateJsonbUnicode: the values are those of a JSON parser, so keys are strings.
