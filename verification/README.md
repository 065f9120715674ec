# Verified model of the background protocols of a support platform

A Dafny model of the parts of the platform in which correctness depends on several programs touching the
same rows at the same time:

- the transactional **outbox**: events are rows; workers claim them under leases, deliver them through an
  in-process bus with a "handler already done" ledger and acknowledge them, while operators retry, cancel,
  replay and purge the same rows;
- **report jobs**: runs fenced by their start time, the uploaded file each run owns, keyset paging, grouped
  counts and the CSV printer;
- **refresh-token families**: rotation against logout, revoke-all, reuse detection and cleanup;
- **ticket numbering** with a daily cap under a row lock, **webhook** claims with a fresh id per claim,
  once-per-minute **scheduler** locks, and the two-way **room index**.

## How it is modelled

Each protocol has a `State`, an `Action` for every statement somebody can execute, `Enabled`, `Apply`, and runs
(`IsRun`). Any number of workers, requests and operators interleave at the grain of single database
statements; replies may be lost, a statement may take effect although its reply is lost, and a worker may stop
at any point. The main results are about every state of every run.

Code that changes things step by step is imperative here too. The classes that own their data (`OutboxRepository`,
`HandlerLedger`, `InProcessEventBus`, `RoomManager`, the platform operations) are classes whose methods are
proved against functions of the old state. The services that share a database (`OutboxProcessor`,
`OutboxWorker`, `ReportService`, token rotation, `createTicket`, webhook processing, `SchedulerService`) are methods
over a shared system object: before each own step, the rest of the world acts as an arbitrary script says
(`Surroundings`), and everything that happens is appended to one run of the protocol. So what is proved of runs
holds for what these methods do, and each method states exactly which steps it took itself (`Log`, `Tally`) and
which state decided its result. The system objects start in an initial state, so the invariants hold after every call
(`Safe`), and the main methods state what follows from them.

Clocks, generated ids, query order where the program leaves it open, handler outcomes and lost replies are
parameters. Times are integers in milliseconds. One statement reads one clock value, except that the two
statements of an outbox claim read the clock separately.

| files | subject |
|---|---|
| `retry_backoff.dfy`, `handler_keys.dfy`, `outbox_*.dfy`, `event_bus.dfy`, `platform_operations.dfy` | outbox |
| `report_*.dfy` | report jobs |
| `refresh_tokens.dfy`, `token_service.dfy` | refresh tokens |
| `tickets.dfy`, `ticket_service.dfy` | ticket numbers and the daily cap |
| `webhooks.dfy`, `webhook_service.dfy` | webhook events |
| `scheduler.dfy`, `scheduler_service.dfy` | scheduled jobs |
| `rooms.dfy` | real-time rooms |

## What does not hold, and exactly when it does

Unless said otherwise, each failure of a protocol below is reached by a run from the empty store.

- **Attempts can pass `maxAttempts`, without bound.** The two statements of `claimBatch` read the clock
  separately; a lease that runs out between them lets an exhausted row be claimed again
  (`SplitClockReadingsExceedLimit`). A claim keeps the limits of every table if and only if its second
  statement reads no later time than its first (`ReadingsSafeIff`); runs whose claims read one clock, with nothing
  between the two statements, stay within them throughout (`PairedRunsAreExact`).
- **`retryOutbox` can leave a PENDING row without an attempt**: it writes `maxAttempts` from an earlier read
  (`StaleRetryIsReached`). The row has an attempt left if and only if fewer claims than granted attempts came
  between its read and its write (`RetryExactIff`).
- **The worker id is the fence, not the claim.** If one worker ran two batches at once, its older copy would act
  on the newer claim (`OverlappingClaimBreaksAgreement`); the guard of the worker loop is what prevents it, so no
  run of the model reaches this.
- **A handler can complete an event twice although every recording succeeds**, when a lease runs out during a
  delivery (`OverlappingDeliveriesRepeatHandler`). Completions are always those recorded, those whose recording
  failed and those waiting for it (`CompletionsConserved`). A run stays within the bound if and only if the handler
  never completes while an earlier completion is recorded or waiting (`WithinThroughoutIff`), and a state can be
  carried beyond it by started handlers if and only if two workers are past the ledger check, or one has started
  although a completion is recorded (`ExceedsIff`). A PROCESSED event with all recordings made ran a handler exactly
  once under that same condition (`ProcessedExactlyOnceIff`).
- **Unsubscribing can make a handler be skipped that never ran.** Ledger keys name positions, and the next handler
  takes the freed position over, whether registered before or later (`TakenOverPositionIsSkipped`). Whatever is
  registered afterwards, records keep their meaning if and only if unsubscribing removes nothing
  (`UnsubscribeStableIff`).
- **An expired report can stay COMPLETED forever.** Local storage fails to delete a missing file, so a pass that
  deletes and stops before marking is never recovered (`StoppedPassIsReached`). A COMPLETED job can still become
  EXPIRED if and only if a pass is about to mark it, its file is stored, or deletion is idempotent (`CanExpireIff`).
- **A logout can be outlived** (`RotationOutlivesLogout`). A revocation ends the session for every continuation if
  and only if no rotation is between its claim and its mint (`RevocationEndsSessionIff`). Refusing an unusable account
  always ends it, even if the revocation is lost (`DenialEndsFamily`).
- **The daily cap can be exceeded around midnight** by a ticket stamped with an earlier day than the one counted
  (`BackdatedInsertExceedsCap`). A stamp is safe whatever the tenant's tickets are if and only if it does not fall on
  an earlier day, or the cap admits nothing (`StampSafeIff`). The service sets no creation time; that a stamp
  may be earlier, as with a database default taken when the transaction starts, is an assumption.
- **A clock that steps back can make one process attempt an occurrence twice** (`BackwardTickRepeats`). It attempts
  none twice if and only if its ticks never return to a minute of a job after another minute in which the job was
  due (`AttemptedOnceIffNeverRevisits`); the cluster lock still spaces the runs (`OccurrencesApart`).
- **Retrying a dead-lettered replay fails** while another replay of its original is unfinished, and so does taking up a
  skipped webhook replay; these are exactly the refusals (`OutboxReplays.RefusedIff`, `Webhooks.RefusedIff`).
- **Two deliveries can share a ledger key** when event types contain colons: keys are equal if and only if the
  positions and the joined event ids and types are (`HandlerKeyEqualIff`; `ColonInTypeCollides` shows a pair).
- **The ledger outlives the backoff window only up to 177 attempts** (`RetryWindowInsideLedgerTtl`), far above
  what an operator can grant in one retry; the comment in `redis-handler-ledger.ts` states it without a bound.

## Model

| member | source | states |
|---|---|---|
| RetryBackoff.RetryDelayMonotone | src/infrastructure/outbox/outbox.repository.ts:37-43 | the delay never shrinks with the attempt number and equals one hour exactly from attempt 11 on |
| RetryBackoff.RetryDelayMs | src/infrastructure/outbox/outbox.repository.ts:38-43 | every delay lies between 5 seconds and one hour, whatever the attempt number |
| RetryBackoff.TotalBackoffClosedForm | src/infrastructure/outbox/outbox.repository.ts:38-43 | the summed backoff before attempt m is 5000*(2^(m-1)-1) up to m = 11 and linear beyond |
| RetryBackoff.RetryWindowInsideLedgerTtl | src/infrastructure/outbox/redis-handler-ledger.ts:6-7 | the total backoff stays below the seven-day ledger lifetime if and only if m is at most 177 |
| HandlerKeys.HandlerKeyInjective | src/application/event-bus/event-bus.ts:76-76 | two deliveries share a ledger key only if event id, event type and position agree, for colon-free event types and arbitrary event ids |
| HandlerKeys.HandlerKeyEqualIff | src/application/event-bus/event-bus.ts:76-76 | two ledger keys are equal if and only if the positions and the joined event ids and types are |
| HandlerKeys.ValueOfDecimal | src/application/event-bus/event-bus.ts:76-76 | the printed position reads back as the position |
| OutboxSafety.CopyMatchesHeldRow | src/infrastructure/outbox/outbox.repository.ts:139-166 | in every reachable state, a worker's in-flight copy of a row it holds shows the stored attempts, limit and event |
| OutboxSafety.ReportsActOnCurrentClaim | src/infrastructure/outbox/outbox.processor.ts:42-62 | an acknowledgement or failure report that changes the table acts on the claim holding the row, and the dead-letter decision is the one the stored row calls for |
| OutboxSafety.ProcessedMeansAllHandlersRan | src/infrastructure/outbox/outbox.processor.ts:42-46 | no event is PROCESSED unless every handler subscribed to its type has completed for it |
| OutboxSafety.LedgerSoundKept | src/application/event-bus/event-bus.ts:76-82 | no step puts a key into the ledger whose handler did not complete |
| OutboxSafety.AgreementKept | src/infrastructure/outbox/outbox.repository.ts:92-166 | every step of every worker and operator keeps held rows and in-memory copies in agreement |
| OutboxSafety.StepKeepsInv | src/infrastructure/outbox/outbox.repository.ts:57-166 | one step of anyone keeps the whole invariant: row shape, unique event ids, agreement, sound ledger and deliveries |
| OutboxSafety.ReachableStatesAreSafe | src/infrastructure/outbox/outbox.processor.ts:34-65 | the invariant holds in every state of every run from an empty table |
| OutboxSafety.InsertedStay | src/infrastructure/outbox/outbox.repository.ts:57-65 | enqueueing never changes a stored row |
| OutboxSafety.InsertMissingKeeps | src/infrastructure/outbox/outbox.repository.ts:60-64 | skipping duplicates keeps event ids unique and touches no lease, for any batch with any repetitions |
| OutboxSafety.OverlappingClaimBreaksAgreement | src/infrastructure/outbox/outbox.worker.ts:45-65 | a second claim by the worker that already holds the row makes its older copy act on the newer claim: the overlap guard is needed |
| OutboxBounds.BoundKeptIffExact | src/infrastructure/outbox/outbox.repository.ts:79-166 | step lemma: of all steps of workers and operators only a claim of an exhausted row and a retry without an attempt left can break the limits, and each does |
| OutboxBounds.ExactRunsStayBounded | src/infrastructure/outbox/outbox.repository.ts:79-166 | over any run of such steps no row exceeds its limit |
| OutboxBounds.PairedRunsAreExact | src/infrastructure/outbox/outbox.repository.ts:79-132 | in every run from an empty table whose claims and retries read one clock, or one row, without anything between their two statements, attempts never pass the limit and stay below it on PENDING and FAILED rows |
| OutboxBounds.ReadingsSafeIff | src/infrastructure/outbox/outbox.repository.ts:79-113 | sweeping at one clock reading and claiming at another keeps the limits of every table and legal choice if and only if the second reading is not later |
| OutboxBounds.RetryExactIff | src/application/admin/services/platform-operations.service.ts:164-176 | the write of a retry leaves its row an attempt if and only if fewer claims of the row than granted attempts came between the operator's read and write |
| OutboxBounds.SweptClaimIsExact | src/infrastructure/outbox/outbox.repository.ts:79-113 | sweep and claim at one clock reading never pick an exhausted row |
| OutboxBounds.AttemptsCountClaims | src/infrastructure/outbox/outbox.repository.ts:92-98 | over any run a row's attempts advance by exactly the number of claims it received; limits move only by operator retries |
| OutboxBounds.ClaimsPerRowBounded | src/infrastructure/outbox/outbox.repository.ts:92-113 | without retries of it a row is claimed at most as often as its remaining attempts |
| OutboxBounds.WorkerStepsLowerMeasure | src/infrastructure/outbox/outbox.repository.ts:79-166 | every claim, acknowledgement and sweep that touches a row strictly lowers a non-negative measure |
| OutboxBounds.OperatorsLeaveHeldRows | src/application/admin/services/platform-operations.service.ts:164-200 | no operator action changes or deletes a PROCESSING row |
| OutboxBounds.ClaimsAreALeaseApart | src/infrastructure/outbox/outbox.repository.ts:92-109 | two successive claims of a row that stayed PROCESSING are more than the claimant's lease apart |
| OutboxBounds.LeaseIffProcessing | src/infrastructure/outbox/outbox.repository.ts:79-166 | lockedBy and lockedAt are set exactly on PROCESSING rows in every reachable state |
| OutboxBounds.BackoffIsHonoured | src/infrastructure/outbox/outbox.repository.ts:152-166 | a failed row that no operator touched is not claimed before its backoff has passed |
| OutboxBounds.BackoffEnds | src/infrastructure/outbox/outbox.repository.ts:92-166 | after a failure report at t for attempt n, a claim with room left that meets no lock takes the untouched row if and only if t plus the delay for attempt n has come |
| OutboxBounds.FinishedRowsAreFinal | src/infrastructure/outbox/outbox.repository.ts:139-166 | PROCESSED and CANCELLED rows are never changed, only deleted |
| OutboxReplays.OneReplayAtATime | prisma/migrations/20260928000300_platform_operations/migration.sql:7-9 | in every reachable state at most one unfinished row replays any one original |
| OutboxReplays.RefusedIff | src/application/admin/services/platform-operations.service.ts:164-181 | the database refuses a retry if and only if the row is a dead letter whose original another unfinished row replays |
| OutboxBudget.TotalClaimsBounded | src/infrastructure/outbox/outbox.repository.ts:79-132 | without retries the number of claims in a run is at most the attempts left at its start plus the limits of the rows inserted; skipped duplicates count nothing |
| OutboxBudget.PairedClaimsBounded | src/infrastructure/outbox/outbox.repository.ts:79-132 | in a paired run from an empty table without retries, the number of claims is at most the sum of the limits of all rows ever inserted |
| OutboxBudget.BudgetAfterInsert | src/infrastructure/outbox/outbox.repository.ts:57-65 | an enqueue adds exactly the limits of the rows it inserts, whatever the batch repeats |
| OutboxBudget.ClaimsSpendBudget | src/infrastructure/outbox/outbox.repository.ts:92-132 | at every point of such a run, claims made plus attempts still allowed are at most the attempts left at the start plus the limits of the rows inserted so far |
| OutboxBudget.SplitClockReadingsExceedLimit | src/infrastructure/outbox/outbox.repository.ts:79-113 | for every k above 5 there is a run from the empty table in which a row limited to 5 attempts has k attempts |
| OutboxExamples.StaleRetryIsReached | src/application/admin/services/platform-operations.service.ts:164-176 | a run from the empty table in which a retry from an old read leaves a PENDING row with no attempt left |
| OutboxDelivery.LeasedDeliveriesDoNotOverlap | src/infrastructure/outbox/outbox.repository.ts:92-113 | while the deliveries of an event hold their leases, it is not delivered by two workers at once |
| OutboxDelivery.StepKeepsAccount | src/application/event-bus/event-bus.ts:66-83 | every step keeps the account of one handler and event, unless that event's deliveries overlap or that handler's record expires |
| OutboxDelivery.CompletionsBounded | src/application/event-bus/event-bus.ts:37-83 | while deliveries of one event do not overlap and the handler's record of it does not expire, the handler completes it at most once plus the number of its unrecorded completions, whatever happens to other events |
| OutboxDelivery.ProcessedExactlyOnce | src/infrastructure/outbox/outbox.processor.ts:42-61 | under the same condition, a handler of a PROCESSED event none of whose own completions went unrecorded ran exactly once, however often the event was retried, reclaimed or begun late |
| OutboxOverlap.CompletionsConserved | src/application/event-bus/event-bus.ts:66-83 | in every reachable state, with no assumption on overlaps or expiry, completions equal those recorded, those whose recording failed and those waiting in deliveries |
| OutboxOverlap.ExceedsIff | src/application/event-bus/event-bus.ts:76-82 | from a reachable state within the bound, started handlers can exceed it if and only if two workers are past the ledger check, or one has started although a completion is recorded |
| OutboxOverlap.WithinThroughoutIff | src/application/event-bus/event-bus.ts:76-82 | a run stays within the bound throughout if and only if the handler never completes while an earlier completion is recorded or waiting for its recording |
| OutboxOverlap.ProcessedExactlyOnceIff | src/infrastructure/outbox/outbox.processor.ts:42-61 | with no assumption on overlaps, leases or expiry: a handler of a PROCESSED event none of whose recordings failed ran exactly once if and only if it never completed while an earlier completion was recorded or waiting |
| OutboxExamples.OverlappingDeliveriesRepeatHandler | src/application/event-bus/event-bus.ts:66-83 | a run from the empty table in which two overlapping deliveries complete a handler twice and no recording failed |
| OutboxStore.OutboxRepository.EnqueueMany | src/infrastructure/outbox/outbox.repository.ts:57-65 | stored rows stay; with freshly created row ids an entry is inserted if and only if neither a stored row nor an earlier entry has its event id, with its own event, PENDING, no attempt used and a limit of five |
| OutboxStore.OutboxRepository.DeadLetterExhausted | src/infrastructure/outbox/outbox.repository.ts:79-90 | exactly the PROCESSING rows locked longer than the lease ago with no attempt left become DEAD_LETTER with the reason and without a lock; no other row changes |
| OutboxStore.OutboxRepository.ClaimBatch | src/infrastructure/outbox/outbox.repository.ts:73-137 | of the swept table exactly due rows are taken: PENDING or FAILED ones whose time has come and PROCESSING ones whose lease ran out, none that another claim locks, and all of them unless the batch is full; a taken row gets the lease and one attempt more, nothing else changes, and the copies are the earliest rows in delivery order |
| OutboxStore.SelectEarliest | src/infrastructure/outbox/outbox.repository.ts:110-112 | picks the n earliest candidates, in order, each once |
| OutboxStore.OutboxRepository.MarkProcessed | src/infrastructure/outbox/outbox.repository.ts:139-150 | completes the row only if it is PROCESSING and held by the caller |
| OutboxStore.OutboxRepository.MarkFailed | src/infrastructure/outbox/outbox.repository.ts:152-166 | the held row becomes FAILED, or DEAD_LETTER with the start of the error when the caller's copy has no attempt left, and waits for the backoff of that copy; any other row stays |
| OutboxStore.OutboxRepository.DeleteProcessed | src/infrastructure/outbox/outbox.repository.ts:199-212 | deletes up to n PROCESSED rows, those that finished earliest, and reports how many |
| OutboxProcessing.OutboxProcessor.ProcessBatch | src/infrastructure/outbox/outbox.processor.ts:34-65 | one sweep and one claim, then each claimed record is acknowledged or reported failed, unless a failing statement abandons the batch; the worker ends idle, every PROCESSED row had all its handlers completed, and copies agree with the rows they hold |
| OutboxProcessing.OutboxProcessor.DeliverAll | src/infrastructure/outbox/outbox.processor.ts:42-64 | the loop acknowledges or reports every record, or stops at the first failing report |
| OutboxProcessing.OutboxSystem.Safe | src/infrastructure/outbox/outbox.processor.ts:34-65 | after whatever the batch loop and everybody else did, the invariant of the protocol holds |
| OutboxProcessing.OutboxProcessor.DeliverHead | src/infrastructure/outbox/outbox.processor.ts:43-61 | only a delivery in which every handler settled without rejecting is acknowledged, and then every handler of the event has completed; otherwise the record is reported failed or the batch given up |
| OutboxProcessing.OutboxProcessor.ClaimRows | src/infrastructure/outbox/outbox.processor.ts:35-39 | whatever others did before it, a claim statement that takes effect takes exactly due rows of the table it meets, all of them unless the batch is full, and the copies become the worker's only when the reply arrives |
| OutboxProcessing.OutboxProcessor.Publish | src/application/event-bus/event-bus.ts:37-63 | every subscribed handler settles, and the delivery succeeds if and only if none rejected |
| OutboxProcessing.OutboxWorker.Tick | src/infrastructure/outbox/outbox.worker.ts:45-65 | runs one batch, and takes no step at all when stopped, paused or already in flight |
| OutboxProcessing.OutboxWorker.Start | src/infrastructure/outbox/outbox.worker.ts:16-27 | exactly one timer is armed afterwards, however often it is started |
| OutboxProcessing.OutboxWorker.Stop | src/infrastructure/outbox/outbox.worker.ts:30-43 | no timer is armed afterwards |
| EventBus.InProcessEventBus.Publish | src/application/event-bus/event-bus.ts:20-63 | exactly the handlers not recorded as done run; exactly those that reject are reported, in order, and the delivery throws exactly if there is one; without failures all are recorded; the ledger gains nothing else |
| EventBus.InProcessEventBus.RunOnce | src/application/event-bus/event-bus.ts:66-83 | a recorded handler is skipped, any other runs and is then recorded |
| EventBus.InProcessEventBus.Subscribe | src/application/event-bus/event-bus.ts:91-101 | appends to the handlers of that type and of no other |
| EventBus.InProcessEventBus.Unsubscribe | src/application/event-bus/event-bus.ts:103-107 | removes every registration of the handler for that type, keeping the order of the rest |
| EventBus.UnsubscribeStableIff | src/application/event-bus/event-bus.ts:65-107 | whatever is registered afterwards, completion records keep their meaning if and only if unsubscribing removes nothing |
| EventBus.TakenOverPositionIsSkipped | src/application/event-bus/event-bus.ts:65-107 | a handler that takes a freed position over is skipped, without ever having run, for an event recorded before |
| EventBus.KeysOfOneEvent | src/application/event-bus/event-bus.ts:76-76 | handlers of one event never share a key, whatever the event type is |
| EventBus.HandlerLedger.MarkDone | src/infrastructure/outbox/redis-handler-ledger.ts:12-18 | a record counts for seven days and not longer |
| PlatformOperations.PlatformOperationsService.RetryOutbox | src/application/admin/services/platform-operations.service.ts:164-181 | succeeds exactly for FAILED and DEAD_LETTER rows of whose original no other unfinished replay exists, making the row due at once with attempts beyond those used; otherwise nothing changes |
| PlatformOperations.PlatformOperationsService.CancelOutbox | src/application/admin/services/platform-operations.service.ts:183-195 | succeeds exactly for PENDING, FAILED and DEAD_LETTER rows, which become CANCELLED; otherwise nothing changes |
| PlatformOperations.PlatformOperationsService.ReplayOutbox | src/application/admin/services/platform-operations.service.ts:197-237 | succeeds exactly for a PROCESSED, DEAD_LETTER or CANCELLED original of which no unfinished replay exists; the new row carries the same event under a new event id, and the original stays |
| PlatformOperations.PlatformOperationsService.PurgeOutbox | src/application/admin/services/platform-operations.service.ts:365-376 | deletes exactly the PROCESSED and CANCELLED rows last changed before the retention period, strictly, and reports how many |
| ReportSafety.ClaimTimesIncrease | src/application/report/services/report.service.ts:147-166 | each claim of a job writes a strictly later start time than every earlier claim, with no relation between workers' clocks |
| ReportSafety.FinishedOnce | src/application/report/services/report.service.ts:175-177 | over any run at most one step moves a job to COMPLETED or FAILED |
| ReportSafety.LatestClaimFinishes | src/application/report/services/report.service.ts:237-251 | the finishing step belongs to a run of the job, every claim of the job precedes it, and none has a later start time |
| ReportSafety.CancelledIsFinal | src/application/report/services/report.service.ts:97-111 | a CANCELLED job never leaves that status |
| ReportSafety.StatusOrigin | src/application/report/services/report.service.ts:97-251 | over any run a job's status was set by the one kind of step that may: CANCELLED only by a cancel request, FAILED only by the failure report of the run holding it, COMPLETED only by that run's commit, EXPIRED only by an expiry pass |
| ReportSafety.ReachableStatesAreFenced | src/application/report/services/report.service.ts:155-187 | in every reachable state runs of one job hold distinct tokens, none later than the stored start time |
| ReportSafety.JobOverTime | src/application/report/services/report.service.ts:147-260 | between any two moments a job's start time only grows and finality is kept |
| ReportFiles.EveryFileHasOneOwner | src/application/report/services/report.service.ts:229-251 | every stored file has exactly one owner: a COMPLETED job, a live run, or the files lost by stopped runs |
| ReportFiles.NothingLost | src/application/report/services/report.service.ts:229-251 | if runs that upload reach their commit-or-delete step, each stored file belongs to one COMPLETED job or live run |
| ReportFiles.UnexpiredReportsAreStored | src/application/report/services/report.service.ts:365-377 | a COMPLETED job not yet seen expired still has its file |
| ReportFiles.StuckForever | src/infrastructure/storage/local.provider.ts:67-73 | with storage that rejects deleting a missing file, an expired job whose file is gone stays COMPLETED in every continuation |
| ReportFiles.CanExpireIff | src/application/report/services/report.service.ts:365-377 | some continuation marks a COMPLETED job EXPIRED if and only if a pass is about to mark it, its file is stored, or deleting a missing file succeeds |
| ReportFiles.StoppedPassBlocksUnlessIdempotent | src/application/report/services/report.service.ts:365-377 | after a pass that deleted a file stops before marking, the job can still become EXPIRED if and only if deletion is idempotent |
| ReportFiles.StoppedPassIsReached | src/infrastructure/storage/local.provider.ts:67-73 | a run from the empty store after which a COMPLETED job can never become EXPIRED |
| ReportRows.CollectRows | src/application/report/services/report.service.ts:197-206 | the report holds exactly the stored rows of the query's tenant inside its status and dates, for an agent's ticket report only those assigned to the requester, in id order, each once, within 200,000 rows; an empty status restricts nothing; too many rows and a lost job are reported exactly for those reasons |
| ReportRows.NextBatch | src/application/report/services/report.service.ts:268-340 | each page extends the rows read by the next rows in order and leaves strictly less; a short page leaves nothing |
| ReportRows.FindPage | src/application/report/services/report.service.ts:279-334 | a page is the first rows, in id order, of the rows of that tenant, assignee, status and dates behind the cursor |
| ReportRows.PageAdvances | src/application/report/services/report.service.ts:298-339 | behind the last id of a page lie exactly the matching rows not on it |
| ReportRows.AscendingUnique | src/application/report/services/report.service.ts:278-339 | the result does not depend on where pages end |
| ReportRows.CountBy | src/application/report/services/report.service.ts:389-399 | the groups are the values of the field, NONE for a record without it, each with the number of its records |
| ReportRows.CountsAreOccurrences | src/application/report/services/report.service.ts:389-399 | the groups are exactly the labels that occur, each with its number of occurrences |
| ReportRows.CountsAddUp | src/application/report/services/report.service.ts:210-223 | the counts of a breakdown add up to the total |
| ReportCsv.CsvRoundTrip | src/application/report/services/report.service.ts:401-414 | a reader after section 2 of RFC 4180 returns the keys without `id` in their order and then, record by record, each value's text: nothing for a missing one, a time as its ISO text, and an apostrophe before a text that starts with one of the six formula characters |
| ReportCsv.RecoveredCells | src/application/report/services/report.service.ts:404-408 | each recovered cell is the guarded text of its field, and none starts with a formula character |
| ReportCsv.GuardCollides | src/application/report/services/report.service.ts:406-407 | two texts print alike if and only if they are equal or one is the other's guarded form |
| ReportCsv.RowReadsBack | src/application/report/services/report.service.ts:408-412 | a printed row reads back whatever its cells contain |
| ReportCsv.HeaderReadsBack | src/application/report/services/report.service.ts:411-411 | the unquoted header line reads back as the field names |
| ReportProcessing.ReportService.ProcessPending | src/application/report/services/report.service.ts:147-187 | expires, purges, then takes up to five jobs that wait or have run for over fifteen minutes at the query, all of them if there are fewer, each once; afterwards the worker holds no run and no half-done expiry, runs are fenced and every file has one owner |
| ReportProcessing.ReportService.RunJob | src/application/report/services/report.service.ts:160-186 | claims the job exactly if it still waits or has run too long in the state the claim meets, then processes it |
| ReportProcessing.ReportService.Process | src/application/report/services/report.service.ts:189-266 | takes exactly the steps its ending calls for; a commit completes the job with its file, rows and a day to live, and a failure report leaves it FAILED with the reported error, each exactly if the job still is this run's; otherwise no job changes |
| ReportProcessing.ReportService.Deliver | src/application/report/services/report.service.ts:237-266 | a stored file is committed and audited, or deleted when the job is gone; a missing reply is reported, which fails the job exactly if the commit had not taken effect and the job still is this run's |
| ReportProcessing.ReportService.CommitFile | src/application/report/services/report.service.ts:237-251 | the commit statement completes the job with the stored path, its rows, no error and a day to live if the run still holds it, and otherwise changes no job |
| ReportProcessing.ReportService.WriteFailure | src/application/report/services/report.service.ts:175-184 | the report writes FAILED and the error exactly if it takes effect while the job is RUNNING with this run's start time; otherwise no job changes |
| ReportProcessing.ReportService.ClaimJob | src/application/report/services/report.service.ts:160-166 | the claimed job is RUNNING with the worker's start time, and no other job changes |
| ReportProcessing.ReportService.MarkExpired | src/application/report/services/report.service.ts:372-375 | a job still COMPLETED becomes EXPIRED without a file; any other is left alone |
| ReportProcessing.ReportService.PurgeRecords | src/application/report/services/report.service.ts:379-386 | exactly the expired, failed and cancelled records last changed before the cutoff go |
| ReportProcessing.ReportService.ReadPages | src/application/report/services/report.service.ts:342-354 | reading goes on only while the job is RUNNING with this run's start time |
| ReportProcessing.ReportService.ExpireFiles | src/application/report/services/report.service.ts:365-377 | up to fifty COMPLETED jobs whose day is over, each file deleted and then its job marked; after the first failing deletion or marking nothing more is done |
| ReportProcessing.Cancel | src/application/report/services/report.service.ts:97-111 | succeeds exactly for PENDING and RUNNING jobs, which become CANCELLED; otherwise nothing changes |
| RefreshTokens.AtMostOneContinuation | src/application/auth/services/token.service.ts:226-259 | active tokens plus rotations claimed but not re-issued are at most one per family in every reachable state |
| RefreshTokens.FamilyIsALine | src/application/auth/services/token.service.ts:195-259 | all stored tokens of a family lie on one line without repeats, each rotated from its predecessor by the only claim that one ever got, an active one last |
| RefreshTokens.EndedForever | src/application/auth/services/token.service.ts:226-259 | a family without active token and open rotation stays that way in every continuation |
| RefreshTokens.RevocationEndsSessionIff | src/application/auth/services/token.service.ts:297-350 | after a logout, revoke-all or family revocation no continuation ever has an active token of the family if and only if no rotation is between claim and mint |
| RefreshTokens.RotationOutlives | src/application/auth/services/token.service.ts:226-259 | an open rotation can make its family active again, whatever was revoked meanwhile |
| RefreshTokens.DenialEndsFamily | src/application/auth/services/token.service.ts:226-248 | giving up a claimed token of an unusable account leaves its family without any way to continue, even before it is revoked |
| RefreshTokens.RotationOutlivesLogout | src/application/auth/services/token.service.ts:297-314 | a run from the empty store in which a session is active after its logout |
| RefreshTokens.FamilyHasOneUser | src/application/auth/services/token.service.ts:156-186 | all tokens and open rotations of a family name one user |
| RefreshTokens.ReachableStatesAreSafe | src/application/auth/services/token.service.ts:156-414 | the invariant behind these holds over all interleavings of logins, rotations, revocations and cleanup |
| TokenRotation.TokenSystem.CreateTokenPair | src/application/auth/services/token.service.ts:156-186 | a login starts a family of its own with one active token of that user |
| TokenRotation.TokenSystem.RevokeToken | src/application/auth/services/token.service.ts:297-314 | a logout revokes exactly the unrevoked tokens of that user in that family, with time and reason; all other tokens stay as they are |
| TokenRotation.TokenSystem.RevokeTokenFamily | src/application/auth/services/token.service.ts:341-350 | revokes exactly the unrevoked tokens of the family, and ends the session in every continuation if and only if no rotation is open |
| TokenRotation.TokenSystem.RevokeAllTokens | src/application/auth/services/token.service.ts:316-339 | revokes exactly the unrevoked tokens of these users |
| TokenRotation.TokenSystem.CleanupExpiredTokens | src/application/auth/services/token.service.ts:410-414 | deletes exactly the tokens past their expiry |
| TokenRotation.RotateRefreshToken | src/application/auth/services/token.service.ts:195-268 | a token rotated less than ten seconds ago is rejected as a race, every other revoked one is answered as reuse, expired and unverifiable ones are rejected, any other is claimed; after reuse with a completed revocation no continuation has an active token unless a rotation was open, after a refused account never; success mints one active successor for the same user and family, and no family has two ways to continue |
| TokenRotation.PresentToken | src/application/auth/services/token.service.ts:200-224 | unknown, rejected, reused or accepted exactly as the columns of the row it read say; reuse with a completed revocation ends the session for good unless a rotation is open |
| TokenRotation.ExchangePresented | src/application/auth/services/token.service.ts:226-268 | a request that lost its claim's reply or the race mints nothing; otherwise the account decides between one successor of the same owner and the end of the session |
| TokenRotation.ClaimPresented | src/application/auth/services/token.service.ts:226-238 | the claim succeeds exactly if the token is still unrevoked; it marks that token as rotated now and changes no other |
| TokenRotation.ReplaceClaimed | src/application/auth/services/token.service.ts:240-259 | an unusable account has no session in any continuation; otherwise one successor of the same user and family is stored |
| Tickets.NumbersAreConsecutive | src/infrastructure/database/repositories/ticket.repository.ts:184-202 | a tenant's committed numbers are exactly 1..lastNumber, without gap or repeat, whatever commits and rolls back |
| Tickets.CapHolds | src/application/ticket/services/ticket.service.ts:174-187 | if no ticket is stamped with an earlier day than the one counted, no UTC day exceeds the cap |
| Tickets.StampSafeIff | src/application/ticket/services/ticket.service.ts:179-187 | a stamp keeps every tenant within the cap after an allowed count if and only if it does not fall on a day before the counted one, or the cap admits nothing |
| Tickets.BackdatedInsertExceedsCap | src/application/ticket/services/ticket.service.ts:179-182 | a run from the empty table in which a ticket counted after midnight and stamped before it exceeds the cap |
| Tickets.DayWithinCount | src/infrastructure/database/repositories/ticket.repository.ts:208-210 | the count since the start of a day covers that day and every later one |
| Tickets.CountSinceCounts | src/infrastructure/database/repositories/ticket.repository.ts:208-210 | the count is the number of tickets created at or after the given time |
| Tickets.StepKeepsInv | src/application/ticket/services/ticket.service.ts:174-242 | every statement, commit and rollback keeps: only the lock holder is in progress, with the next number |
| TicketCreation.CreateTicket | src/application/ticket/services/ticket.service.ts:174-242 | takes exactly the statements of its outcome; success means the next number, committed last, for an active tenant with fewer tickets than its cap since the start of the UTC day |
| TicketCreation.CheckCap | src/domain/policies/tenant-limits.policy.ts:4-6 | goes on if and only if the tenant is active and the number of committed tickets created since the start of the UTC day is below the limit |
| Webhooks.OutcomesByHolderOnly | src/application/messaging/services/webhook-processing.service.ts:88-99 | an outcome takes effect only for the claim holding the PROCESSING row, on that row only, once per claim |
| Webhooks.RowFieldsAgree | src/application/messaging/services/webhook-processing.service.ts:88-99 | locks exactly while PROCESSING, processed exactly on PROCESSED rows, retryCount equal to the FAILED outcomes written |
| Webhooks.FinalForever | src/application/messaging/services/webhook-processing.service.ts:48-62 | PROCESSED and CANCELLED are never left, in any continuation |
| Webhooks.FinalStatuses | src/application/admin/services/platform-operations.service.ts:334-345 | no step changes a PROCESSED or CANCELLED row |
| Webhooks.ReachableInv | src/application/messaging/services/webhook-processing.service.ts:48-99 | the invariant holds over all processors, expiries, operators and purges |
| Webhooks.OneReplayAtATime | prisma/migrations/20260928000300_platform_operations/migration.sql:22-23 | in every reachable state at most one unfinished row replays any one original |
| Webhooks.RefusedIff | src/application/messaging/services/webhook-processing.service.ts:48-62 | the database refuses a claim if and only if it would take up a skipped replay while another replay of its original is unfinished |
| Webhooks.RowsComeAndGo | src/application/admin/services/platform-operations.service.ts:284-319 | rows come only as received events or as replays of finished inbound ones, unprocessed, and only finished rows are purged |
| WebhookProcessing.Process | src/application/messaging/services/webhook-processing.service.ts:45-101 | one claim and, exactly if it was won and answered, one outcome report; it takes effect exactly while the claim holds the row, and then the row carries status, detail, retry count and released lock of this handling |
| WebhookProcessing.ClaimEvent | src/application/messaging/services/webhook-processing.service.ts:46-63 | wins exactly on an inbound row that is received, skipped or failed, or locked over five minutes ago, unless another unfinished replay of its original exists; a lock is the only change |
| WebhookProcessing.Settle | src/application/messaging/services/webhook-processing.service.ts:65-99 | no message and a skip become SKIPPED with their reason, an error FAILED with its text and one retry more, success PROCESSED, written exactly if the claim still holds the row; no other row changes |
| WebhookProcessing.CancelWebhook | src/application/admin/services/platform-operations.service.ts:334-345 | succeeds exactly for events no claim is working on and that are not finished |
| Scheduler.OccurrencesApart | src/infrastructure/scheduler/scheduler.service.ts:102-155 | two runs of one occurrence anywhere in the cluster acquire their lock at least its time to live apart |
| Scheduler.TakenApart | src/infrastructure/scheduler/scheduler.service.ts:108-115 | whoever takes an occurrence's lock, even if the reply is lost, nobody takes it again before its time to live has passed |
| Scheduler.PunctualOccurrencesRunOnce | src/infrastructure/scheduler/scheduler.service.ts:102-155 | at most one run of an occurrence in the whole cluster acquires its lock within one time to live of its minute |
| Scheduler.StepKeepsInv | src/infrastructure/scheduler/scheduler.service.ts:7-22 | acquiring, renewing, finishing, releasing manual locks and time passing keep every run of an occurrence protected by its lock |
| Scheduler.AttemptedOncePerProcess | src/infrastructure/scheduler/scheduler.service.ts:86-100 | with tick times that never go back, one process attempts each (job, minute) at most once |
| Scheduler.AttemptedOnceIffNeverRevisits | src/infrastructure/scheduler/scheduler.service.ts:86-100 | one process attempts no (job, minute) twice if and only if its ticks never return to a minute of a job after another minute in which the job was due |
| Scheduler.AttemptedIffDue | src/infrastructure/scheduler/scheduler.service.ts:86-100 | every due occurrence, and no other, is attempted at some tick |
| Scheduler.AttemptedFacts | src/infrastructure/scheduler/scheduler.service.ts:86-100 | a tick attempts exactly the due jobs not remembered for this minute, each once, and remembers all due jobs |
| Scheduler.BackwardTickRepeats | src/infrastructure/scheduler/scheduler.service.ts:90-91 | a clock that steps back makes an occurrence be attempted again |
| Scheduling.SchedulerService.RunDueJobs | src/infrastructure/scheduler/scheduler.service.ts:86-100 | attempts exactly the due jobs not remembered for this minute, in order; each attempt asks for the lock of its job in this minute and runs exactly if it was free and the reply arrived |
| Scheduling.OccurrenceTakenApart | src/infrastructure/scheduler/scheduler.service.ts:102-155 | two runs of one job in one minute, by any two processes with equally registered jobs, took their lock at least its time to live apart |
| Scheduling.LockNamesEqualIff | src/infrastructure/scheduler/scheduler.service.ts:104-105 | the stored names of two occurrences, or of two manual runs, are equal if and only if base and minute are |
| Scheduling.SchedulerService.Start | src/infrastructure/scheduler/scheduler.service.ts:42-55 | arms exactly one timer however often it is started, and ticks at once unless it was running |
| Scheduling.SchedulerService.RunJob | src/infrastructure/scheduler/scheduler.service.ts:102-157 | asks for the job's own lock, with the minute exactly if there is one; runs exactly if it is missing or expired and the reply arrives, with exactly its renewals and its end; a manual lock is let go of |
| Scheduling.SchedulerService.Tick | src/infrastructure/scheduler/scheduler.service.ts:72-84 | a tick in flight makes further ticks do nothing |
| Rooms.RoomManager.JoinRoom | src/infrastructure/realtime/rooms/room.manager.ts:7-17 | both maps gain exactly this membership |
| Rooms.RoomManager.LeaveRoom | src/infrastructure/realtime/rooms/room.manager.ts:19-27 | both maps lose exactly this membership, and an emptied room is dropped |
| Rooms.RoomManager.RemoveClient | src/infrastructure/realtime/rooms/room.manager.ts:29-40 | exactly the memberships of other clients remain |
| Rooms.RoomManager.GetRoomCount | src/infrastructure/realtime/rooms/room.manager.ts:50-52 | counts the rooms that have a member |
| Rooms.RoomManager.GetClientsInRoom | src/infrastructure/realtime/rooms/room.manager.ts:42-44 | lists exactly the members of the room |
| Rooms.RoomManager.GetClientRooms | src/infrastructure/realtime/rooms/room.manager.ts:46-48 | lists exactly the rooms of the client, although it reads the other map |
| Rooms.InverseIffSamePairs | src/infrastructure/realtime/rooms/room.manager.ts:1-5 | the maps are inverse to each other if and only if both tell the same set of memberships |
| Rooms.MemberIffJoinedSince | src/infrastructure/realtime/rooms/room.manager.ts:7-40 | after any calls a client is in a room if and only if it joined and since then neither left nor was removed |
| Rooms.Replay | src/infrastructure/realtime/rooms/room.manager.ts:1-40 | any sequence of calls on the two maps yields that set in both |

## Left out

- Payloads: JSON conversion, `inferAggregate`, tenant and aggregate columns; an event is its ids, type, time and content.
- An event bus without a ledger, `publishAll`, `getStats`, the settings cache, list and detail queries, intervention records, audit, metrics, logging.
- Ledger expiry is a step of the protocol; `ProcessedExactlyOnce` needs the one record it is about not to expire, `ProcessedExactlyOnceIff` needs nothing.
- EventBus.InProcessEventBus.Publish: runs the handlers of one event in position order at one time; the step system lets their steps interleave in any order.
- A statement whose reply was lost takes effect at once or never. One that reaches the database only after its batch was abandoned and the same worker claimed the row again is not a step; it would act on the newer claim, as `OverlappingClaimBreaksAgreement` shows for an older copy.
- A replay tests the status of its original in the inserting step; the source reads it first and inserts later. Only the retry is split into its read and its write.
- A retry or replay that the index on unfinished replays refuses is not a step: it changes nothing, and the operator's earlier read stays unused.
- A statement that mentions the clock twice is given one reading, except the two statements of an outbox claim.
- Operator methods of `PlatformOperations` run without interference between their read and their write; the step system has the read and the write of a retry as separate steps.
- ReportRows.CollectRows: reads an unchanging table; rows that change between pages are not modelled.
- ReportCsv.CsvRoundTrip: field names are free of commas, quotes and line breaks, as the selected columns are, and there is at least one column besides `id`; an empty table prints nothing and is left out of the round trip.
- The conversion of dates and numbers to cell text, and JSON reports.
- ReportRows.CountBy: a group named like a property every JavaScript object inherits (`constructor`) would start from that property; labels are taken as ordinary keys.
- ReportSafety.ClaimTimesIncrease: the claiming worker's own clock does not step back by fifteen minutes or more between the query and the claim.
- Permission checks, download links and report creation rules; they make a run fail or are read only.
- The order in which pending report jobs are taken up; any five of the claimable ones may be.
- Report rows are ordered by a numeric rank in place of the database's collation of ids.
- Access tokens, signatures and hashing: whether a presented token verifies is a parameter. Tokens without an id are covered by letting a request present any stored token.
- TokenRotation.RotateRefreshToken: an ending that revokes a family does not tell whether the revocation's reply arrived.
- Tickets: one tenant with a fixed limit and status; deletion and changes of tickets, the activity and audit rows of the transaction, and events raised in it.
- Tickets.CapHolds: needs the stamped day not to precede the counted one; `StampSafeIff` shows that this is exact.
- Webhook signatures and payload parsing; what the inbound handler does is a parameter.
- The cron matcher: the due jobs of a tick are arbitrary. Locks are told apart by base and minute, as their stored names are within occurrences and within manual runs (`LockNamesEqualIff`); a manual lock whose custom name reads like an occurrence's is not modelled.
- The lock server's clock is taken not to go back.
- Scheduler.OccurrencesApart: compares the times at which locks are acquired; a handler starts when the reply arrives, which may be later.
- The WebSocket gateway around the room index, and `getClientCount`, which also counts clients that have left every room.
