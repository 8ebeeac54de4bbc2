# Verified model of the code-execution service

This project models the concurrent and algorithmic core of the service in Dafny and proves what it
promises. The main piece is the life of a batch: any number of Start calls race for a batch row, fan
its submissions out to a queue, workers run them, each finisher bumps one counter, and the finisher
that completes the batch launches its webhook. Around it stand the pieces the batch depends on or
that share its style: the SQS transport, the webhook retry ladder, the reconciler, the bulk sweeps,
the result waiter, the container stream demultiplexer, the rate limiter and the command tokeniser.

| file | what it models |
|---|---|
| `Common.dfy` | option and result types, facts about finite sets |
| `BatchRows.dfy` | one row of the batches table and the SQL statements on it, as a repository class |
| `BatchLifecycle.dfy` | the batch protocol as a transition system, and what holds in every run |
| `SingleDelivery.dfy` | what holds when no submission is delivered again while or after it is worked off, and results are written |
| `Completing.dfy` | exactly when a batch can still complete without a second delivery |
| `Redelivering.dfy` | exactly what one second delivery can do, and when a batch completes if idle submissions may be delivered again |
| `CarefulLifecycle.dfy` | the protocol when also a failed fan-out enqueues nothing, Start calls do not die and are answered truly, roll-backs succeed, runs do not die and count, and no job is dead-lettered after its delivery |
| `LifecycleHazards.dfy` | concrete runs that show what these assumptions are for |
| `Statuses.dfy`, `Payloads.dfy`, `Working.dfy` | status mapping, webhook body, order of effects of a worker run |
| `Starting.dfy`, `Publishing.dfy` | Start with its roll-back, and SQS fan-out in chunks of ten |
| `SqsQueue.dfy` | deliveries, visibility, redrive and the dead-letter drainer |
| `WebhookRetrying.dfy`, `Reconciling.dfy`, `Handover.dfy` | retry ladder and budget, reconciler sweeps, which of the two comes first |
| `KeysetSweep.dfy` | bulk start and bulk webhook re-delivery over a changing set |
| `ResultWaiting.dfy` | waiting for one result by notification and poll |
| `StreamDemux.dfy` | the framed stream parser and its bounded captures |
| `RateLimiting.dfy` | the sliding-window limiter on an expiring sorted set |
| `Tokenising.dfy` | the command tokeniser |

Code that updates state in place is modelled by classes and methods with loops; the state machines
(`BatchLifecycle`, `SqsQueue`, `ResultWaiting`) have one step for each SQL statement, queue call or
Redis call, and their theorems speak about all finite sequences of such steps.

## Assumptions

- A SQL statement is one atomic step. `IncrementCompleted` computes both of its columns from the row
  as it was, as the repository interface promises (internal/database/batch_repository.go:37-41);
  `BatchRows.LeftToRightIsCoherentExactlyWhen` says what an engine that assigns from left to right
  makes of the same statement.
- A batch has at least one submission (the request binding demands it, internal/models/batch.go:91).
- A Redis pipeline is one step. Clock readings of one key strictly increase and scores are exact.
- Ids are compared as the primary key orders them; they are numbers here, and 0 is the empty cursor.
- The backoff factor is an exact real number; time is counted in whole units.
- A delivery attempt is bounded by the configured timeout, as with the default HTTP client.
- Standard output and standard error are captured by two different writers.
- While somebody waits for a token nothing but worker runs writes its cached response: it was seeded
  before, and the refill of the cache by reading requests and the deletion of submissions are not
  part of the model.
- What SQS, MySQL, Redis, the sandbox, the receiver of a webhook and the clock answer is a parameter
  of the operation that asks, or a choice of the step.

## Where the code does not keep what its comments say

Each point names the theorem or the contract behind it: a concrete run, or the exact condition.

- A batch counter can overshoot and its webhook be launched twice, because a failed job is counted
  and handed back to the queue (`Working.CountedAndHandedBackExactlyWhen`,
  `LifecycleHazards.RedeliveryLaunchesTwice`, `BatchLifecycle.LaunchedOnceExactlyWhen`); when one
  second delivery can do that is `Redelivering.LaunchedTwiceExactlyWhen`. A webhook body can then
  show a submission that is still processing (`LifecycleHazards.RedeliveryShowsUnfinished`); it never
  does as long as results are written and no submission is delivered again while or after it is
  worked off (`SingleDelivery.PayloadIsFinal`), and one second delivery is enough for any linked batch
  whose fan-out went through (`Redelivering.BodySpoiledExactlyWhen`).
- A fan-out that fails after it enqueued something can strand its batch in processing: a straggler
  lifts the rolled-back row out of pending (`LifecycleHazards.StragglerStrandsBatch`). A Start that
  dies and a claim that applied without an answer strand it as well; which batches can still
  complete is `Completing.CompletesExactlyWhen`, and which failed fan-outs enqueue nothing is
  `Publishing.FailureEnqueuesNothingExactlyWhen`.
- Dead-lettering a job records its failure but does not count it. A batch with a job that was
  dead-lettered and that no run counts is not completed (`LifecycleHazards.DeadLetteredUncounted`);
  one whose dead-lettered jobs were all counted is
  (`LifecycleHazards.DeadLetteredAndCompleted`, `SingleDelivery.DrainedIsCompletedExactlyWhen`).
- 25 batches whose delivery cannot be prepared or recorded starve the reconciler
  (`Reconciling.StarvedBehindBroken`, `Reconciling.StarvationHappens`).
- Without a database the dead-letter drainer drops messages unrecorded
  (`SqsQueue.ReportedExactlyWhenConnected`), and a job that succeeded can still be recorded as
  dead-lettered (`SqsQueue.SucceededButRecordedAsFailed`), exactly when its message is moved while
  or after a handler succeeds on it (`SqsQueue.RedriveContradictsExactlyWhen`).
- The waiter subscribes before its second look but does not wait until the subscription is active
  (`ResultWaiting.LateSubscriptionLosesWakeup`): what a run announces in the gap is lost, and the
  poll has to make up for it. A redelivered job hides a cached result
  (`ResultWaiting.RedeliveryHidesResult`, `ResultWaiting.ReadableExactlyWhen`).
- The wait before a retry is documented as capped; the first one and fixed ones are not
  (`WebhookRetrying.EveryWaitCappedExactlyWhen`).
- `BlockedUntil` is documented as the time of the next allowed call; a call at that very instant is
  still rejected (`RateLimiting.BlockedCallsRejected`), and an unblocked caller may be rejected
  (`RateLimiting.UnblockedButRejectedExactlyWhen`).
- The comment on `BuildCompileCommand` promises that the source file is substituted; the tokens do not
  depend on it (`Tokenising.BuildCompileCommand`).

## Model

| member | source | states |
|---|---|---|
| BatchRows.BatchRepository.MarkProcessing | internal/database/batch_repository.go:133-149 | only the caller that finds the row pending is told it started the batch; nothing but status and time stamp changes |
| BatchRows.BatchRepository.MarkPending | internal/database/batch_repository.go:151-166 | only a processing row goes back to pending; any other row and every other batch is untouched |
| BatchRows.BatchRepository.IncrementCompleted | internal/database/batch_repository.go:208-243 | the answer is the row with its counter one higher, completed exactly when that reaches the total, stamped now and otherwise as before; an unknown id changes nothing |
| BatchRows.BatchRepository.MarkWebhook | internal/database/batch_repository.go:245-273 | the row then holds the outcome and the retry count given, the delivery time only when one is given, the time of the update, and every other column as before; unknown ids are an error |
| BatchRows.BatchRepository.AdvanceBatch | internal/worker/worker.go:373-403 | counts one submission and launches exactly when the counter then reaches a positive total and a webhook id is stored that is not empty; silent for empty and unknown ids |
| BatchRows.SimultaneousSetIsCoherent | internal/database/batch_repository.go:216-232 | with simultaneous assignment the stored status is "completed" exactly when the counters say so, after any number of finishes |
| BatchRows.LeftToRightIsCoherentExactlyWhen | internal/database/batch_repository.go:216-232 | evaluated column by column the same statement announces completion one submission early, and only then is the status wrong |
| BatchLifecycle.StatusLaw | internal/database/batch_repository.go:133-232 | in every run, with duplicates, partial fan-outs and races: "completed" exactly when completed >= total, and completed for good |
| BatchLifecycle.FireLaw | internal/database/batch_repository.go:208-243 | increments answer 1, 2, 3, ... and launches made, lost and due number max(0, completed - total + 1) for a linked batch |
| BatchLifecycle.LaunchedOnceExactlyWhen | internal/worker/worker.go:373-403 | once all finishers have acted and none died, there was exactly one launch if and only if exactly total increments succeeded, and the last finisher made it |
| BatchLifecycle.StartGate | internal/batchproc/starter.go:55-90 | at most one Start holds the batch, claims exceed effective roll-backs by at most one, at most one Start ever succeeds and then every job was published |
| BatchLifecycle.SuccessIsFinal | internal/batchproc/starter.go:55-65 | after a successful Start every later claim is answered not-pending and nothing more is enqueued |
| BatchLifecycle.BodyIsOfCompletedBatch | internal/webhook/dispatcher.go:154-171 | in every run a body built by an automatic dispatch says completed, counts at least the total, carries the webhook and creation time of the batch, and lists every submission once, in order |
| Completing.CompletesExactlyWhen | internal/batchproc/starter.go:55-90 | after any steps a batch can still complete without a second delivery if and only if its counts, the runs under way and the submissions still open to a first delivery add up to the total |
| Completing.FreshRunBound | internal/worker/worker.go:373-381 | no run without a second delivery ever counts more than that sum |
| Completing.ReachPotential | internal/batchproc/starter.go:84-89 | that sum can be reached by a fan-out and runs in which all goes well, from every state that any run reaches |
| BatchLifecycle.RunKeepsInv | internal/database/batch_repository.go:133-243 | status, gate and fire invariants survive every sequence of steps |
| CarefulLifecycle.JobConservation | internal/batchproc/starter.go:55-90 | pending means nothing enqueued and nothing counted; processing without a Start in progress means counted + outstanding + dead-lettered = total |
| CarefulLifecycle.NoneOutstandingIsCompletedExactlyWhen | internal/queue/sqs/dlq.go:88-105 | with no Start in progress and nothing outstanding, a careful run has completed the batch if and only if no job was dead-lettered, since there only jobs that never ran are |
| SingleDelivery.DrainedIsCompletedExactlyWhen | internal/queue/sqs/dlq.go:88-105 | once every submission was counted or dead-lettered, the batch is completed if and only if none of them was dead-lettered uncounted |
| SingleDelivery.LaunchedByLastFinisher | internal/worker/worker.go:373-403 | as long as no submission is delivered while a run works on it or after it was counted, and results are written, the only launch ever made is that of the finisher that counted the last submission |
| SingleDelivery.PayloadIsFinal | internal/webhook/dispatcher.go:154-171 | as long as no submission is delivered while a run works on it or after it was counted, and results are written, and with partial fan-outs, dying Starts and runs, failing roll-backs and dead letters, every body built by an automatic dispatch lists each submission once, all terminal, with completed = total, and goes on to agree with the stored statuses but for submissions that were dead-lettered |
| Redelivering.BodySpoiledExactlyWhen | internal/worker/worker.go:359-367 | after one second delivery some continuation builds a body that does not show the finished batch if and only if the batch has a webhook and at most one of its submissions is out of reach |
| Redelivering.LaunchedTwiceExactlyWhen | internal/worker/worker.go:359-403 | after one second delivery some continuation launches the webhook twice if and only if the batch has a webhook, all of its submissions are within reach and the launch for the total was not lost |
| Redelivering.CompletesSinglyExactlyWhen | internal/queue/sqs/consumer.go:176-186 | a batch can complete by deliveries of idle submissions, redeliveries after a run that died included, if and only if counts, runs under way and idle submissions within reach add up to the total |
| CarefulLifecycle.CanAlwaysComplete | internal/batchproc/starter.go:84-89 | from every point of a careful run without dead letters some continuation completes the batch |
| LifecycleHazards.RedeliveryLaunchesTwice | internal/worker/worker.go:359-367 | a run in which a redelivered failed job makes completed overshoot and the webhook fire twice |
| LifecycleHazards.RedeliveryShowsUnfinished | internal/worker/worker.go:187-191 | a run in which the delivered body shows a submission that is processing again |
| LifecycleHazards.StragglerStrandsBatch | internal/database/batch_repository.go:219-224 | a run after which no continuation without a second delivery ever leaves processing |
| LifecycleHazards.DeadLetteredAndCompleted | internal/worker/worker.go:359-367 | a run in which a job is counted, then dead-lettered, and its batch is completed |
| LifecycleHazards.DeadLetteredUncounted | internal/queue/sqs/dlq.go:88-105 | a run in which a job is dead-lettered uncounted, after which no first delivery ever completes the batch |
| Statuses.MapSandboxStatus | internal/worker/worker.go:487-513 | 3 exactly for a clean exit without a reported failure whose trimmed output matches what was expected, 4 exactly when it does not match, 7 exactly for a reported runtime error or a non-zero exit, and 5, 6 and 8 exactly as the sandbox reported them |
| Payloads.BatchToResponse | internal/models/batch.go:118-137 | the body shows the row's columns and every submission once, in order, with its status |
| Working.Worker.ProcessJob | internal/worker/worker.go:179-330 | the effects of one run in order: one and the same status goes to the row, the cache and the callback, 8 without a language or a result and otherwise decided by outcome, exit code and the output this job expects; a callback exactly for a URL and a run that did not fail; the count carries the batch of the job; no error exactly when the job was marked and did not fail |
| Working.Worker.FailJob | internal/worker/worker.go:345-368 | a failed job is written, cached, announced and counted, and still answered with an error |
| Working.TellsTheBatch | internal/worker/worker.go:179-309 | to its batch a run is a delivery, the write of a terminal result and one count of the batch protocol, in this order, and leaves nothing else behind |
| Working.UnmarkedTells | internal/worker/worker.go:187-190 | a run that could not mark its submission is a failed delivery of the batch protocol, applied or not, and nothing to a waiter |
| Working.TellsTheWaiter | internal/worker/worker.go:179-298 | to a waiter a run is a beginning, a stored terminal response and an announcement of the wait protocol, in this order |
| Starting.Starter.Start | internal/batchproc/starter.go:55-90 | success means claimed and every token enqueued once in order; each failure says whether it rolled back and what was enqueued, claims that apply unacknowledged and failing roll-backs included |
| Publishing.CallsPartitionJobs | internal/queue/sqs/publisher.go:61-72 | the calls split the jobs into groups of ten, the last of which may be shorter, carry every token once and in order, and number their entries 0 to 9 |
| Publishing.Publisher.SendChunk | internal/queue/sqs/publisher.go:99-129 | success exactly for a response without failed entries, and then every token of the chunk is in the queue |
| Publishing.Publisher.PublishBatch | internal/queue/sqs/publisher.go:61-72 | success exactly when all calls went through; a failure in call k leaves the calls before it taken in full and none after it made |
| Publishing.FailureEnqueuesNothingExactlyWhen | internal/queue/sqs/publisher.go:61-129 | a failed fan-out leaves the queue as it was exactly when there was none, or its first call failed and no entry of that call was taken |
| SqsQueue.Conservation | internal/queue/sqs/consumer.go:116-186 | after any steps every published message is in exactly one of visible, in flight, deleted, parked, parked in flight, drained |
| SqsQueue.DeletedForAReason | internal/queue/sqs/consumer.go:158-187 | a message is deleted only after success, permanent failure or a malformed body; it leaves the dead-letter queue only after the failure was recorded or for a malformed body |
| SqsQueue.NoJobLost | internal/queue/sqs/consumer.go:158-187 | a well-formed message that is in no queue was handled, rejected for good or, given a database, recorded as failed |
| SqsQueue.NeverStuck | internal/queue/sqs/consumer.go:116-151 | from every reachable state a message still queued can be taken out for a reason |
| SqsQueue.SettledExactlyWhen | internal/queue/sqs/consumer.go:158-187 | from any point of any run, deciding and settling a delivery deletes its message if and only if the call goes through and its body is malformed, or its job was loaded and the handler asks for no retry; else no message moves; the job counts as handled or rejected by the outcome of a handler that was reached |
| SqsQueue.DrainedExactlyWhen | internal/queue/sqs/dlq.go:88-105 | from any point of any run, a dead-lettered message that the drainer works on leaves its queue if and only if the call goes through and its body is malformed or recording did not fail |
| SqsQueue.ReportedExactlyWhenConnected | cmd/queue-manager/main.go:107-112 | drained messages were recorded, in all runs, if and only if the recorder has a database |
| SqsQueue.SucceededButRecordedAsFailed | internal/queue/sqs/consumer.go:176-186 | a run in which a handler succeeds and its job is recorded as dead-lettered as well |
| SqsQueue.RedriveContradictsExactlyWhen | internal/queue/sqs/consumer.go:176-186 | moving a well-formed message to the dead-letter queue can end with its job both succeeded and recorded as failed if and only if, at that moment, a handler has succeeded on it or is at work on it |
| SqsQueue.NeverBoth | internal/queue/sqs/dlq.go:88-105 | in every run in which messages move only otherwise, no job is ever both |
| SqsQueue.Process | internal/queue/sqs/consumer.go:158-187 | one delivery deletes its message if and only if the call goes through and its body is malformed, or its job was loaded and the handler asks for no retry; a message that stays is delayed by 10, 30 or 60 seconds by its receive count; no other message is touched |
| SqsQueue.Handle | internal/queue/sqs/dlq.go:88-105 | the message goes exactly when the call goes through and its body is malformed or recording did not fail; a record is claimed only when it was written |
| SqsQueue.ProcessStart | internal/queue/sqs/start_consumer.go:132-147 | a START event goes exactly when the call goes through and its body is malformed or its handler succeeded; otherwise it is delayed by its receive count |
| SqsQueue.NakBackoff | internal/queue/sqs/consumer.go:240-249 | the delay is one of 10, 30 and 60 seconds, by the number of deliveries |
| WebhookRetrying.Normalised | internal/webhook/dispatcher.go:59-76 | the result is a valid configuration; each field is kept or, when it was invalid, has its default |
| WebhookRetrying.Dispatcher.RetryBudget | internal/webhook/dispatcher.go:142-150 | the budget is all attempts at full timeout, the waits of the ladder, and 30 seconds; without a growing factor that is (retries + 1) * timeout + retries * delay + 30 s |
| WebhookRetrying.Dispatcher.DeliverWithRetry | internal/webhook/dispatcher.go:177-215 | the ladder ends with the first accepted attempt, the last one allowed or an interrupted wait, after exactly the time its attempts and waits take |
| WebhookRetrying.Dispatcher.DispatchBatchWithRetry | internal/webhook/dispatcher.go:122-137 | after the ladder that was run the row holds sent with the time, or failed, and attempts minus one as retry count, all else as before; the batch is then undelivered exactly when the ladder did not deliver; other errors leave the row alone |
| WebhookRetrying.WithinBudget | internal/webhook/dispatcher.go:142-215 | for every pattern of outcomes the ladder takes at most the budget less its 30 second margin |
| WebhookRetrying.BudgetIsReached | internal/webhook/dispatcher.go:142-150 | the bound is tight |
| WebhookRetrying.EveryWaitCappedExactlyWhen | internal/webhook/dispatcher.go:35-44 | every wait respects the maximum if and only if there are no retries or the first wait does |
| WebhookRetrying.NextDelay | internal/webhook/dispatcher.go:218-227 | the next delay is the greatest whole one within the product and the maximum, and fixed without a growing factor |
| WebhookRetrying.WaitsGrow | internal/webhook/dispatcher.go:218-227 | waits never shrink when the first respects the maximum |
| Reconciling.DispatchBatch | internal/webhook/dispatcher.go:107-117 | one attempt on a linked batch stores sent with the time when it was accepted and failed when it was rejected, with retry count 0, and nothing else; an undelivered batch is still undelivered afterwards exactly unless the attempt was accepted and recorded |
| Reconciling.ListReconcilableBatches | internal/database/batch_repository.go:281-302 | at most 25 finished, linked, unsent batches, untouched for two minutes and at most a day old; such a batch is left out only when there are 25 others, none of them stamped later |
| Reconciling.ReconcileWebhooksOnce | cmd/queue-manager/main.go:209-236 | a sweep stores for each batch of its page the outcome of its own attempt, column by column, and changes no other row |
| Reconciling.BoundedWaiting | cmd/queue-manager/main.go:200-236 | a waiting batch with w unbroken eligible batches ahead and b < 25 broken ones is attempted within n sweeps once n * (25 - b) > w |
| Reconciling.BoundedWaitingWhenNoneBreaks | cmd/queue-manager/main.go:200-236 | with all outcomes recorded a batch with w eligible ones ahead is attempted within w / 25 + 1 sweeps |
| Reconciling.StarvedBehindBroken | internal/database/batch_repository.go:281-302 | 25 batches that stay unrecorded ahead of it keep a batch out of every sweep |
| Reconciling.StarvationHappens | cmd/queue-manager/main.go:200-236 | for any number of sweeps there is a run of them that leaves the same waiting batch out each time |
| Handover.LadderFirstExactlyWhen | cmd/queue-manager/main.go:200-205 | no sweep can pick a batch whose retry ladder is still running, for all outcomes, exactly when the budget less its margin fits into the grace period |
| Handover.DefaultsFit | internal/webhook/dispatcher.go:48-56 | with the default configuration that holds for ladders that begin within ten seconds of the last count |
| KeysetSweep.ListBatchIDs | internal/database/batch_repository.go:369-392 | the answer is the ascending page of the least matching ids after the cursor, full unless fewer match |
| KeysetSweep.PageIsUnique | internal/database/batch_repository.go:327-350 | rows, cursor and limit determine the page |
| KeysetSweep.Sweep | internal/api/handlers/batch.go:336-375 | ids are handed out in strictly increasing order and only if they matched; none that matched throughout is missed up to the last one handed out, and none at all after a short page; how far the sweep got follows from why it ended |
| KeysetSweep.RunBulkStart | internal/api/handlers/batch.go:445-507 | the sweep's promises; started, skipped and failed each number the batches handed out that ended this way, and add up to all of them |
| KeysetSweep.RunBulkRetrigger | internal/api/handlers/batch.go:336-377 | the sweep's promises; sent and failed number the batches handed out whose delivery was accepted and was not, and add up to all of them |
| ResultWaiting.NoLostWakeupExactlyWhen | internal/queue/wait.go:55-133 | a parked waiter whose cell is terminal, with no announcement to come, has an unread notification if and only if it did not miss its latest chance: no announcement was made past its empty inbox, no unread one was lost with the connection and no look at a terminal cell failed since the last one that reached it |
| ResultWaiting.ReadableExactlyWhen | internal/worker/worker.go:187-191 | the cell is terminal exactly when the last write to it was a result, not an expiry and not the beginning of a redelivered job |
| ResultWaiting.NotifiedIsAnsweredExactlyWhen | internal/queue/wait.go:108-133 | with no announcement to come, a parked waiter is answered by its next notification exactly when the last write was a result and it did not miss its latest chance |
| ResultWaiting.OnlyTerminalAnswers | internal/queue/wait.go:55-145 | the waiter returns a terminal status that a run cached, or the error of a context that has ended |
| ResultWaiting.PollRescues | internal/queue/wait.go:95-145 | whatever was lost, two steps after a terminal cell is readable the waiter has its answer |
| ResultWaiting.LateSubscriptionLosesWakeup | internal/queue/wait.go:70-82 | a run without any failed call that leaves the waiter parked with nothing pending |
| ResultWaiting.RedeliveryHidesResult | internal/worker/worker.go:187-191 | a run in which a notified waiter stays parked although a result was cached |
| ResultWaiting.PollUntilDone | internal/queue/wait.go:148-187 | the poll ends with the first tick that reads a terminal cell, or with its context and the matching error |
| ResultWaiting.TickTimes | internal/queue/wait.go:145-187 | intervals are 100, 200, 400 and then 500 ms |
| ResultWaiting.AnsweredSoon | internal/queue/wait.go:145-187 | a cell that stays terminal and readable from some time on is answered within half a second |
| StreamDemux.LimitedWriter.Write | internal/sandbox/io.go:23-38 | the buffer holds the first limit bytes written; the count answered is short exactly when a write crosses the limit |
| StreamDemux.CopyN | internal/sandbox/docker.go:594-602 | for every chunking the writer gets the bytes consumed cut at its limit, and each error says why the copy stopped |
| StreamDemux.StdCopy | internal/sandbox/docker.go:566-604 | for every chunking the captures are the payloads of the bytes consumed cut at the limits; everything is consumed unless a stream overflows inside a chunk |
| StreamDemux.CaptureRun | internal/sandbox/docker.go:425-475 | each capture holds the payloads of its type (1 for output, 2 for errors) in what was read, cut at one megabyte; reading stops early only when one capture is full; both are complete exactly when both streams fit |
| StreamDemux.CaptureWireFrame | internal/sandbox/docker.go:573-604 | capturing the bytes t x y z b4 b3 b2 b1 and a payload of at most that big-endian size yields the payload as output when t is 1, as errors when t is 2, and nothing otherwise |
| StreamDemux.WireFrame | internal/sandbox/docker.go:573-604 | the payload of such a frame belongs to the stream numbered by its first byte, whatever follows it; fewer than eight bytes carry nothing |
| StreamDemux.DemuxInvertsFraming | internal/sandbox/docker.go:566-604 | the payloads read from encoded frames are those sent on each stream, and the bytes of all types are counted |
| StreamDemux.DemuxFrames | internal/sandbox/docker.go:566-604 | running the demultiplexer on encoded frames that fit, cut anywhere, ends without an error and yields prefixes of what was sent; uncut it yields exactly that and counts all payload bytes |
| StreamDemux.CutYieldsPrefix | internal/sandbox/docker.go:573-580 | the payloads read from encoded bytes cut anywhere are prefixes of those sent |
| StreamDemux.PayloadOfPrefix | internal/sandbox/docker.go:566-604 | a shorter stream gives prefixes of the payloads |
| StreamDemux.AfterWholeFrames | internal/sandbox/docker.go:566-604 | whole frames do not influence what is read after them |
| StreamDemux.FittingFramesNeverOverflow | internal/sandbox/io.go:23-38 | frames whose totals fit the limits, cut anywhere, cannot overflow |
| RateLimiting.RateLimiter.Allow | internal/cache/rate_limiter.go:44-82 | the set afterwards holds the call and every visible entry younger than the window, and no other key changes; allowed up to the limit, and the answer is what remains of it |
| RateLimiting.RateLimiter.RemainingRequests | internal/cache/rate_limiter.go:86-107 | answers the limit less the entries of the window, never below zero |
| RateLimiting.RateLimiter.BlockedUntil | internal/cache/rate_limiter.go:121-150 | blocked exactly when more than limit entries are in the window, until the oldest of them leaves it; a negative limit panics exactly when the window is empty |
| RateLimiting.SetIsWindow | internal/cache/rate_limiter.go:44-72 | however keys expired on the way, the set after a call is the window of the full history of calls |
| RateLimiting.ServedByHistory | internal/cache/rate_limiter.go:44-82 | a call is allowed if and only if it and the calls of the full history, rejected ones included, that are younger than the window are at most limit |
| RateLimiting.ExpiryHarmlessExactlyWhen | internal/cache/rate_limiter.go:67-72 | the time to live never changes a count exactly when it is at least the window |
| RateLimiting.WindowBound | internal/cache/rate_limiter.go:12-22 | any half-open window of the configured length holds at most limit allowed calls, and none with a negative limit |
| RateLimiting.RemainingIsKept | internal/cache/rate_limiter.go:74-82 | after the answer r the next r calls are allowed whatever their spacing |
| RateLimiting.PositiveRemainingServes | internal/cache/rate_limiter.go:86-107 | a positive answer means that the next call is allowed |
| RateLimiting.BlockedCallsRejected | internal/cache/rate_limiter.go:118-150 | every call up to and including the answered instant is rejected |
| RateLimiting.UnblockedButRejectedExactlyWhen | internal/cache/rate_limiter.go:140-144 | after "not blocked" the next call is rejected exactly when limit calls are still in its window |
| Tokenising.Tokenise | internal/runtime/commands.go:41-63 | the tokens of the reference split; a command all of whose spaces come after an odd number of quotes is one token, or none if nothing but quotes is in it |
| Tokenising.TokensKeepEverything | internal/runtime/commands.go:38-63 | tokens are non-empty, contain no quote, and concatenate to the command without quotes and unquoted spaces |
| Tokenising.OnlyUnquotedSpacesSeparate | internal/runtime/commands.go:47-58 | nothing but a space outside quotes separates: a command without one is the single token of its other characters but quotes |
| Tokenising.JoinsTokensExactlyWhen | internal/runtime/commands.go:38-63 | joining with a space joins the tokens, for every second command, exactly when the first has balanced quotes |
| Tokenising.RoundTripExactlyWhen | internal/runtime/commands.go:38-63 | quoting a list of tokens is undone exactly when no token is empty or contains a quote |
| Tokenising.BuildRunCommand | internal/runtime/commands.go:26-36 | for balanced run commands the arguments are appended as if typed after the command |
| Tokenising.BuildCompileCommand | internal/runtime/commands.go:13-22 | nothing for languages without a compile command, its tokens otherwise |

## Left out

- HTTP handlers, authentication, logging, metrics and tracing: no state of their own.
- The NATS transport: its routing is decided by single branches; the SQS path carries the stronger claim.
- Container creation, image pulls, resource limits and language tables: foreign calls and static data.
- The bound on concurrent work in sweeps and consumers: semaphores of the standard library; only the order and the set of what is handed out is modelled.
- Building a batch from a request and decoding its sources: input validation and library decoding.
- Receive-count thresholds of the redrive policy: configured outside the repository; a redrive may happen at any time here.
- Waiting for a result in `WaitForResult` is a transition system of single Redis calls rather than one method, because the worker runs in between; its poll loop is a method.
- The refill of the cached response by reading requests and the deletion of a submission: excluded, since a stale refill can overwrite a terminal response.
- Reconciling.BoundedWaiting: the list query always answers; a sweep whose query fails attempts nothing and is not counted.
- Payloads.BatchToResponse: does not model the id of the batch and the output fields of each submission, which are copied.
- Working.Worker.ProcessJob: of each row write only the status is kept, and the sandbox and the database container share one optional result; outputs and resource figures are copied.
- WebhookRetrying.WithinBudget: does not model a custom HTTP client with another timeout than the configured one.
- StreamDemux.StdCopy: does not model one writer used for both streams.
