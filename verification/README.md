# hiWaveTel: a verified model of its queues and state machines

hiWaveTel is an SMS gateway. SMS arrive from a modem, are persisted by a bounded queue of workers
with a dead-letter queue behind it, and are announced to webhooks by a durable outbox; SMS to be
sent go through a priority queue with an in-flight set. Old rows are rotated out. This project
models those parts in Dafny and proves what they promise, over every run and every interleaving.

Threads are modelled as interleaved steps: one step is one critical section, one database statement
or one modem or HTTP call. What the modem, the HTTP peers, the database and the clock answer is
arbitrary. `S` being a state and `es` a list of events, `Possible(S, es)` says that the run can
happen and `Run(S, es)` is where it ends; a theorem about `Run(Init, es)` holds for any number of
threads, messages and failures. Beside each transition system stands the imperative code: classes
whose fields the methods update in place, with contracts that tie each method to the steps of the
system. The row histories of `InboundHistory` and `InboundWebhooks` are persists made one after
the other; `InboundOverlap` splits the same calls into read and save, lets them overlap, and says
which runs still end as such a history.

| files | what they model |
|---|---|
| `WebhookDelivery`, `Outbox`, `OutboxSafety`, `OutboxRetries`, `OutboxFairness`, `OutboxLatePatches`, `WebhookOutbox` | the webhook job table, its workers with their stale copies, and the posting loops |
| `Outbound`, `OutboundSafety`, `OutboundQueue`, `OutboundOrder` | the outbound priority queue and the dispatch of a row |
| `Inbound`, `InboundHistory`, `InboundOverlap`, `InboundWebhooks` | one inbound row merged from repeated, partial snapshots, one after the other and overlapping, and the webhooks its saves schedule |
| `DeadLetter`, `DeadLetterBackoff`, `DeadLetterFairness`, `SmsDeadLetterQueue` | the dead-letter table and its batch processor |
| `Pipeline`, `PipelineHandIns`, `PipelineLogs`, `SmsQueue` | the inbound queue, the workers, the table and the dead-letter queue together |
| `Rotation`, `RotationTables`, `CleanupCommand`, `CleanupDryRun`, `CleanupTies`, `CleanupSweep` | the two storage rotation algorithms |
| `Snapshots`, `Flattening`, `Polling` | combining `mmcli` outputs, command retries, and polling for a text |
| `Common` | an optional value, counters, retried writes, and ASCII `strip` and `lower` |

## What the proofs turned up

Where the code and its own words or intent differ, the model follows the code.

- A database error while a job is processed is logged as "will retry"
  (`apps/sms/management/commands/run_webhook_worker.py:97`), but the job stays PROCESSING. It is
  delivered again only after a reset, which runs when a worker process starts, or a reschedule
  (`OrphanWaitsForReset`).
- `schedule_*_webhook` reads a job and saves it later, so it can take back a job that was claimed or
  delivered in between. The *exclusive* runs below are those without a reset or reschedule of a job
  that a live worker owns, and that regime is exact: after any other step a second worker can claim
  a held job (`OneOwnerIffExclusive`). A delivered job is safe from then on iff no such save is
  pending (`DeliveredIsFinalIff`).
- `WEBHOOK_JOB_MAX_ATTEMPTS` below 1 still gives a job one round: the limit is read after the
  delivery. The bounds therefore say `max(1, max_attempts)`.
- `_bump_attempts` adds one per run of the retried closure, so `attempts` can exceed the number of
  rounds; the bounds are inequalities, and exact where no bump had to be repeated
  (`GivenUpAfterItsRounds`).
- `persist_inbound_sms` locks only the creation of a row (`apps/sms/services.py:290-297`); the patch
  of an existing row is worked out on a copy and saved later. Of two overlapping persists the one
  with the shorter text can save last, and the longer text is lost (`ShorterTextCanWin`); a lost
  message can come back (`LossCanBeUndone`); the state can change a fourth time
  (`FourChangesCanHappen`). A run ends as if its persists came one after the other as long as each
  read leads to a patch that agrees with the unsaved ones on the fields they share, and that is
  exact: after any other read the older value can win (`FoldsIffAgreeing`).
- At-most-once sending depends on how rows are named: two references that `int()` reads as the same
  number are two in-flight keys, and two workers can send the row twice. It holds iff no two
  references in use name one row, as is so for the `str(pk)` the API uses, or there is at most one
  worker, which is the default (`SendsOnceIff`).
- A full dead-letter table refuses also the paths it already holds, and a table full of exhausted
  rows refuses everything until a row is removed by path (`CloggedStaysClogged`).
- The dry run of `_delete_oldest_modem_rows` announces the real count iff the limit is not negative
  or there are no rows.
- `cleanup_sms_storage` visits a modem once per distinct creation time of its rows, because
  `distinct()` under the default ordering also compares `created_at`. Its dry run announces a batch
  for every visit, and is exact iff every selected modem has no overflow, rows of one instant only,
  or a full batch for each of its instants (`SweepDryRunIsExactIff`); given distinct times, iff
  nothing overflows or the batch size is zero. The real count also includes the webhook jobs deleted
  by cascade (`CountsAgreeIff`).
- Rows with equal `created_at` may leave `cleanup_sms_storage` and `_delete_oldest_modem_rows` with
  different survivors of a modem. They are sure to be the same iff the visits reach the whole
  overflow and no row among the newest `limit` ties with one that is not (`SameSurvivorsIff`). Ties
  or not, once the visits suffice they are equally many since any instant (`SameSurvivorsUpToTies`).
- A worker that stored a path clears its dead-letter row afterwards, and so can erase the report of
  a later hand-in that failed in between (`ReportsCanBeErased`). Reports stand until they are
  answered iff no such late removal happens (`ReportsStandIff`).
- `schedule` leaves a DELIVERED job alone, so what is patched in a row after its webhook was
  delivered is never posted (`LatePatchIsPostedIff`).
- A batch that dies in the middle hands the retries it had taken back to its rows, so the wait of
  an eligible dead-letter row also grows with the rows that dead batches dropped.
- A timeout of `mmcli` is raised outside the `try` of `_retrying_run`, so it is never retried.
- The trailing sleep of the poll loop is unreachable (`assert false` stands in its place).
- Flattening needs both conditions on the keys: a dotted or an empty name lets two leaves collide
  (`DottedNamesCollide`, `EmptyNamesCollide`).

## Model

| member | source | states |
|---|---|---|
| WebhookDelivery.GetActiveWebhookUrls | apps/sms/webhook_delivery.py:44-58 | the result lists every non-empty normalised URL of an enabled hook of the modem exactly once, in the order of the first hook of each |
| WebhookDelivery.PostToUrl | apps/sms/webhook_delivery.py:117-141 | one URL is posted to until it acknowledges or `retry_max` is used up; True iff it acknowledged |
| WebhookDelivery.DeliverPayloadToUrls | apps/sms/webhook_delivery.py:113-153 | True iff every URL acknowledged one of its first `retry_max` posts; the posts made are exactly `PostLog` |
| WebhookDelivery.UrlPostsShape | apps/sms/webhook_delivery.py:117-128 | the posts to one URL number at most `retry_max`, stop at the first acknowledged one, and end acknowledged iff any attempt would be |
| WebhookDelivery.PostLogIsExact | apps/sms/webhook_delivery.py:114-143 | the posts of one delivery, exactly: attempt `k` at URL `i` is made iff attempts are left and none before it was acknowledged, URL by URL and attempt by attempt |
| WebhookDelivery.PostsBounded | apps/sms/webhook_delivery.py:114-117 | one delivery makes at most `urls * retry_max` posts |
| WebhookDelivery.EveryUrlIsTried | apps/sms/webhook_delivery.py:114-143 | every URL gets its first post, however many before it failed |
| OutboxSafety.DeliveredMeansAcknowledged | apps/sms/webhook_outbox.py:173-187 | in every interleaving a DELIVERED job had a delivery of its own that every URL acknowledged, an empty `last_error` and a `delivered_at` |
| OutboxSafety.AcknowledgedByADelivery | apps/sms/webhook_outbox.py:154-163 | a job enters the log of acknowledged ones only by a delivery whose worker holds that very job and whose URLs all acknowledged |
| OutboxSafety.NeverTwoJobsForOneSms | apps/sms/models.py:112-125 | in every run at most one job exists per SMS |
| OutboxSafety.OwnershipRun | apps/sms/webhook_outbox.py:124-187 | exclusive runs keep: each live worker's job is PROCESSING, agrees with its copy on `attempts`, and has no second owner |
| OutboxSafety.OneOwnerPerJob | apps/sms/webhook_outbox.py:124-141 | in every exclusive run from an empty table two live workers never hold the same job, and a held job is PROCESSING |
| OutboxSafety.OneOwnerIffExclusive | apps/sms/webhook_outbox.py:69-141 | from any state with single owners: no exclusive continuation of a step ever gives a job two owners iff the step is itself exclusive |
| OutboxSafety.PendingWhileHeld | apps/sms/webhook_outbox.py:124-136 | a held job that is pending again is claimed by a second worker in some run of claims alone |
| OutboxSafety.ResetKeepsOwnershipIff | apps/sms/webhook_outbox.py:102-121 | a reset can never lead to two owners of a job iff no job with a live owner is older than the cutoff |
| OutboxSafety.RescheduleKeepsOwnershipIff | apps/sms/webhook_outbox.py:69-72 | the save of a reschedule can never lead to two owners of a job iff its job has no live owner |
| OutboxSafety.RescheduleUnderALiveWorkerGivesTwoOwners | apps/sms/webhook_outbox.py:69-72 | a run in which a reschedule lets a second worker claim a job that is being processed |
| OutboxSafety.DeliveredIsLeftIff | apps/sms/webhook_outbox.py:69-72 | a step takes a job out of DELIVERED iff it is the save of a scheduler that read it earlier or another worker's finalize after a failed delivery |
| OutboxSafety.DeliveredIsFinal | apps/sms/webhook_outbox.py:173-179 | in exclusive runs a DELIVERED job with no pending `schedule` save never changes again |
| OutboxSafety.DeliveredIsFinalIff | apps/sms/webhook_outbox.py:69-72 | no exclusive run ever leaves DELIVERED iff no `schedule` call that read the job is still to save it |
| OutboxSafety.OrphanWaitsForReset | apps/sms/management/commands/run_webhook_worker.py:93-105 | a PROCESSING job without owner stays one unless a reset reaches it, a reschedule is saved or its SMS is deleted; no worker picks it up |
| OutboxLatePatches.LostWorkerIsNotRetried | apps/sms/management/commands/run_webhook_worker.py:93-105 | after a worker died or met a database error, its job gets no further round in any run without reset, reschedule or deletion |
| OutboxLatePatches.DeliveredIsPostedNoMore | apps/sms/webhook_outbox.py:69 | in exclusive runs a DELIVERED job with no pending save gets no further round, whatever is scheduled meanwhile |
| OutboxLatePatches.LatePatchIsPostedIff | apps/sms/webhook_outbox.py:58-72 | with no worker and no `schedule` call at work on a job, some exclusive run still posts it iff it is not DELIVERED |
| OutboxSafety.BoundedRounds | apps/sms/webhook_outbox.py:144-187 | in every exclusive run a job gets at most `max(1, max_attempts)` rounds plus one per reset or reschedule of it, rounds cut short by an exception or a dying worker included |
| OutboxSafety.BoundedPosts | apps/sms/webhook_outbox.py:144-187 | and at most that many times `retry_max * urls` posts, those of rounds cut short included |
| OutboxRetries.GivenUpIsExhausted | apps/sms/webhook_outbox.py:180-185 | in every exclusive run a job is FAILED only with at least `max_attempts` attempts counted |
| OutboxRetries.RefusedIsTriedAgainIff | apps/sms/webhook_outbox.py:180-187 | a refused round puts its job back to PENDING iff the attempts in the table are below the limit, and makes it FAILED otherwise |
| OutboxRetries.GivenUpAfterItsRounds | apps/sms/webhook_outbox.py:144-187 | without put-backs and repeated bumps a FAILED job had exactly `max(1, max_attempts)` rounds, and a PENDING one as many as attempts and fewer than that |
| OutboxRetries.RefusedJobGetsItsRounds | apps/sms/webhook_outbox.py:144-187 | for any limit: a run that refuses every delivery gives a job exactly `max(1, max_attempts)` rounds and then FAILED |
| OutboxRetries.FailedIsLeftIff | apps/sms/webhook_outbox.py:110-115 | while jobs have single owners a step takes a job out of FAILED iff it is the save of a `schedule` call; a reset does not |
| OutboxRetries.ClaimProtects | apps/sms/webhook_outbox.py:110-136 | from a claim or a bump on the job is PROCESSING and its worker's alone, through any resets that look back no further than to that moment |
| OutboxFairness.OldestPendingIsUnique | apps/sms/webhook_outbox.py:126-131 | the claim query has at most one answer |
| OutboxFairness.ClaimFindsAJobIff | apps/sms/webhook_outbox.py:126-133 | it has one iff some job is PENDING |
| OutboxFairness.BoundedBypass | apps/sms/webhook_outbox.py:124-136 | from any exclusive state, without resets and reschedules, the claims that pass over a PENDING job are at most the claims its older jobs have left |
| OutboxFairness.BoundedBypassFromStart | apps/sms/webhook_outbox.py:124-136 | from an empty table that bound is the sum of `max_attempts - attempts` over the unfinished older jobs |
| Retries.TriesShape | apps/sms/webhook_outbox.py:35-50 | how often a retried closure runs: up to its first answer that is not "locked", at most `retries` times |
| WebhookOutbox.RoundInOneGo | apps/sms/webhook_outbox.py:144-187 | bump, deliver and finalize of the transition system in a row change the job's row, and that alone, as `ProcessWebhookJob` does |
| WebhookOutbox.FinalizedRow | apps/sms/webhook_outbox.py:154-187 | every column of the row after a round: DELIVERED with a time and no error iff all URLs acknowledged, else PENDING below the limit and FAILED at it, with the error text cut to 2000 characters |
| WebhookOutbox.OutboxTable.Schedule | apps/sms/webhook_outbox.py:58-99 | one job per SMS: created PENDING, put back to PENDING if undelivered, untouched if DELIVERED |
| WebhookOutbox.OutboxTable.ResetStaleProcessingJobs | apps/sms/webhook_outbox.py:102-121 | exactly the stale PROCESSING rows change, and their number is returned |
| WebhookOutbox.OutboxTable.ClaimNextJob | apps/sms/webhook_outbox.py:124-141 | null iff nothing is PENDING, else the oldest pending job, now PROCESSING, in a fresh instance |
| WebhookOutbox.OutboxTable.BumpAttempts | apps/sms/webhook_outbox.py:148-152 | it saves iff the database lets it; the saved count grew by the number of closure runs |
| WebhookOutbox.OutboxTable.FinalizeJob | apps/sms/webhook_outbox.py:173-187 | it saves iff the database lets it; the row is DELIVERED, or after a refusal PENDING with attempts below `max_attempts` and FAILED from there on |
| WebhookOutbox.OutboxTable.ProcessWebhookJob | apps/sms/webhook_outbox.py:144-206 | it raises iff a save fails; the attempt is counted iff the first save succeeds; if the second does the row is DELIVERED iff all URLs acknowledged, and otherwise PENDING below `max_attempts` and FAILED from there on; no other row changes |
| OutboundSafety.PartitionRun | apps/sms/outbound_processor.py:96-148 | every run keeps: the in-flight set is the disjoint union of the reserved, queued and processing keys, each once |
| OutboundSafety.MutualExclusion | apps/sms/outbound_processor.py:96-148 | no two holders, in particular no two workers, ever have the same key |
| OutboundSafety.RollbackRestores | apps/sms/outbound_processor.py:114-118 | the rollback on a full queue takes out exactly the reserved key |
| OutboundSafety.AtMostOneSend | apps/sms/services.py:434-489 | over re-enqueues, failing dispatches and restarts `send_sms` is called at most once per row, and a row with a send is no longer CREATED |
| OutboundSafety.SendFollowsStore | apps/sms/services.py:453-456 | whenever a send is possible the row is stored as SENDING and was never sent |
| OutboundSafety.RowsOnlyMoveForward | apps/sms/services.py:453-476 | a row only goes CREATED, SENDING, SENT or FAILED, or from CREATED straight to FAILED |
| OutboundSafety.RowsGoOnlyByDeletion | apps/sms/services.py:453-476 | only a deletion takes a row away and only a new row adds one; a restart keeps the table |
| OutboundSafety.DispatchesTakeTurns | apps/sms/mmcli_lock.py:18-30 | in every run, while one dispatch is between entering the modem lock and storing its outcome, no other is |
| OutboundSafety.TwoSpellingsSendTwice | apps/sms/outbound_processor.py:152-168 | for any two references to one row and two workers there is a run, in which the dispatches take turns at the modem, that sends it twice |
| OutboundSafety.SendsOnceIff | apps/sms/outbound_processor.py:88-173 | no run using these references sends a row twice iff no two of them name the same row or there is at most one worker |
| OutboundSafety.ShowReadsBack | apps/sms/outbound_processor.py:153 | decimal reading gives back the key from the text `str(pk)` writes |
| OutboundSafety.StrIsOneSpelling | apps/sms/views.py:62 | so with the references `str(pk)` no row is ever sent twice |
| OutboundQueue.OutboundProcessorQueue.Enqueue | apps/sms/outbound_processor.py:88-118 | a key in flight is accepted without effect; a full queue restores the in-flight set; otherwise key and counters are added and the job waits behind all accepted before it |
| OutboundQueue.OutboundProcessorQueue.Take | apps/sms/outbound_processor.py:19-33 | of the jobs in the order in which they were accepted the first with priority "urgent" is taken, else the first "high" one, else the first; the order of the others stays |
| OutboundOrder.GetsTheMostUrgent | apps/sms/outbound_processor.py:19-33 | in every run a free worker gets a job iff no queued job is more urgent by the text of its priority, and none as urgent has a lower number |
| OutboundOrder.QueueStaysBounded | apps/sms/outbound_processor.py:108-118 | in every run a bounded queue holds at most its maximum |
| OutboundOrder.EnqueueInOneGo | apps/sms/outbound_processor.py:96-118 | the steps of one `enqueue` in a row change the system as the method changes the object |
| OutboundQueue.DispatchIsItsSteps | apps/sms/services.py:434-489 | the steps of an uninterrupted dispatch leave the row in the state written out and send it iff SENDING was stored |
| OutboundQueue.OutboundSms.Dispatch | apps/sms/services.py:451-489 | state, path and error text as the database holds them afterwards; the webhook is scheduled iff SENT is stored; without an exception the row is SENT or FAILED and the instance agrees with it |
| DeadLetter.TableStaysBounded | apps/sms/dead_letter_queue.py:63-139 | in every run: rows at most `max_size`, one per path, retries at most `max_retries` |
| DeadLetter.ExhaustedIsNeverDequeued | apps/sms/dead_letter_queue.py:93-101 | a row without retries left is in no later batch, however often its path is reported |
| DeadLetter.CloggedStaysClogged | apps/sms/dead_letter_queue.py:66-73 | a table full of exhausted rows never changes in runs without a removal by path |
| DeadLetter.BackoffGrowsToAnHour | apps/sms/dead_letter_queue.py:125-126 | waiting times never decrease with the retry count and are at most 3600 seconds |
| DeadLetterBackoff.BackoffInSeconds | apps/sms/dead_letter_queue.py:125-126 | the wait after the n-th retry is the interval times 2, 4, 8, 16, 32, 64, and 64 from then on, and an hour at most |
| DeadLetterBackoff.WaitsOutItsBackoff | apps/sms/dead_letter_queue.py:89-139 | in every run a row whose retry failed is in no batch before that time is over, unless its path is reported anew |
| DeadLetterBackoff.RetriedOnceItsBackoffIsOver | apps/sms/dead_letter_queue.py:89-139 | a batch below its limit takes such a row iff that time is over and retries are left |
| DeadLetterBackoff.ReportIsDueAtOnce | apps/sms/dead_letter_queue.py:73-101 | after an accepted report a batch below its limit takes the row of the path iff retries are left, whatever backoff was running |
| DeadLetterBackoff.BatchIsUnique | apps/sms/dead_letter_queue.py:93-101 | unless two failures tie the select has one answer |
| DeadLetterBackoff.DifferenceIsATie | apps/sms/dead_letter_queue.py:93-101 | and where two answers differ in a row, another row failed at the same instant |
| DeadLetterFairness.BoundedBypass | apps/sms/dead_letter_queue.py:89-139 | batches that pass over an eligible row, times their limit, are at most the retries left in rows that failed earlier plus the rows dropped by batches that died |
| DeadLetterFairness.RetriedWithinBound | apps/sms/dead_letter_queue.py:89-167 | after any run with a strict clock an eligible row not reported again is retried within that sum divided by the limit, plus one, batches |
| SmsDeadLetterQueue.Queue.Enqueue | apps/sms/dead_letter_queue.py:63-87 | refused iff the table is full; a known path keeps its row and retry count, a new one gets a row |
| SmsDeadLetterQueue.Queue.DequeueBatch | apps/sms/dead_letter_queue.py:89-102 | the batch is the oldest rows with `retry_count` below the limit and `next_retry_at` not in the future, cut off at the limit and complete below it |
| SmsDeadLetterQueue.Queue.MarkRetryFailed | apps/sms/dead_letter_queue.py:116-139 | the row, if still there, is charged one retry and the wait in seconds that goes with it; nothing else changes |
| SmsDeadLetterQueue.Queue.ProcessBatch | apps/sms/dead_letter_queue.py:145-167 | only rows that are due are tried; recovered ones go, failed ones are charged one retry and its wait at the time they failed, all others stay; `processed` is `recovered + failed` |
| Inbound.SightingInWords | apps/sms/services.py:220-278 | a lost message marks its row unless it is unavailable or missing already; a snapshot makes a row iff there is no whitelist or its sender is on it, and one off the whitelist changes nothing |
| Inbound.Refresh | apps/sms/services.py:335-352 | the patch loops assign exactly the fields that should be updated in the copy that was read, to the row the table holds by then |
| Inbound.PatchByField | apps/sms/services.py:323-352 | field by field: what is saved is decided on the copy, and every other column keeps what the table holds |
| Inbound.InboundTable.GetOrCreate | apps/sms/services.py:286-314 | the retried creation: None iff every try fails; the row is created iff the path is new; the copy returned is the row |
| Inbound.InboundTable.PatchRow | apps/sms/services.py:323-353 | a possibly stale copy decides what is saved: exactly its patch goes into the row of the table as it is by then; it fails iff there is a patch and the row is gone or the save refused |
| Inbound.InboundTable.PersistInbound | apps/sms/services.py:203-353 | one call that no other persist of the path interrupts: it is rejected iff there is a whitelist without the sender; the new table, what was saved, and the unavailable and failed outcomes; a call that is rejected or fails changes nothing, and no other row ever changes |
| SmsQueue.PersistInboundSms | apps/sms/services.py:355-363 | in addition it is rejected iff there is a whitelist without the sender, and a stored snapshot, and nothing else, clears its path from the dead-letter queue |
| SmsQueue.ProcessSms | apps/sms/queue_processor.py:112-140 | the path ends up stored, rejected (iff there is a whitelist without the sender) or on record, and off the dead-letter table when a snapshot of it was stored |
| InboundHistory.PersistingIsTheClosedForm | apps/sms/services.py:82-102 | snapshots persisted one after the other end in: the first longest text, the first non-empty sender, smsc and timestamp, the first settled else first non-empty state |
| InboundHistory.StateOfSnapshot | apps/sms/services.py:90-100 | the state is that of the first snapshot whose state is not receiving, unknown or empty, or without one of the first that is not empty |
| InboundHistory.HistoryIsTheClosedForm | apps/sms/services.py:220-226 | the same with rejected snapshots and losses in between: once lost the state is 'unavailable' for good (or the unavailable state it had), the other columns are unaffected |
| InboundHistory.ClosedFormIsUnique | apps/sms/services.py:82-102 | the closed form determines every column |
| InboundHistory.RejectedLeaveNoTrace | apps/sms/services.py:257-278 | rejected snapshots leave the row as if they had not come |
| InboundHistory.StoredIffSomeoneAllowed | apps/sms/services.py:257-278 | after any history the row exists iff some snapshot came from a sender on the whitelist, or there is no whitelist |
| InboundHistory.SeenIsAbsorbed | apps/sms/services.py:335-353 | persisted one after the other, a snapshot anywhere in the history has nothing more to add |
| InboundHistory.RepeatedSnapshotIsSilent | apps/sms/apps.py:31-49 | persisting it again after such a history writes nothing and schedules no webhook |
| InboundHistory.WriteMakesProgress | apps/sms/services.py:220-226 | every uninterrupted save adds to the row's progress, and a change of `mm_state` strictly raises its rank, the unavailable overwrite included |
| InboundHistory.WrittenFieldsAreTheChangedOnes | apps/sms/services.py:323-353 | the fields a save names are exactly those whose value it changes, and without a change there is no save |
| InboundHistory.LifetimeBounds | apps/sms/services.py:220-226 | persisted one after the other, `mm_state` changes at most three times and the row is saved at most 7 + its text length times |
| InboundOverlap.PersistIsReadThenSave | apps/sms/services.py:286-353 | read and save in a row do to the row what one uninterrupted persist does |
| InboundOverlap.AgreeingRunsFold | apps/sms/services.py:286-353 | in every run of overlapping persists in which unsaved patches agree on the fields they share, the row is what its completed persists make of it one after the other, in closed form |
| InboundOverlap.SerialIsAgreeing | apps/sms/services.py:286-353 | runs in which no persist reads while another is between read and save are among these |
| InboundOverlap.FoldsIffAgreeing | apps/sms/services.py:335-353 | a step leaves every agreeing continuation at that history iff it is no read whose patch disagrees with an unsaved one |
| InboundOverlap.RepeatIsSilent | apps/sms/services.py:335-353 | in agreeing runs a snapshot already persisted leads to no further save |
| InboundOverlap.AtMostThreeChanges | apps/sms/services.py:220-226 | in agreeing runs the stored `mm_state` changes at most three times |
| InboundOverlap.SavesAreBounded | apps/sms/services.py:335-353 | in runs without overlap the row is saved at most 7 + its text length times |
| InboundOverlap.ShorterTextCanWin | apps/sms/services.py:335-353 | for any row and any two longer texts: a run in which both are persisted and the shorter one is left |
| InboundOverlap.LossCanBeUndone | apps/sms/services.py:220-226 | for any row and any state that updates it: a run in which the loss of the message is saved and then overwritten |
| InboundOverlap.FourChangesCanHappen | apps/sms/services.py:220-226 | for any stale and any settled state: a run from no row in which the state changes four times |
| InboundWebhooks.LastScheduleCarriesTheMessage | apps/sms/apps.py:17-49 | whatever history leaves a ready row: one of its saves stored the sender, text and state it ends with, schedules the webhook unless it is an echo, and no later save does |
| InboundWebhooks.SchedulesIffTheMessageChanged | apps/sms/apps.py:17-49 | a persist schedules the webhook iff the row has a text or a sender, is no echo, and was created or had its text, sender or state changed |
| Polling.PolledFieldsAreExtracted | apps/sms/services.py:248-255 | whatever the modem answers, the persisted fields are stripped, as the histories above require |
| Pipeline.DlqStepsAreItsOwn | apps/sms/dead_letter_queue.py:145-167 | seen from the dead-letter queue every step of the pipeline is one of its own steps or none |
| Pipeline.NothingIsLost | apps/sms/queue_processor.py:65-140 | in every run each path handed in is queued, held, was stored, rejected or refused, or is in the dead-letter table; each hand-in is counted once; the queue stays within its bound |
| PipelineLogs.TheWhitelistDecides | apps/sms/services.py:257-278 | in every run a path is logged as rejected iff a snapshot of it came from a sender off the whitelist, and as stored iff one came from a sender on it, or there is none |
| PipelineLogs.HasARowIff | apps/sms/services.py:203-353 | a path has a row after a step iff the step persisted such a snapshot of it, or it had one and the step did not delete it |
| PipelineLogs.HandInIsQueuedIff | apps/sms/queue_processor.py:65-87 | a hand-in is queued iff the queue is unbounded or has room, and else about to be reported |
| PipelineLogs.PersistIsReportedIff | apps/sms/queue_processor.py:112-140 | a persist ends in a report iff the database fails it, or the message is lost and the path has no row |
| PipelineLogs.ReportIsRefusedIff | apps/sms/dead_letter_queue.py:63-87 | a report is refused iff there is no dead-letter queue or it is full |
| PipelineLogs.BatchRowIsChargedIff | apps/sms/dead_letter_queue.py:150-166 | a row of a batch is charged a retry iff its persist fails; otherwise nothing but its removal can come next in the batch |
| PipelineHandIns.EveryHandInHasAPlace | apps/sms/queue_processor.py:65-140 | in every run each single hand-in, a repeated path included, is in exactly one place: queued, in one thread's hands, or settled with its fate |
| PipelineHandIns.EveryReportStands | apps/sms/dead_letter_queue.py:145-167 | in runs that erase no report, a hand-in whose failure was reported is in the dead-letter table until its path is persisted after the report |
| PipelineHandIns.ReportsStandIff | apps/sms/dead_letter_queue.py:110-114 | a step leaves every report standing iff it removes no path that has an unanswered report |
| PipelineHandIns.ReportsCanBeErased | apps/sms/services.py:359-361 | for any path and accepted snapshot: a run in which a second hand-in is reported and the clearing of the first erases the report |
| SmsQueue.SmsProcessingQueue.Enqueue | apps/sms/queue_processor.py:65-87 | refused iff full, else appended at the end |
| SmsQueue.SmsProcessingQueue.Take | apps/sms/queue_processor.py:94-103 | the oldest job is taken |
| SmsQueue.EnqueuePersistFailure | apps/sms/dead_letter_queue.py:222-231 | the path is in the table, or the table is full or switched off; the table changes by exactly this report |
| SmsQueue.OnAdded | apps/sms/dbus_watch.py:175-195 | the path ends up queued, or reported with "persist queue full" and on record |
| SmsQueue.SyncSnapshot | apps/sms/dbus_watch.py:81-100 | the first paths are queued in order, as many as fit; the later ones are reported one after the other, and every one of them is on record |
| Rotation.ListingIsUnique | apps/sms/services.py:511 | the order by `created_at, pk` has one answer |
| Rotation.RankInListing | apps/sms/services.py:511 | the position in it says how many rows of the modem are newer |
| RotationTables.DroppingOldestKeepsNewest | apps/sms/services.py:492-520 | deleting the oldest `count - limit` keeps exactly the newest `limit` rows and all other modems |
| RotationTables.DeletedAreOlder | apps/sms/services.py:511 | every deleted row of the modem is older than every one that is kept, by creation time and then by key |
| RotationTables.ModelTable.DeleteOldestModemRows | apps/sms/services.py:492-520 | batched deletion, for any positive batch size, keeps exactly those; the dry run changes nothing and announces its count; a batch size of zero deletes nothing, a negative one raises iff there is an excess |
| RotationTables.DryRunIsExactIff | apps/sms/services.py:501-516 | the announced count is the real one iff the limit is not negative or there are no rows |
| RotationTables.RotateModemSmsStorage | apps/sms/services.py:523-566 | afterwards inbound plus outbound rows of the modem are at most `max(2, limit)`, the newest of each; an exception of the first table leaves the second alone |
| CleanupCommand.Visit | apps/sms/management/commands/cleanup_sms_storage.py:22-33 | a visit shrinks the overflow of this modem by `min(overflow, batch)`, leaves other modems alone and keeps the newest, however ties are ordered; given distinct times it takes the newest overflow rows; the count is rows plus cascaded jobs |
| CleanupCommand.NewestSurvive | apps/sms/management/commands/cleanup_sms_storage.py:23-27 | over any visits: a row that fewer than `limit` others of its modem equal or beat in newness is never deleted, ties or not |
| CleanupCommand.UnvisitedKeepsAll | apps/sms/management/commands/cleanup_sms_storage.py:22-23 | a modem that is not visited keeps all its rows |
| CleanupCommand.SurvivorsByTime | apps/sms/management/commands/cleanup_sms_storage.py:16-34 | after `ceil(overflow / batch)` visits as many rows are left since any instant as the newest `limit` rows have |
| CleanupCommand.SameSurvivorsUpToTies | apps/sms/services.py:492-520 | there both algorithms leave equally many rows since any instant, on every table |
| CleanupTies.EnoughVisitsKeepNewest | apps/sms/management/commands/cleanup_sms_storage.py:16-34 | once the visits reach the whole overflow and no tie crosses the boundary of the newest `limit`, exactly those are left |
| CleanupTies.TieRun | apps/sms/management/commands/cleanup_sms_storage.py:23-27 | with such a tie and any visit of the modem, an order of the ties exists in which a row among the newest is deleted |
| CleanupTies.NewestAreLeftIff | apps/sms/management/commands/cleanup_sms_storage.py:16-34 | the visits are sure to leave exactly the newest `limit` rows of a modem iff they reach its whole overflow and no tie crosses that boundary |
| CleanupTies.SameSurvivorsIff | apps/sms/management/commands/cleanup_sms_storage.py:16-34 | however the database orders ties, the survivors of a modem are sure to be those of `_delete_oldest_modem_rows` iff the visits reach its whole overflow and no row among its newest `limit` ties with one that is not |
| CleanupDryRun.VisitAll | apps/sms/management/commands/cleanup_sms_storage.py:22-34 | the loop over any sequence of visits: each modem has lost `min(overflow, visits * batch)` rows and kept its newest; the dry run counts `DryRunTotal`, the real run the rows gone and their webhook jobs |
| CleanupDryRun.VisitsKeepNewest | apps/sms/management/commands/cleanup_sms_storage.py:23-34 | whatever a sequence of visits leaves: no newest row of any modem is gone, the overflows have shrunk by the visits, and `RealTotal` rows are gone |
| CleanupDryRun.VisitsTrim | apps/sms/management/commands/cleanup_sms_storage.py:23-34 | given distinct times exactly the oldest `min(overflow, visits * batch)` rows of each modem are gone |
| CleanupDryRun.AnnouncedIsDeletedIff | apps/sms/management/commands/cleanup_sms_storage.py:30-33 | the dry run never announces less than is deleted, and announces exactly that iff every modem has no overflow, at most one visit, or `visits * batch` within its overflow |
| CleanupSweep.CountsAgreeIff | apps/sms/management/commands/cleanup_sms_storage.py:30-34 | where no tie crosses a boundary the two counts agree iff as many overflow rows have a webhook job as rows are announced in vain, both known before the call |
| CleanupSweep.SweepVisits | apps/sms/management/commands/cleanup_sms_storage.py:22 | the command visits a selected modem once per distinct creation time of its rows, and no other |
| CleanupSweep.SweptByIndex | apps/sms/management/commands/cleanup_sms_storage.py:18-34 | whatever visits a sweep makes: without `--modem-index` every modem, and with it only that one, loses one batch of its overflow per instant |
| CleanupSweep.SweepDryRunIsExactIff | apps/sms/management/commands/cleanup_sms_storage.py:22-34 | on every table the dry run is exact iff each selected modem has no overflow, rows of one instant only, or a full batch for each of its instants |
| CleanupSweep.SweepDryRunGivenDistinctTimes | apps/sms/management/commands/cleanup_sms_storage.py:22-34 | given distinct times that is iff no selected modem overflows or the batch size is zero |
| CleanupSweep.SweepLeavesNewestIff | apps/sms/management/commands/cleanup_sms_storage.py:16-34 | the sweep is sure to leave exactly the newest `limit` rows of a selected modem iff its instants times the batch size reach its overflow and no tie crosses the boundary |
| CleanupSweep.DistinctTimesAreClear | apps/sms/management/commands/cleanup_sms_storage.py:22-27 | distinct times and a positive batch size meet that condition for every modem |
| CleanupSweep.DryRunAnnouncesTooMuch | apps/sms/management/commands/cleanup_sms_storage.py:22-31 | a table of two rows on which it announces more than is deleted |
| CleanupSweep.RotateModel | apps/sms/management/commands/cleanup_sms_storage.py:16-34 | the whole function, on every table: with `--modem-index` every row of the other modems stays; each selected modem ends with `n - min(overflow, instants * batch)` rows, its newest among them, and exactly its newest `limit` if its instants suffice and no tie crosses the boundary; the count is exact; a negative batch size deletes nothing, and raises iff some slice would end below zero |
| Snapshots.MergeSources | apps/sms/mmcli_client.py:333-349 | the merge is the function `Merged`, per key |
| Snapshots.BestIsFirstLongest | apps/sms/mmcli_client.py:339-348 | the value merged for a key is the first longest of its stripped, non-blank values |
| Snapshots.MergedEntry | apps/sms/mmcli_client.py:333-349 | a key is in the merge iff some part has a value for it that is not blank or `--`, and the value is that of the first part whose value is as long as any |
| Snapshots.MergeRegroups | apps/sms/mmcli_client.py:333-349 | merging groups first and then their results changes nothing |
| Snapshots.MergeIsIdempotent | apps/sms/mmcli_client.py:333-349 | merging once more, or a merge with itself, changes nothing |
| Snapshots.FallbackIsThePlainOutput | apps/sms/mmcli_client.py:260-268 | when key-value and JSON merge to nothing the three-way merge is that of the plain output |
| Snapshots.Extract | apps/sms/mmcli_client.py:403-456 | an extractor returns the first non-blank value among its keys |
| Snapshots.ExtractedValue | apps/sms/mmcli_client.py:403-456 | that value is stripped and every earlier key is blank; '' iff all are |
| Snapshots.ExtractedInWords | apps/sms/mmcli_client.py:403-456 | it is that of the first key that is there with a value other than blank or `--` |
| Flattening.FlattenDict | apps/sms/mmcli_client.py:366-381 | the loop and recursion compute `Flatten`, a later entry replacing an earlier one |
| Flattening.JoinIsInjective | apps/sms/mmcli_client.py:376 | two paths of non-empty, dot-free names with the same dotted key are equal |
| Flattening.FlatteningLosesNothing | apps/sms/mmcli_client.py:366-381 | flat keys and leaf paths correspond one to one, and each key looks up to its leaf |
| Flattening.DottedNamesCollide | apps/sms/mmcli_client.py:376 | any name split at a dot, at any depth, is overwritten by its nested spelling |
| Flattening.EmptyNamesCollide | apps/sms/mmcli_client.py:376 | any leaf under an empty top-level name is overwritten by the one beside it |
| Polling.RetryingRun | apps/sms/mmcli_client.py:98-127 | it returns the first run that is not a transient failure, or the last of `max_retries` |
| Polling.ShowSms | apps/sms/mmcli_client.py:236-268 | None iff a command it needs fails, else the two-way merge, or the plain output alone if that is empty |
| Polling.Judge | apps/sms/services.py:160-198 | an answer is asked again iff its text is empty and a retry condition remains; the trailing sleep is never reached |
| Polling.AsksAgainIff | apps/sms/services.py:105-114 | when an empty answer is asked again, by its state, sender, time, the tries left and the time left |
| Polling.OwnKeysDecide | apps/sms/mmcli_client.py:403-456 | each field is the value under the key `mmcli` names it by, whenever that has one |
| Polling.NoKeyFeedsTwoFields | apps/sms/mmcli_client.py:403-456 | no key is read for two fields |
| Polling.FetchSnapshotWithRetries | apps/sms/services.py:147-200 | it ends within `max(tries, ceil(max_wait/backoff) + 1)` calls; every earlier answer was empty and asked again; an empty body is returned only when no retry condition remains |
| Text.StripIsExact | apps/sms/services.py:78-79 | `strip` takes away exactly the ASCII white space at both ends |
| Text.LowerIsExact | apps/sms/services.py:78-79 | `lower` maps each ASCII capital to its small letter and keeps all else |

## Left out

- Modem readiness, identity, registry and environment probing (`modem_*.py`): text matching on an external tool.
- `inbound_processor.py`, superseded by the outbox, `metrics.py`, and views, serializers, admin, settings and migrations.
- D-Bus and asyncio reconnects, subprocesses, HTTP, SSL, logging, random jitter and real sleeps; only the integer backoff is kept.
- SQLite and ORM internals: each statement is one atomic step, and an error leaves no partial write.
- Starting and stopping the threads; a stopped queue keeps what it holds.
- Several processes sharing a dead-letter file or an outbound queue: their locks and sets are per process.
- `find_matching_outbound` and `inbound_should_skip_webhook`: whether a row is an echo of a sent SMS is the parameter `echo` of `Inbound.Schedules`.
- `normalize_webhook_url` and the payload builders: normalisation is a function parameter of `GetActiveWebhookUrls`.
- Unicode white space and case: `strip` and `lower` are ASCII.
- `_parse_keyvalue`, `_normalize_mmcli_json` and JSON parsing: their results are the inputs of the merge.
- `send_sms` itself may run `mmcli --send` more than once when a run fails as transient; the bound is on its calls.
- The synchronous send without a queue, which does not check for CREATED, the save of `modem_index` during dispatch, and the readiness refresh after a failed one.
- `refresh_stale_inbound_sms_rows` and the recovery command: further callers of `persist_inbound_sms`, covered by the `Refresh` step of `Pipeline`.
- Exceptions other than a full queue in the snapshot loop, which only logs them.
- OutboundQueue.OutboundProcessorQueue.Take: the heap of the priority queue is a set from which the least element is taken.
- CleanupSweep.RotateModel: with a tie across the boundary which of the tied rows are left is the database's choice; sizes, counts and the rows that are certain to stay are stated for all tables.
- DeadLetterFairness.RetriedWithinBound: assumes a clock that moves between reports and one batch processor.
- SmsDeadLetterQueue.Queue.ProcessBatch: that other threads enqueue and remove rows meanwhile, and that an exception ends the batch, is in `DeadLetter`.
- Polling.FetchSnapshotWithRetries: settings are numbers; text that does not parse as one gets the default before.
- Inbound.InboundTable.PersistInbound: one uninterrupted call; `InboundOverlap` has the calls that overlap.
- InboundHistory.HistoryIsTheClosedForm: persists one after the other, like the other members of `InboundHistory`; what carries over to overlapping persists is in `InboundOverlap`.
- InboundOverlap.AgreeingRunsFold: the life of one row; a row that is deleted while a persist is under way is a save that raises.
- InboundWebhooks.LastScheduleCarriesTheMessage: persists one after the other; whether a save is an echo is a parameter.
- Pipeline.NothingIsLost: `Pipeline` tracks which paths have a row, not what is in it, and a dead-letter store that raises loses the path; the model assumes that it does not.
