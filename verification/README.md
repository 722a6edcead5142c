# Delivery tracking: verified models of the offline pipeline and its companions

This project models, in Dafny 4.11, the parts of the delivery-tracking system whose correctness
depends on more than one function at a time, and proves what they promise. `dafny verify
dfyconfig.toml` checks everything.

| component | files |
|---|---|
| the offline position queue: store, compaction, eviction, chunked flush | `PositionStore.dfy` (specification), `OfflineQueue.dfy` (the functions as they run) |
| the same queue with every `await` interleaved, batch acknowledgements, timers, server | `QueueProtocol.dfy` (transition system), `QueueSafety.dfy` (invariant), `QueueTheorems.dfy`, `QueueFates.dfy` (no silent loss, position by position), `QueueEvictions.dfy` (when evictions are reported), `QueueProgress.dfy` (the lock can be released), `QueueSteps.dfy` (what a call has counted and how large a batch is), `QueueRounds.dfy` (one round of a flush; the queue can be drained), `QueueWitnesses.dfy` (runs that attain the bounds or break weaker assumptions), `BatchPromise.dfy` (the promise of one batch) |
| the single-position send: busy flag, throttle, timeout, rejection | `PositionSender.dfy` |
| the sender and the queue together, end to end | `DriverPipeline.dfy` |
| proximity reminders, dismissal, escalation | `ProximityReminder.dfy` |
| webhook retries | `WebhookRetry.dfy` (specification and entry points), `WebhookProtocol.dfy` (several instances at once), `WebhookSafety.dfy`, `WebhookProgress.dfy` (one retry from its selection to its answer) |
| repeated-error alerts | `AlertWindow.dfy`, `AlertInterleaving.dfy` (errors arriving while an alert is being sent) |
| line wrapping of the printed guide | `TextWrap.dfy`, `TextWrapOptimal.dfy`, `TextWrapOrder.dfy` |
| the cache over Redis with an in-memory fallback | `CacheService.dfy` |
| revocation of access tokens | `TokenRevocation.dfy` |

Every imperative function is a method of a class with the same fields, proved equal to a
specification function or step, and beside that its contract says in figures what it does, without
that function; the theorems are about those functions and steps. A protocol is a
total step function `Apply` over states and events; an event that is not enabled changes nothing,
and theorems quantify over every event sequence. Clocks, network outcomes, storage errors and the
answers of Redis, of the URL check and of the receiver of a webhook are parts of the events.

## Where the code and its comments differ

* Eviction is said to happen only for an entirely recent queue (`offlineQueue.ts:12-14`,
  `128-130`). It happens exactly when the entries that are not old, with one for each 45 s slice
  of old ones, fill the quota (`EvictionCondition`, for a store of any size). For a store within the
  quota this says that the queue is full and no two old entries share a slice
  (`EvictionWithinQuota`); a queue of old entries in distinct slices evicts too (`EvictsOldQueue`).
* Eviction is said to be always reported. If the insertion that follows an eviction fails, the call
  is rejected and nothing reports the evicted position (`FailedInsertHidesEviction`). That is the
  only exception: an eviction goes unreported exactly if a storage error hits its call between the
  eviction and the insertion (`EvictionsAreReported`, `AllEvictionsReportedIff`).
* The quota is exact only when enqueue calls do not overlap. With at most K at once the bound is
  the quota plus K - 1 (`QuotaUnderConcurrency`), and it is attained (`QuotaIsTight`): the quota holds
  for K at most 1 and for no other K (`QuotaHoldsIffSequential`).
* The acknowledgement of a single position carries no id. A late one can settle the next request
  and lose its position (`LateAnswerLosesAPosition`). A position in flight can be lost in this way
  exactly if the server does not have it yet and to an earlier position an answer saying saved can
  still arrive: the server has not dealt with that one, or its answer is on its way
  (`MisattributionCondition`). The batch acknowledgement carries an id, and without it the same would
  happen there (`UntaggedAnswersLose`).
* A position whose enqueue fails is said to be retried at the next tick (`useDriverTracking.ts:649`).
  Nothing keeps it: the error is swallowed, and the next tick offers whatever fix is then current.
  The same goes for one whose enqueue answers `queued: false`, for which no alert is raised. Together with a misattributed answer and an
  unreported eviction these are the only ways an offered position is lost
  (`EveryOfferedPositionIsSafeOrLost`).
* The bounds of the error alert assume that sending takes no time. While a send is awaited, 18
  errors may raise nothing and 29 may raise three alerts (`SlowSendsMissAlerts`,
  `SlowSendsAlertTooOften`), because the awaiting call puts its own entry back. It does so exactly if
  an error was counted on the entry it holds during the send (`ResumeDisturbsIff`); in every run
  without that, the same errors alert as with instantaneous sends (`UndisturbedRunsAreSequential`).
  That ten errors within five minutes stand behind each alert holds in any case
  (`SlowAlertsAreJustified`).
* The fallback of the cache deletes by prefix. This is what Redis does for patterns `prefix*` and for no
  others (`FallbackDeletesWhatRedisDoes`); a key given by its exact name, as in
  `delivery-proximity.service.ts:62`, also removes the keys it begins (`ExactKeyDeletesMoreInFallback`).
* When Redis comes and goes the cache can answer an older or an invalidated value
  (`FlappingRedisForgetsOrder`). In any run it answers what landed last on the side that is read
  (`AnswerIsWhatLanded`), which is right exactly if that is what was written last
  (`LastWriteIsReadIff`).
* A word that has to be cut is wrapped out of turn: its pieces are pushed ahead of the line being
  filled. The lines read as the text does if no word after the first has to be cut, and only then if no
  character occurs twice (`OrderIsKeptIff`).
* A revocation key covers a token's whole life exactly when it lives as long as the token. A
  malformed lifetime reads as 900 s, and a later revocation with a shorter key shortens the cover: the
  last one decides (`CoverIsWholeIffKeyOutlivesToken`, `ShorterRevocationUncovers`,
  `LastRevocationDecides`). Every setting this reader accepts is covered, and another form that the
  signer may accept, such as one week written "1w", only if it means 15 minutes or less
  (`SettingIsLongEnoughIff`, `WeekReadsAsQuarterHour`).

## Model

| member | source | states |
|---|---|---|
| OfflineQueue.OfflineQueue.DeletePositions | frontend/src/services/offlineQueue.ts:301-310 | exactly the entries with the listed ids leave; ids already gone are skipped; order is kept |
| OfflineQueue.OfflineQueue.CompactOldestPositions | frontend/src/services/offlineQueue.ts:177-220 | the cursor scan with its bucket map and delete list leaves exactly the compacted store, and answers true iff something was removed |
| OfflineQueue.OfflineQueue.DequeuePositions | frontend/src/services/offlineQueue.ts:241-259 | the cursor returns the first `limit` entries in id order, all of them for no limit, and deletes nothing |
| OfflineQueue.OfflineQueue.DequeueOldest | frontend/src/services/offlineQueue.ts:261-279 | removes and returns the lowest id, or null on an empty store |
| OfflineQueue.OfflineQueue.EnqueuePosition | frontend/src/services/offlineQueue.ts:133-165 | run alone: below 10000 entries the position is appended and nothing else changes; at the quota the store is compacted at five minutes, loses its first entry only if it is still full, and the result says whether; the quota holds, and 8000 is signalled |
| OfflineQueue.OfflineQueue.FlushQueue | frontend/src/services/offlineQueue.ts:312-340 | the chunked loop does what the flush specification says, does nothing under the lock, and releases the lock on success and failure |
| PositionStore.CompactMembers | frontend/src/services/offlineQueue.ts:190-214 | compaction keeps every recent or undated entry and, marked, the first entry of each old slice, and nothing else |
| PositionStore.CompactDropsIff | frontend/src/services/offlineQueue.ts:190-214 | an entry goes iff an earlier one lies in the same 45000 ms slice and both are dated more than 300000 ms back, by their own time or, if that is missing, by the time of queueing; of one that stays only the mark changes |
| PositionStore.CompactOrdered | frontend/src/services/offlineQueue.ts:184-214 | compaction keeps the id order |
| PositionStore.CompactKeepsBuckets | frontend/src/services/offlineQueue.ts:193-203 | the set of old slices is the same before and after, at that cutoff and any later one |
| PositionStore.CompactCovers | frontend/src/services/offlineQueue.ts:25-32 | no position is removed without a representative of its slice remaining |
| PositionStore.CompactionAbsorbs | frontend/src/services/offlineQueue.ts:177-220 | compacting at two cutoffs, in either order, is compacting once at the later one, marks included; twice at one cutoff is once |
| PositionStore.CompactShrinks | frontend/src/services/offlineQueue.ts:199-213 | compaction frees room iff two old entries share a slice |
| PositionStore.CompactedSize | frontend/src/services/offlineQueue.ts:190-214 | compaction leaves the entries that are not old and one for each slice of old ones |
| PositionStore.CompactedOldBound | frontend/src/services/offlineQueue.ts:14-18 | the old segment that remains has at most one entry per 45 s between the oldest time and the cutoff |
| PositionStore.EvictionCondition | frontend/src/services/offlineQueue.ts:136-152 | alone, for a store of any size, an enqueue evicts iff the entries that are not old, with one for each old slice, fill the quota |
| PositionStore.EvictionWithinQuota | frontend/src/services/offlineQueue.ts:136-152 | for a store within the quota: iff the queue is full and no two old entries share a slice |
| PositionStore.EvictsOldQueue | frontend/src/services/offlineQueue.ts:146-151 | a full queue without a single recent entry can evict |
| PositionStore.EnqueueAloneCovers | frontend/src/services/offlineQueue.ts:120-132 | alone, an enqueue leaves every earlier position covered, by a stored entry or by the evicted one it reports |
| OfflineQueue.FlushIsFifo | frontend/src/services/offlineQueue.ts:330-335 | for any outcomes of the sender, the acknowledged chunks concatenated are a prefix of the store and the rest is kept in order |
| OfflineQueue.FlushStops | frontend/src/services/offlineQueue.ts:325-336 | nothing is sent after a failure; what is resolved and what is left follow from it |
| OfflineQueue.FlushDrains | frontend/src/services/offlineQueue.ts:319-336 | with a working sender the store is emptied in n / chunk sends, rounded up |
| OfflineQueue.ChunksAreWithinLimit | frontend/src/services/offlineQueue.ts:325-336 | every chunk but the last has exactly `limit` entries and the last has at most as many |
| QueueFates.NoSilentLoss | frontend/src/services/offlineQueue.ts:133-220 | over every interleaving, each position reported queued was inserted, and the one entry that keeps it (itself, unless a compaction found it old and put the first of its slice in its place) is stored, saved, reported invalid, evicted by a call that signals it, or evicted by a call that a storage error rejected |
| QueueFates.KeeperIsAccounted | frontend/src/services/offlineQueue.ts:28-32 | every position ever stored is kept by an entry of its slice that is stored, saved, reported invalid or evicted |
| QueueFates.RecentIsNeverMerged | frontend/src/services/offlineQueue.ts:28-32 | full resolution: a position that no compaction has found older than five minutes is itself stored, saved, reported invalid or evicted |
| QueueFates.UndatedIsNeverMerged | frontend/src/services/offlineQueue.ts:191-205 | a position without a usable timestamp is itself stored, saved, reported invalid, or evicted, with a signal unless a storage error rejected the evicting call |
| QueueEvictions.EvictionsAreReported | frontend/src/services/offlineQueue.ts:146-158 | once the evicting call is over, it has answered droppedOldest iff it was not rejected, iff no storage error hit it between its eviction and its insertion |
| QueueEvictions.AllEvictionsReportedIff | frontend/src/services/offlineQueue.ts:146-163 | every eviction of a run is reported by the call that made it, once over, iff no insertion failed after an eviction |
| QueueFates.NothingLostWithoutReport | frontend/src/services/offlineQueue.ts:120-132 | if no insertion failed after an eviction, the entry that keeps a position reported queued is stored, saved, reported invalid, or evicted with a report |
| QueueTheorems.FlushedWasAnswered | frontend/src/hooks/useDriverTracking.ts:497-557 | with acknowledgements delayed, duplicated and reordered, every position a flush deletes was saved or reported invalid by the server |
| QueueTheorems.PromisesLeaveNothing | frontend/src/hooks/useDriverTracking.ts:498-557 | each batch promise is pending with its listeners and timer armed and one flush waiting, or settled once with nothing armed |
| QueueTheorems.SettledForGood | frontend/src/hooks/useDriverTracking.ts:513-554 | no late answer or timer changes a settled promise |
| BatchPromise.BatchPromise.OnPositionsSaved | frontend/src/hooks/useDriverTracking.ts:513-523 | another batch's answer only subscribes again; its own resolves and disarms timer and rejection listener |
| BatchPromise.BatchPromise.OnPositionsRejected | frontend/src/hooks/useDriverTracking.ts:527-535 | another batch's rejection only subscribes again; its own rejects and disarms timer and save listener |
| BatchPromise.BatchPromise.OnTimeout | frontend/src/hooks/useDriverTracking.ts:544-554 | the timer removes both listeners and rejects |
| BatchPromise.FirstOwnAnswerDecides | frontend/src/hooks/useDriverTracking.ts:513-556 | over any sequence of answers and the timer, the first that is the batch's own decides the outcome once and disarms everything; others change nothing |
| QueueTheorems.FlushesAreFifo | frontend/src/services/offlineQueue.ts:233-240 | over every interleaving, flushes delete ids in increasing order, below everything still stored |
| QueueSteps.BatchesAreWithinLimit | frontend/src/services/offlineQueue.ts:325-336 | over every interleaving, no chunk in flight and no batch that a flush sent is empty or larger than the limit the flush was started with |
| QueueSteps.ReadTakesFirst | frontend/src/services/offlineQueue.ts:241-259 | the read of a chunk takes the first entries of the store, as many as the limit allows or all without one, deletes nothing, and ends the flush if there is none |
| QueueRounds.RoundDelivers | frontend/src/services/offlineQueue.ts:330-336 | from any state, a round whose batch is saved takes exactly the first chunk out of the store in order, the server has it but for what it refused, and the flush reads on |
| QueueRounds.RoundFails | frontend/src/services/offlineQueue.ts:330-340 | from any state, a round whose batch is rejected or not answered leaves the store and the server as they were, ends the flush and frees the lock |
| QueueRounds.QueueCanBeDrained | frontend/src/services/offlineQueue.ts:312-340 | from every reachable state some continuation empties the store, with every entry that was stored saved or refused by the server |
| QueueTheorems.InFlightIsDownwardClosed | frontend/src/services/offlineQueue.ts:330-336 | whatever enqueues, compactions and evictions do meanwhile, every stored entry up to the end of a chunk in flight is in the chunk |
| QueueTheorems.FlushesNeverOverlap | frontend/src/services/offlineQueue.ts:316-339 | at most one flush is past the lock, and the lock is held iff one is |
| QueueProgress.LockCanBeReleased | frontend/src/services/offlineQueue.ts:330-339 | from every reachable state in which the lock is held, at most six steps release it, all of them steps of the flush that holds it or the timer of the batch it awaits, without a storage error and without the server |
| QueueTheorems.NothingSentAfterFailure | frontend/src/services/offlineQueue.ts:320-336 | of the batches one flush sent, all but the last resolved |
| QueueTheorems.EndedForGood | frontend/src/services/offlineQueue.ts:337-339 | a flush that ended never sends or deletes again |
| QueueTheorems.QuotaUnderConcurrency | frontend/src/services/offlineQueue.ts:136-155 | with at most K overlapping enqueues, stored entries and pending insertions never exceed the quota by more than K - 1 |
| QueueTheorems.QuotaWhenSequential | frontend/src/services/offlineQueue.ts:19 | without overlap the quota is exact |
| QueueSteps.CallsDoWhatTheyCounted | frontend/src/services/offlineQueue.ts:136-164 | over every interleaving, a call compacts only after a first count of at least 10000 and evicts only after a second one, and its answer is that of its last count |
| QueueSteps.StoreShrinksOnlyWhenFull | frontend/src/services/offlineQueue.ts:139-151 | over every interleaving, compaction and eviction change the store only for a call that has counted so, to the store compacted at 300000 ms or without its first entry |
| QueueWitnesses.QuotaIsTight | frontend/src/services/offlineQueue.ts:137-155 | for every K a run of at most K overlapping calls leaves the quota plus K - 1 entries stored |
| QueueWitnesses.QuotaHoldsIffSequential | frontend/src/services/offlineQueue.ts:136-155 | the quota holds in all runs with at most K overlapping calls iff K is at most 1 |
| QueueWitnesses.RefusalIsReachable | frontend/src/services/offlineQueue.ts:149-150 | `queued: false` can be answered although nothing was ever evicted: a flush took the whole queue before the eviction |
| QueueWitnesses.UntaggedAnswersLose | frontend/src/hooks/useDriverTracking.ts:499-504 | without the batch id, a late acknowledgement deletes a position the server never saved |
| QueueWitnesses.FailedInsertHidesEviction | frontend/src/services/offlineQueue.ts:149-164 | an insertion that fails after an eviction leaves the eviction unreported |
| PositionSender.Sender.SendPosition | frontend/src/hooks/useDriverTracking.ts:656-759 | emits iff free, accuracy absent or below 80 m, 2000 ms since the last initiation and connected; in any other case says which position it hands to the local queue, and stays busy only for a missing connection |
| PositionSender.Sender.OnSaved | frontend/src/hooks/useDriverTracking.ts:728-738 | the first acknowledgement settles its request, clears the busy flag and returns the position taken as saved; another does nothing |
| PositionSender.Sender.OnRejected | frontend/src/hooks/useDriverTracking.ts:739-753 | an invalid payload is returned as thrown away and frees the sender; any other rejection returns the position handed to the local queue, which frees it later |
| PositionSender.Sender.OnTimeout | frontend/src/hooks/useDriverTracking.ts:721-727 | the timer settles the request, clears the busy flag and returns the position handed to the local queue |
| PositionSender.BusyMeansOneThingPending | frontend/src/hooks/useDriverTracking.ts:674-677 | over every run the busy flag is set iff exactly one request is armed or one local enqueue is awaited, never both |
| PositionSender.EveryOfferHasOneFate | frontend/src/hooks/useDriverTracking.ts:656-759 | every offered position ends as exactly one of saved, queued or dropped, or is the one in flight |
| PositionSender.UnsentIsQueued | frontend/src/hooks/useDriverTracking.ts:660-699 | over every run, an offered position that is not emitted is handed to the local queue, and only emitted ones are saved or dropped |
| PositionSender.EmittedExactlyWhen | frontend/src/hooks/useDriverTracking.ts:671-702 | after any run, a new position is emitted iff the sender is free, its accuracy is absent or below 80 m, 2000 ms have passed since the last initiation and the socket is connected; otherwise it is queued, and the enqueue is awaited iff only the connection was missing |
| PositionSender.SettledAs | frontend/src/hooks/useDriverTracking.ts:721-753 | after any run, the armed request's answer or timer gives its position the outcome saved, dropped or queued, frees the sender at once or, after a rejection that queues, when the enqueue is over |
| PositionSender.SendRateIsBounded | frontend/src/hooks/useDriverTracking.ts:688-701 | any W ms contain at most W / 2000 + 1 initiated sends, whoever calls |
| PositionSender.SavedMeansPersisted | frontend/src/hooks/useDriverTracking.ts:728-738 | when answers reach the request they belong to, a position taken as saved was saved |
| PositionSender.MisattributedAnswer | frontend/src/hooks/useDriverTracking.ts:728-732 | in a state with a truthful log, whichever acknowledgement the armed request hears keeps it truthful iff the server has its position or no acknowledgement is around |
| PositionSender.MisattributionCondition | frontend/src/hooks/useDriverTracking.ts:721-756 | over every run, some continuation takes the position in flight as saved without its being saved iff the server does not have it and some earlier position has not been dealt with by the server or has an answer saying saved on its way |
| PositionSender.LateAnswerLosesAPosition | frontend/src/hooks/useDriverTracking.ts:721-756 | a run in which a late answer settles the next position, which is lost |
| DriverPipeline.EveryOfferedPositionIsSafeOrLost | frontend/src/hooks/useDriverTracking.ts:627-759 | over every interleaving of sender, queue, flushes and network, an offered position is in flight, saved, thrown away as invalid, being queued, or kept by an entry that is accounted for, unless another's answer was taken for it, its enqueue failed or was refused, or its keeper was evicted unreported |
| DriverPipeline.HandOverStarts | frontend/src/hooks/useDriverTracking.ts:627-654 | a position handed over starts an enqueue call for it, with its timestamp, and nothing else |
| DriverPipeline.SenderAwaitsEnqueue | frontend/src/hooks/useDriverTracking.ts:752-759 | the sender that awaits an enqueue goes on iff that call has answered or failed, and is free then |
| ProximityReminder.Watch.CheckProximity | frontend/src/hooks/useDriverTracking.ts:341-378 | near the point: starts the stay, sets level 1 past 7.5 and 2 past 15 minutes, and alerts with it iff no snooze is running and the last alert is more than 5 minutes old; away clears the stay; without a target nothing changes |
| ProximityReminder.Watch.DismissAlert | frontend/src/hooks/useDriverTracking.ts:380-396 | a dismissal silences 2 minutes at level 2, else 5, by the level shown or else the local one, and forgets the last alert |
| ProximityReminder.Watch.ActiveDeliveryChanged | frontend/src/hooks/useDriverTracking.ts:280-288 | another active delivery clears the stay, the level, the snooze and the last alert |
| ProximityReminder.RemindersAreSpaced | frontend/src/hooks/useDriverTracking.ts:359-362 | two successive alerts of a delivery are more than 5 minutes apart, or the later waits for the end of the last dismissal's snooze |
| ProximityReminder.AlertsExactlyWhenDue | frontend/src/hooks/useDriverTracking.ts:350-377 | after any run, a position near the point alerts iff no snooze of this delivery is running and no undismissed alert is 5 minutes old or less |
| ProximityReminder.SnoozeEndsOnTime | frontend/src/hooks/useDriverTracking.ts:391-396 | whatever was before, a dismissal silences the positions of the next 2 minutes if the alert shown, or else the stay, is at level 2, and of the next 5 if not; the reminder comes at the end of that, not at the 5-minute rhythm |
| ProximityReminder.StayDecidesLevel | frontend/src/hooks/useDriverTracking.ts:351-357 | during a stay the level is 2 if its last position came more than 15 minutes after its first, 1 if more than 7.5, else 0 |
| ProximityReminder.LevelNeverFallsDuringAStay | frontend/src/hooks/useDriverTracking.ts:351-377 | on a clock that does not go back, the level never falls while the driver stays, whatever is dismissed |
| ProximityReminder.ClockSetBackLowersLevel | frontend/src/hooks/useDriverTracking.ts:355-357 | a clock set back can lower it |
| WebhookRetry.Processor.Process | backend/src/queue/webhook-retry.processor.ts:28-123 | run alone: posts iff not settled, company not deleted and URL safe; a POST counts one attempt and makes the row a success iff it went well, else failed with the next attempt in 2^attempts minutes if one is left; an abort fails it with nothing scheduled |
| WebhookRetry.Processor.EnqueueFailedDeliveries | backend/src/queue/webhook-retry.processor.ts:152-166 | the loop adds one job per selected delivery with attempts left, under its deterministic id |
| WebhookRetry.GeometricBackoff | backend/src/queue/webhook-retry.processor.ts:107-110 | from attempt count a to exhaustion the scheduled delays add up to 2^max - 2^(a+1) minutes |
| WebhookRetry.RetryMakesProgress | backend/src/queue/webhook-retry.processor.ts:35-122 | a retry keeps next attempts only for failed rows with attempts left; it posts and uses up one attempt, or leaves nothing scheduled or the row as it was |
| WebhookRetry.EnqueueTwice | backend/src/queue/webhook-retry.processor.ts:154-161 | a second pass over the same selection adds no job |
| WebhookSafety.AtMostOncePerAttempt | backend/src/queue/webhook-retry.processor.ts:125-166 | over every interleaving of cron passes with stale selections and workers, each attempt of each delivery is POSTed at most once |
| WebhookSafety.AttemptsStayBounded | backend/src/queue/webhook-retry.processor.ts:107-121 | attempts never pass the limit, and a next attempt is scheduled only for a failed row with attempts left |
| WebhookSafety.PostsAreBounded | backend/src/queue/webhook-retry.processor.ts:35-36 | a delivery is POSTed by retries at most maxAttempts times over any run |
| WebhookSafety.StepOnRow | backend/src/queue/webhook-retry.processor.ts:107-122 | no step, however stale its reading, lowers attempts, raises them by more than one, changes the limit, or touches a delivery that succeeded |
| WebhookSafety.AnswerWrites | backend/src/queue/webhook-retry.processor.ts:107-122 | in every reachable state, the answer of a POST makes the row a success iff it is good, else failed, counts one attempt, and schedules the next in 2^attempts minutes iff it is not good and attempts are left |
| WebhookSafety.SuccessComesFromAnswer | backend/src/queue/webhook-retry.processor.ts:111-122 | a delivery turns to success at a step iff the step is a good answer to the POST of its own worker |
| WebhookSafety.SelectsOnlyDue | backend/src/queue/webhook-retry.processor.ts:143-150 | a pass selects only failed deliveries whose next attempt is due, of companies that are not deleted |
| WebhookSafety.ReadDecides | backend/src/queue/webhook-retry.processor.ts:30-54 | after its read a worker goes on iff the delivery exists, has not succeeded and has attempts left, towards the POST iff its company is not deleted |
| WebhookSafety.AbortWrites | backend/src/queue/webhook-retry.processor.ts:45-65 | an unsafe URL leads to the abort without a POST, and an abort marks the row failed with nothing scheduled |
| WebhookSafety.RowsOnlyAdvance | backend/src/queue/webhook-retry.processor.ts:28-123 | between any two moments of a run attempts only grow, and success is final |
| WebhookSafety.DeletionStopsRetries | backend/src/queue/webhook-retry.processor.ts:38-54 | after its company is deleted, a delivery is POSTed at most once more |
| WebhookSafety.NobodyPassesTheCheckAnew | backend/src/queue/webhook-retry.processor.ts:45-54 | a worker comes past the deletion check only for a company that is not deleted |
| WebhookSafety.ForgottenJobsRepeatPosts | backend/src/queue/webhook-retry.processor.ts:158-163 | were finished jobs forgotten during a pass, an attempt could be POSTed twice |
| WebhookProgress.DueDeliveryIsRetried | backend/src/queue/webhook-retry.processor.ts:28-167 | from any state, a due delivery whose attempt has no job yet, selected and worked on, is posted exactly once more and its row says how it went; an unsafe URL ends it unposted |
| WebhookProgress.ForgottenWhenUnselected | backend/src/queue/webhook-retry.processor.ts:158-163 | a finished job is forgotten iff no pass still holds its delivery at its attempt |
| AlertWindow.AlertService.TrackRepeatedError | backend/src/common/alerting/alert.service.ts:30-67 | one error changes its own key's entry only: counted on it within 300000 ms of its first and below ten, else a fresh one; it alerts iff it is the tenth |
| AlertWindow.AlertsAreJustified | backend/src/common/alerting/alert.service.ts:20-21 | every alert is raised by ten errors of its key within five minutes |
| AlertWindow.AlertsAreRare | backend/src/common/alerting/alert.service.ts:46-66 | n errors of a key raise at most n / 10 alerts |
| AlertWindow.EnoughErrorsAlert | backend/src/common/alerting/alert.service.ts:38-66 | from any entry, 19 less its count further errors within five minutes include an alert |
| AlertWindow.EighteenErrorsAlert | backend/src/common/alerting/alert.service.ts:23-27 | any 18 consecutive errors of a key within five minutes include one that alerts |
| AlertWindow.SeventeenErrorsMayNot | backend/src/common/alerting/alert.service.ts:38-41 | 17 may not |
| AlertWindow.KeysAreIndependent | backend/src/common/alerting/alert.service.ts:19 | in a mixed log each key has the entry it would have alone |
| AlertWindow.AlertInMixedLog | backend/src/common/alerting/alert.service.ts:28-62 | an error of a mixed log alerts iff it does in its own key's run |
| AlertInterleaving.SlowAlertsAreJustified | backend/src/common/alerting/alert.service.ts:46-66 | with errors arriving during sends, every alert still has ten errors within five minutes behind it |
| AlertInterleaving.PromptSendIsTrack | backend/src/common/alerting/alert.service.ts:46-66 | an error whose send ends before the next one is a step of the simple automaton |
| AlertInterleaving.PromptRunsAreSequential | backend/src/common/alerting/alert.service.ts:30-67 | if every send ends before the next error, the same errors alert as in the simple automaton |
| AlertInterleaving.ResumeDisturbsIff | backend/src/common/alerting/alert.service.ts:64-66 | a call that resumes after its send replaces the map's entry iff an error was counted on the entry it holds during the send, and then by a fresh one with its own error's time |
| AlertInterleaving.UndisturbedRunsAreSequential | backend/src/common/alerting/alert.service.ts:30-67 | in every run in which no call is overtaken before it resumes, however long the sends take, the same errors alert as in the simple automaton |
| AlertInterleaving.UndisturbedBounds | backend/src/common/alerting/alert.service.ts:46-66 | in such a run n errors raise at most n / 10 alerts and any 18 within five minutes raise one |
| AlertInterleaving.SlowSendsMissAlerts | backend/src/common/alerting/alert.service.ts:48-66 | with a slow send, 18 errors within five minutes may raise no alert |
| AlertInterleaving.SlowSendsAlertTooOften | backend/src/common/alerting/alert.service.ts:64-66 | with a slow send, 29 errors may raise three alerts |
| TextWrap.PushPieces | backend/tools/generate-fuel-pdf.js:55-61 | the nested loops cut an overlong word as specified, and end |
| TextWrap.PiecesAreMaximal | backend/tools/generate-fuel-pdf.js:55-61 | the pieces and the rest make the word; each piece is the longest beginning of what is left that fits, or one character, and is cut only from what does not fit; the rest needs no cut |
| TextWrap.Wrap | backend/tools/generate-fuel-pdf.js:51-73 | the loop produces the lines of the greedy specification |
| TextWrap.LinesFit | backend/tools/generate-fuel-pdf.js:50-61 | every line fits, unless it is a single character |
| TextWrap.WrapConserves | backend/tools/generate-fuel-pdf.js:51-73 | no visible character of any text is lost, invented or repeated |
| TextWrapOrder.OrderIsKeptIff | backend/tools/generate-fuel-pdf.js:54-71 | the lines read as the text does if no word after the first has to be cut, and only then if no visible character occurs twice |
| TextWrap.SplitHasShape | backend/tools/generate-fuel-pdf.js:52 | only the first and last word of the split can be empty |
| TextWrap.SplitIsExact | backend/tools/generate-fuel-pdf.js:52 | the text is the words of the split with non-empty runs of white space between them, and no word holds any |
| TextWrapOptimal.WrapIsOptimal | backend/tools/generate-fuel-pdf.js:62-71 | when every word fits and width is monotone on runs of words, no cut of the words, in order, into fitting lines uses fewer lines |
| TextWrapOptimal.WrapIsASplit | backend/tools/generate-fuel-pdf.js:62-71 | for every text whose words fit, the lines are the words in order cut into fitting groups, but for a blank at the end of the last line; so the bound is attained |
| CacheService.Cache.Fetch | backend/src/common/cache/cache.service.ts:12-31 | answers from Redis, or from the fallback with its expiry, and drops an expired fallback entry |
| CacheService.Cache.Store | backend/src/common/cache/cache.service.ts:33-48 | the value with an expiry of now + 1000 ms per second to live goes to Redis, or to the fallback if Redis is absent, refuses it or a time to live below one second; a lost reply writes both |
| CacheService.Cache.Purge | backend/src/common/cache/cache.service.ts:50-75 | the cursor loop deletes the scanned keys; on failure the loop over the fallback deletes exactly the keys with the prefix |
| CacheService.InvalidationTakes | backend/src/common/cache/cache.service.ts:50-75 | an invalidation takes from Redis the keys of the scanned pages, and from the fallback those that begin with the pattern less its first star, unless Redis was enough |
| CacheService.ValuesAreFresh | backend/src/common/cache/cache.service.ts:12-48 | under any pattern of Redis failures, a value returned was set for that key by a call with a time n and t seconds to live, and it is n + 1000 t at most (an expiry of 0 excepted) |
| CacheService.AnsweredUntilExpiry | backend/src/common/cache/cache.service.ts:12-48 | for every run, a value set at n with t seconds to live, whose set took effect on the side that is read and after which nothing took effect there for its key, is answered at every time up to n + 1000 t and at none after (a fallback expiry of 0 stays) |
| CacheService.FallbackDeletesWhatRedisDoes | backend/src/common/cache/cache.service.ts:56-74 | prefix deletion agrees with Redis matching on all keys iff the pattern is a literal prefix and one final star |
| CacheService.ExactKeyDeletesMoreInFallback | backend/src/common/cache/cache.service.ts:70-74 | invalidating one key by name deletes, in the fallback, also every key it begins |
| CacheService.WithoutRedisIsExpiringMap | backend/src/common/cache/cache.service.ts:23-31 | without Redis, for patterns prefix*, get returns the last value set and not invalidated, until it expires |
| CacheService.WithRedisIsExpiringMap | backend/src/common/cache/cache.service.ts:13-67 | with a Redis that always answers and whose scans return the unexpired keys they match, on a clock that does not go back, it is the same map, for every pattern |
| CacheService.AnswerIsWhatLanded | backend/src/common/cache/cache.service.ts:12-75 | for every run, failure pattern and pattern string, an answer is the value that landed last on the side that is read, until it expires |
| CacheService.LastWriteIsReadIff | backend/src/common/cache/cache.service.ts:12-75 | an answer is the expiring map's if what landed last on the side that is read is what was written last, expired sets aside; and only then, if the values written differ |
| CacheService.LandedWriteIsRead | backend/src/common/cache/cache.service.ts:33-48 | in particular when the last write of the key landed on the side that is read |
| CacheService.FlappingRedisForgetsOrder | backend/src/common/cache/cache.service.ts:33-75 | when Redis comes and goes, an older and an invalidated value can come back |
| TokenRevocation.AccessTokenTtlSeconds | backend/src/common/auth/access-token-revocation.ts:22-29 | reads digits and one unit, the default for nothing, 900 for anything else |
| TokenRevocation.DurationsAreRead | backend/src/common/auth/access-token-revocation.ts:22-29 | every number, with leading zeros or without, reads back times 1, 60, 3600 or 86400 for s, m, h, d; text of another form and no setting read as 900 |
| TokenRevocation.SettingIsLongEnoughIff | backend/src/common/auth/access-token-revocation.ts:22-29 | for revocations made with the setting, keys live as long as tokens iff the setting is a duration this reader accepts or tokens live at most 15 minutes |
| TokenRevocation.WeekReadsAsQuarterHour | backend/src/common/auth/access-token-revocation.ts:24-25 | "1w" reads as 900 seconds |
| TokenRevocation.Revoker.RevokeUserAccessTokens | backend/src/common/auth/access-token-revocation.ts:31-44 | sets the user's key to the next second, for at least one second; without Redis, or when it fails, nothing |
| TokenRevocation.Revoker.RevokeSessionAccessTokens | backend/src/common/auth/access-token-revocation.ts:46-58 | the same for a session |
| TokenRevocation.RevokedTokensStayRevoked | backend/src/common/auth/access-token-revocation.ts:16-20 | a token issued up to a revocation of its user or session is never accepted again, during the key's life, after it, and after further revocations, if no key is shorter than a token's life |
| TokenRevocation.AcceptedIff | backend/src/modules/auth/strategies/jwt.strategy.ts:33-54 | after any revocations, a request passes iff its token has not expired and, unless issued at second 0, Redis answers and neither the user's nor the session's last effective revocation came in its second or later with the key still living |
| TokenRevocation.LaterTokensAreAccepted | backend/src/modules/auth/strategies/jwt.strategy.ts:33-54 | tokens issued from the second after every revocation on are accepted until they expire |
| TokenRevocation.CoverIsWholeIffKeyOutlivesToken | backend/src/common/auth/access-token-revocation.ts:37-39 | one revocation covers every token for its whole life iff the token's lifetime is at most the key's |
| TokenRevocation.LastRevocationDecides | backend/src/common/auth/access-token-revocation.ts:37-39 | after any revocations, every token issued up to the second of the user's last one is refused for good iff such a token has expired one millisecond after the key is gone |
| TokenRevocation.ShorterRevocationUncovers | backend/src/common/auth/access-token-revocation.ts:39 | a later revocation with a shorter key ends the cover of an earlier one |
| TokenRevocation.SameSecondIsRefused | backend/src/common/auth/access-token-revocation.ts:16-20 | while the key lives, a token issued after the revocation is accepted iff its second is later |

## Left out

- IndexedDB itself: each transaction is one atomic step that may fail; ids grow from 1. A payload that brings its own `id` field, which the spread in the insertion would store, is not modelled.
- Clearing the queue, the latency verdict, the reconnect watchdog, cascade alerts and the merging of alerts on the screen: each is settled by reading one branch.
- The server's handling of a batch is one step that saves the valid positions and reports the others invalid before it acknowledges; validation itself is not modelled.
- The flush lock is a variable of one page, while IndexedDB is shared by all pages of an origin: a single page is assumed, by QueueTheorems.FlushesNeverOverlap among others.
- Timer lengths of the batch promise: its timer may fire at any time.
- PositionSender.SavedMeansPersisted: assumes that an answer reaches the request it belongs to, because the message carries no id; MisattributionCondition says exactly when it can fail otherwise, and LateAnswerLosesAPosition shows it.
- PositionSender: each request is dealt with by the server at most once and its answer delivered at most once, as the gateway and the socket do without configured retries.
- PositionSender: a position is identified by a number given when it is offered, each offered once; offering the same fix again counts as another position. A position handed to the local queue is followed further by the queue's own model.
- ProximityReminder: whether a position is within 300 m is part of the event; haversine arithmetic and the alert's text are not modelled.
- The distributed lock of the webhook cron is not relied on: any number of passes may run at once.
- A worker that crashes between its POST and its update is not modelled; the update is reached or throws because the row is gone.
- Webhook signing, URL validation, HTTP status codes and response bodies: an attempt succeeds or fails, and the URL is safe or not.
- WebhookSafety.AtMostOncePerAttempt: assumes that finished jobs are remembered while a pass that selected them is enqueueing, which the retention of an hour and a day provides; ForgottenJobsRepeatPosts shows why.
- TextWrap: characters are Dafny's, not UTF-16 code units.
- TextWrapOrder.OrderIsKeptIff: the only-if half is for texts in which no visible character occurs twice, because a repeated one can hide that two pieces changed places.
- TextWrapOptimal.WrapIsOptimal: the measure is a parameter assumed monotone on runs of words; fonts are not modelled.
- CacheService.FallbackDeletesWhatRedisDoes: patterns have stars and question marks but no character classes or escapes, which no caller uses.
- CacheService: values are copied, so a caller that changes a value it got from the fallback is not seen; a Redis value survives JSON unchanged; changes during a scan are not modelled.
- TokenRevocation.SettingIsLongEnoughIff: the signer of the tokens is not modelled; it is taken to agree on a number with one of the four units.
- TokenRevocation: one clock for issuing, checking and Redis; signatures are valid; the socket handshake, which lets a token pass when Redis is down, is not modelled, only the HTTP check. The number read has no double-precision limit.
