# Observability fleet: models and proofs

A Dafny 4.11 model of the state machines that keep an observability stack honest with itself, and proofs of
what they keep over every run. `dafny verify dfyconfig.toml` checks the whole project.

## What is modelled

- **The work queue** (`Queue`, `QueueRuns`, `QueueConservation`, `QueueDrain`, `QueueOutage`). A durable object
  with a table of jobs, a table of dead letters, one alarm slot and a parking time. It hands jobs to a handler
  whose answer is an arbitrary outcome: done, leased to an asynchronous worker, out of quota, or failed. `Queue`
  holds the object itself and the functions its methods are proved against; `QueueRuns` is the machine in which
  enqueues and acks arrive between any two answers of an alarm, and an observer's ledger records what was issued,
  acked and charged. The other three modules prove, over all of its runs, that nothing is lost, that the backlog
  is paid off, and that an outage costs no job anything. `QueueOutage.AlarmIsARun` ties the uninterrupted `alarm`
  method to the interleaved machine.
- **The topic** (`Topic`, `TopicRuns`, `Digest`). A retained value whose expiry alarm is also the silence signal,
  and a capped event log read page by page. The digest is proved against reachable topic states.
- **The vitals gate** (`Vitals`, `VitalsRuns`). A once-per-day alert gate with hysteresis, post-then-persist
  delivery, and deletion of old days. Its closed form reads every alert and every recovery off the bare history
  of observations.
- **The CI poll** (`Poll`, `PollRuns`). A cursor with an overlap window, a bounded list of written rows, and an
  alert list that advances only after a post.
- **The deploy lock and worker** (`Mutex`, `MutexRuns`, `MutexRaces`, `Deploy`, `DeployRuns`). The `mkdir` lock
  with stale reclaim as fine-grained steps of many processes, and the deploy that runs under it, which can die
  between any two commands.
- **The detector** (`ZScore`), over the reals: Samuelson's inequality and what it means for the thresholds.
- **The transcript collector** (`Transcript`, `TranscriptRuns`, `TranscriptLimits`, `LineProtocol`): an incremental
  scan against one full re-read, crashes and retries included, exactly when the two agree, and the escaping of its
  output lines.
- **The deployment watcher** (`Watcher`, `WatcherRuns`), in closed form over its last three answers.
- **Tags** (`Tags`): the printer in one Worker against the parser in another.

Each imperative component is a class or a loop whose methods are proved equal to functions on plain values; runs
are sequences of events over those functions, and the theorems are about runs.

## Where the code and its own words disagree

The model follows the code. Each disagreement is a lemma.

- `queue.js:205-207` says a workflow that never acks cannot retry forever. The lease branch has no attempt limit:
  `QueueDrain.LeasesAreUnbounded` leases one job any number of times. Only leases pass the bound
  (`QueueDrain.OnlyLeasesPassTheBound`).
- With an ack arriving while an alarm is waiting for its handler, one job can be both acked and dead-lettered
  (`QueueConservation.AckedAndDead`); `PartitionExactly` says exactly after which runs, and without interleaving it
  cannot happen (`AtomicPartition`).
- A failed ack does not always hold its job back: `queue.js:127-148` moves `not_before`, but an alarm that selected
  the row before goes on with its batch. `QueueOutage.BackoffHolds` is exact.
- `digest.js:67-69` says "no data yet" means that nothing was ever published. It also shows for a published topic
  whose expiry alarm is late (`Digest.PublishedButNoDataYet`); `DigestAgreesWithTopic` gives the exact condition.
- `mutex.sh:7` promises a single holder. Two reclaimers can both end up holding the lock, and so can one reclaimer
  whose check is overtaken (`MutexRaces`). Exclusion is proved for prompt creators and reclaimers that remove the
  lock they looked at (`MutexRuns.MutualExclusion`). Without any promise, a run removes no lock in use exactly if it
  has at most one holder at every point and would have had if each remover had gone straight on to its `mkdir`
  (`ExclusionExactly`); a removal of a lock in use can also go unnoticed (`MutexRaces.RemovalMayGoUnnoticed`).
- `vitals.js:443-449` allows one announcement per signal and UTC day. The post comes before the save, so a failed
  save lets the same breach be announced again (`VitalsRuns.AnnouncedExactly`, `OnceUnlessSaveFailed`).
- `vitals.js:443-446` lets a clear post one recovery line and end the episode. If the save then fails the episode
  is still open, and the next clear posts a second line for it (`VitalsRuns.TwoRecoveriesOneEpisode`);
  `RecoveredExactly` and `OneRecoveryUnlessSaveFailed` are exact.
- `index.js:316-322` marks every red run of a posted message as alerted, but `index.js:264-268` gives only the first
  ten a line. The eleventh is in the saved alert list unnamed and is never named while it is there
  (`PollRuns.EleventhIsNeverNamed`; `NamedExactly` says which runs are named).
- `index.js:311-312` has the dedupe absorb the overlap of a crashed poll. A poll that dies between its writes and
  its save has all its rows written again (`PollRuns.DyingDuplicatesExactly`).
- `vitals.js:173-174` relies on values without commas; a comma can invent a mountpoint
  (`Tags.CommaInventsAMountpoint`), and `MountpointReadExactly` says exactly which values do harm. A tag in front
  that makes up the right mountpoint does none, nor does any after it.
- The poll window filters on creation time, so a run can complete outside every window that could show it. It is
  ever written exactly if the first listing after its completion covers it (`PollRuns.EverWrittenExactly`); with
  regular polls a run of 35 minutes never is (`LongRunsAreNeverListed`).
- `coordination/README.md:62` says a non-empty `failed/` means a rollback. A sync or a restart that fails while
  Grafana still answers files its jobs as failed with no rollback (`DeployRuns.FailedWithoutRollback`;
  `Deploy.OneOutcome` and `Worker.RunOnce` are exact), and
  `worker.sh:98` ("not retried hot") holds for the job files but not for the deploy, which every tick repeats
  while main is ahead of the record (`DeployRuns.FailedDeployIsRetried`). Jobs that a crash leaves in `processing`
  wait there until there is other work (`DeployRuns.LeftoversWait`).
- A service that is first seen DOWN is never announced as down (`WatcherRuns.NeverUpNeverAnnounced`).
- A transcript rewritten to at least its former length is not read again
  (`TranscriptRuns.RewriteIsNoticedIfShorter`), a half-written line is lost (`TranscriptLimits.TornLineIsLost`,
  exactly by `InstalmentsExactly`), and files that share a point key can make the store depend on the order of
  arrival (`SharedKeyTellsTheOrder`, exactly by `StoresLikeOneRunExactly`).

## Assumptions

- Clocks do not run backwards within a run. Storage operations of a durable object are atomic between awaits on
  the network, and one alarm of an object is in flight at a time.
- A process id of the past is not used again; `rm -rf` and writing `owner` are single steps; job names are not
  reused; deploy runs are serialized by the lock, whose own limits are stated in `MutexRuns`.
- Beats on the shared KV document are serialized, and reading it succeeds.
- Transcripts only grow, and end on a line boundary when they are scanned, wherever a lemma says so. A run that dies
  while saving its cursor leaves a file that reads as an empty cursor or as the new one.
- Keys of workflow runs are unique across the listings of a poll, where a lemma says so. In the coverage lemmas a
  completed attempt stays listed until its window has passed; a re-run of the workflow before the next poll would
  replace it in the listing.
- `sd` is the non-negative root of the variance, and nothing is rounded.

## Model

| member | source | states |
|---|---|---|
| Queue.Classify | workers/fleet-bus/src/queue.js:260-314 | exactly which replies park, lease, acknowledge or fail for good, with the delay and the lease length taken from where |
| Queue.DueRowsSelects | workers/fleet-bus/src/queue.js:180-189 | the batch is the limit-many smallest ready ids, ascending, each row as stored; a ready id left out is beyond a full batch |
| Queue.NextWake | workers/fleet-bus/src/queue.js:344-347 | the least moment at which any job is runnable, attained by some job; none exactly when there is no job |
| Queue.QueueDO.ArmAlarm | workers/fleet-bus/src/queue.js:340-351 | the alarm slot afterwards: set to the next moment any job is runnable if forced or empty, otherwise only moved earlier; untouched without jobs |
| Queue.QueueDO.Enqueue | workers/fleet-bus/src/queue.js:98-108 | a new id, the envelope stored under it as a job that is runnable at once, and nothing else changed but the alarm |
| Queue.QueueDO.Ack | workers/fleet-bus/src/queue.js:116-149 | which of unknown, acked, dead or retrying is answered, exactly when, and the whole new state: a retry gives up its lease and waits 30, 30, 60, 120 or 240 s by its attempts |
| Queue.QueueDO.SettleRow | workers/fleet-bus/src/queue.js:199-246 | the whole state after one answer that does not park: gone, leased for what was asked or twenty minutes, waiting 30 to 240 s by its attempts, or dead |
| Queue.QueueDO.Alarm | workers/fleet-bus/src/queue.js:171-250 | the loop over the batch leaves the state of the recursive whole-alarm function, parked exits included |
| QueueRuns.NoLostWakeUp | workers/fleet-bus/src/queue.js:97-149 | in every run, whenever no alarm is in flight and jobs wait, an alarm is set no later than the latest of the clock, the parking time and the earliest runnable moment |
| QueueConservation.SettleTouchesOneRow | workers/fleet-bus/src/queue.js:199-246 | settling a row keeps it, deletes it or buries it, and touches no other |
| QueueConservation.NothingIsLost | workers/fleet-bus/src/queue.js:98-149 | in every interleaved run: every issued id is waiting, dead or acked; waiting is disjoint from both; envelopes are the enqueued ones; attempts are exactly the charged answers |
| QueueConservation.EveryIssuedId | workers/fleet-bus/src/queue.js:98-149 | the same from a fresh queue, one id at a time, envelopes included |
| QueueConservation.GoneStaysGone | workers/fleet-bus/src/queue.js:199-246 | an id that has left the jobs table never returns |
| QueueConservation.AtomicPartition | workers/fleet-bus/src/queue.js:171-250 | with alarms uninterrupted, waiting, dead and acked partition the issued ids |
| QueueConservation.StepApartExactly | workers/fleet-bus/src/queue.js:116-247 | an event makes some id both acked and dead exactly if it is an answer that comes too late: it buries a row acked meanwhile, or reports done a row buried meanwhile |
| QueueConservation.PartitionExactly | workers/fleet-bus/src/queue.js:116-247 | after any interleaved run waiting, dead and acked partition the issued ids if and only if no answer of the run came too late |
| QueueConservation.AckedAndDead | workers/fleet-bus/src/queue.js:197-236 | such a run: an ack during the handler call, then a refusal |
| QueueDrain.AttemptsAreBounded | workers/fleet-bus/src/queue.js:227-246 | in every interleaved run without leases no waiting job has five attempts |
| QueueDrain.AnswersAreBounded | workers/fleet-bus/src/queue.js:227-246 | without leases and with atomic alarms each answer that does not park pays at least one of the attempts still owed |
| QueueDrain.BacklogDrains | workers/fleet-bus/src/queue.js:227-246 | n enqueued jobs are all gone after 5n answers that do not park |
| QueueDrain.RetryDelayBounded | workers/fleet-bus/src/queue.js:141-245 | with or without leases, a retry waits at least thirty seconds and at most four minutes |
| QueueDrain.LeasesAreUnbounded | workers/fleet-bus/src/queue.js:204-215 | for every n a run leases one job n times, so no attempt bound holds |
| QueueDrain.OnlyLeasesPassTheBound | workers/fleet-bus/src/queue.js:204-246 | any other answer leaves the row gone or with fewer than five attempts |
| QueueOutage.NoCallWhileParked | workers/fleet-bus/src/queue.js:171-178 | in every run, whenever the handler is at work on a row, the parking time had passed when its alarm started; only a park moves that time |
| QueueOutage.RetryAfterHolds | workers/fleet-bus/src/queue.js:217-225 | after an answer that parks, the alarm is set to the moment asked for, or fifteen minutes on if none was, and no alarm from before it calls the handler until another answer parks |
| QueueOutage.FiringSelects | workers/fleet-bus/src/queue.js:171-189 | a firing alarm hands out nothing before the parking time, else the ten smallest ids whose backoff and lease are over, as stored |
| QueueOutage.OutageChargesNobody | workers/fleet-bus/src/queue.js:217-225 | a run whose answers are all parks, and whose acks all report success, changes no waiting row and dead-letters nothing |
| QueueOutage.ParkLeavesTheRest | workers/fleet-bus/src/queue.js:191-225 | the row whose answer parks and all later rows of the batch are untouched |
| QueueOutage.HeldUntil | workers/fleet-bus/src/queue.js:180-189 | a held job is not handed out early in any run without a failed ack for it |
| QueueOutage.LeaseHolds | workers/fleet-bus/src/queue.js:204-215 | a leased id is held for the length the handler asked for, or twenty minutes, and handed out again only by an alarm after that, unless a failed ack came first |
| QueueOutage.BackoffHolds | workers/fleet-bus/src/queue.js:127-148 | after a failed ack some continuation hands the job out by an alarm from before the end of its backoff if and only if the alarm in flight already has its row behind the one being handled; then answers alone do it |
| QueueOutage.BehindHeadIsReached | workers/fleet-bus/src/queue.js:180-197 | a run into such a world |
| QueueOutage.DueWorkIsHandedOut | workers/fleet-bus/src/queue.js:171-197 | past its deadline an idle queue with work can fire, and firing hands out the first due job |
| QueueOutage.DrainIsARun | workers/fleet-bus/src/queue.js:191-249 | the rest of an uninterrupted batch is a run of the interleaved machine |
| QueueOutage.AlarmIsARun | workers/fleet-bus/src/queue.js:171-250 | so is a whole alarm, with the same final store |
| Topic.TopicDO.PublishRetained | workers/fleet-bus/src/topic.js:65-98 | the whole new state and the recovery note, sent exactly if silence was announced |
| Topic.TopicDO.PublishEvent | workers/fleet-bus/src/topic.js:101-116 | append, trim by id, and the event note |
| Topic.TopicDO.ReadRetained | workers/fleet-bus/src/topic.js:119-131 | the row if it has not expired, whether or not the alarm has run |
| Topic.TopicDO.ReadStream | workers/fleet-bus/src/topic.js:134-144 | of a stream in id order: ids above the given one, ascending, at most the capped size, and none skipped |
| Topic.TopicDO.Health | workers/fleet-bus/src/topic.js:147-157 | the unexpired row, the depth of the stream and the silence, as they are |
| Topic.TopicDO.Alarm | workers/fleet-bus/src/topic.js:167-184 | expiry, and the silence note exactly once per outage, with the time since the last publish rounded to seconds |
| TopicRuns.LivenessAlternates | workers/fleet-bus/src/topic.js:65-184 | in every run silent and recovered notes alternate from silent, each with its rounded duration; silent means no row; a row exists exactly if the alarm is at its expiry; silence comes at least one TTL after the last publish |
| TopicRuns.ReadsTheLastPublish | workers/fleet-bus/src/topic.js:65-131 | in every run a reader gets the last publish, with its time and expiry, exactly until a TTL after it, whether or not the alarm has run; and what is retained is that publish |
| TopicRuns.AppendCaps | workers/fleet-bus/src/topic.js:101-116 | append and trim refine appending to an unbounded log |
| TopicRuns.StreamIsTheTail | workers/fleet-bus/src/topic.js:101-116 | after k events the table is exactly ids max(1, k - 999) to k, in order |
| TopicRuns.PageIsAStretch | workers/fleet-bus/src/topic.js:134-144 | a page is a contiguous stretch of the log, and follows on from the given id exactly if nothing after it was trimmed |
| TopicRuns.PagingIsExact | workers/fleet-bus/src/topic.js:134-144 | paging by the last id seen while events arrive returns every event once, in order, as long as the reader keeps within the cap |
| TopicRuns.PagingReturnsAllRetained | workers/fleet-bus/src/topic.js:134-144 | paging a still stream returns all of it, for any limits |
| Digest.RenderDigest | workers/fleet-bus/src/digest.js:33-79 | one line per topic in order, with its colour and every number on it, and a headline that is the maximum severity: down exactly if some topic is silent, fine exactly if none is silent, parked or has dead letters |
| Digest.HeadlineIgnoresOrder | workers/fleet-bus/src/digest.js:35-72 | the headline is the same for every ordering of the topics |
| Digest.DigestAgreesWithTopic | workers/fleet-bus/src/digest.js:59-71 | over reachable topics, "no data yet" is printed exactly if never published, or expired with the alarm not yet run; "last seen" exactly until a TTL after the last publish; "silent" exactly if silence was the last note; each with the right age |
| Digest.PublishedButNoDataYet | workers/fleet-bus/src/digest.js:66-70 | a published topic that prints "no data yet" |
| Mutex.LockDir.MakeDir | coordination/mutex.sh:26-29 | one mkdir: succeeds exactly if the directory was absent |
| Mutex.LockDir.Acquire | coordination/mutex.sh:24-59 | the undisturbed acquire: succeeds exactly if the lock is absent, its owner is dead and recorded more than 900 s ago, or it has no owner and is more than 30 s old; then the lock names the caller, otherwise it is unchanged |
| Mutex.LockDir.ReleaseLock | coordination/mutex.sh:62-67 | removes the lock exactly if `owner` names the caller |
| MutexRuns.MutualExclusion | coordination/mutex.sh:24-67 | over all interleavings and crashes: at most one live holder, if creators write `owner` within the grace and each reclaimer removes the lock it looked at |
| MutexRuns.RemovalIsSafeExactly | coordination/mutex.sh:32-52 | a removal and a second mkdir leave one holder exactly if the lock removed is nobody's |
| MutexRuns.ExclusionExactly | coordination/mutex.sh:24-67 | over all interleavings and crashes, with no promise from anyone: there is at most one holder at every point of a run, and after each removal followed at once by the remover's mkdir, if and only if no reclaimer of the run removes a lock in use |
| MutexRuns.OneReclaimerSuffices | coordination/mutex.sh:32-57 | one process at a time in its check-and-remove window, with the check itself uninterrupted, gives mutual exclusion |
| MutexRuns.LoneAcquire | coordination/mutex.sh:24-59 | alone, a process gets the lock by these same conditions through the steps of the machine, and otherwise changes nothing |
| MutexRuns.JudgesExactly | coordination/mutex.sh:32-50 | when a process goes on to reclaim, by what it read and what it finds |
| MutexRuns.NoYoungLockIsReclaimed | coordination/mutex.sh:34-38 | in every run whoever is about to remove a lock that had an owner saw one recorded more than 900 s ago |
| MutexRuns.MkdirTakesWhatIsAbsent | coordination/mutex.sh:26-57 | a mkdir succeeds exactly on an absent directory; a first failure goes on to look, a second gives up |
| MutexRuns.OwnerIsDated | coordination/mutex.sh:27 | the owner is dated when written, and the directory when its owner file appears |
| MutexRuns.NoWedge | coordination/mutex.sh:30-57 | once no live process holds the lock and the TTL or grace has passed, a lone acquire succeeds |
| MutexRaces.TwoReclaimersBothHold | coordination/mutex.sh:51-57 | a run in which two reclaimers both end up holding the lock |
| MutexRaces.HolderExitsDuringTheCheck | coordination/mutex.sh:32-37 | a run with one process in its window at a time, in which a check overtaken by a release removes a live lock |
| MutexRaces.OwnerAppearsDuringTheCheck | coordination/mutex.sh:38-50 | the same through the orphan branch |
| MutexRaces.SlowCreatorLosesTheLock | coordination/mutex.sh:26-28 | a run in which a creator slower than the grace loses its lock |
| MutexRaces.RemovalMayGoUnnoticed | coordination/mutex.sh:51-57 | a run that removes a lock in use and never has two holders, because the holder leaves first |
| Vitals.RunGate | workers/cicd-collector/src/vitals.js:453-486 | the loop and the pruning compute the gate's step |
| Vitals.RowsByMount | workers/cicd-collector/src/vitals.js:229-234 | by mountpoint, the row of the largest index that the host reported for it, names compared without regard to case |
| Vitals.LastRowIsLatest | workers/cicd-collector/src/vitals.js:229-234 | which row counts, by its index |
| Vitals.SameHostIgnoresCase | workers/cicd-collector/src/vitals.js:230-231 | host names agree exactly if they are the same but for the case of letters |
| Vitals.JudgeMount | workers/cicd-collector/src/vitals.js:235-261 | breach exactly above the alert ratio, clear exactly below the clear ratio, both only for a row with a sample and a number |
| Vitals.EvaluateDisk | workers/cicd-collector/src/vitals.js:225-262 | one observation per configured mount, in order, each judged so by the latest row that reports its own mount, and unknown if none does |
| Vitals.PruneKeepsTwoDays | workers/cicd-collector/src/vitals.js:479-483 | of the stored days exactly today's and yesterday's stay |
| Vitals.VitalsLane.RunVitals | workers/cicd-collector/src/vitals.js:541-553 | post first, persist after; nothing is stored if either fails |
| VitalsRuns.PrunedRefinesUnpruned | workers/cicd-collector/src/vitals.js:479-483 | for any history whose days do not run backwards, deleting old days changes no alert and no recovery |
| VitalsRuns.GateInClosedForm | workers/cicd-collector/src/vitals.js:453-486 | the alerts are exactly the first breaches of a signal on a UTC day, the recoveries exactly the clears of an open episode, in the order observed |
| VitalsRuns.DocumentInClosedForm | workers/cicd-collector/src/vitals.js:453-486 | what is stored after any beats: a day for exactly the signals that breached today or yesterday, an episode for exactly those that breached and have not cleared since |
| VitalsRuns.AnnouncedExactly | workers/cicd-collector/src/vitals.js:443-486 | with posts and saves failing anywhere, a try announces a signal if and only if it breaches, the post gets through, and no earlier try of the UTC day announced it and then saved |
| VitalsRuns.OnceUnlessSaveFailed | workers/cicd-collector/src/vitals.js:443-449 | of two tries on one day that announce a signal the first failed to save; and after a failed save the next breach that gets through is announced again |
| VitalsRuns.RecoveredExactly | workers/cicd-collector/src/vitals.js:470-553 | with posts and saves failing anywhere, a try posts a recovery for a signal if and only if the post gets through and the beat clears an episode that the persisted beats left open, or one it opened itself |
| VitalsRuns.OneRecoveryUnlessSaveFailed | workers/cicd-collector/src/vitals.js:443-553 | once a recovery was heard and until the signal breaches again, a try posts another one if and only if it clears the signal, its post gets through and every recovery before it failed to save |
| VitalsRuns.TwoRecoveriesOneEpisode | workers/cicd-collector/src/vitals.js:545-553 | one episode with two recovery lines |
| VitalsRuns.RecoveryWasAnnounced | workers/cicd-collector/src/vitals.js:443-553 | every recovery line heard ends an episode, begun in a beat that persisted or in this one, whose first day was announced in the channel by that beat or before |
| VitalsRuns.FailedBeatsVanish | workers/cicd-collector/src/vitals.js:544-553 | the stored document is that of a gate that saw only the beats that persisted |
| VitalsRuns.PersistedInClosedForm | workers/cicd-collector/src/vitals.js:541-553 | what the beats that persisted said, read off their observations alone |
| VitalsRuns.LaneInClosedForm | workers/cicd-collector/src/vitals.js:541-553 | what the channel hears at any try, its save failing or not: exactly the lines this beat adds to the closed form of the beats persisted before |
| VitalsRuns.StoredOnlyAfterPosted | workers/cicd-collector/src/vitals.js:545-553 | a day is stored only after a post carrying that announcement succeeded, whatever failed in between |
| VitalsRuns.BandIsQuiet | workers/cicd-collector/src/vitals.js:242-261 | ratios inside the hysteresis band say nothing and change nothing, whatever the gate remembers |
| Poll.ListCompletedRuns | workers/cicd-collector/src/index.js:241-254 | the first 500 runs the server holds, exactly if each page of a hundred that is asked for is answered, else nothing |
| Poll.Collector.WriteRuns | workers/cicd-collector/src/index.js:288-303 | the rows of one listing that were not written yet, each once, and its red runs |
| Poll.Collector.WriteAll | workers/cicd-collector/src/index.js:284-309 | the same over all repos; a failing listing drops only its own repo |
| Poll.Collector.RunPoll | workers/cicd-collector/src/index.js:263-332 | document, rows and alert message after a poll that may stop before the save, at the post, or not at all; the message has a line for the first ten red runs and counts the others, and all of them are marked |
| PollRuns.NewKeysAreNew | workers/cicd-collector/src/index.js:288-303 | the new keys are distinct, were unseen, and with the seen ones are all finished runs listed |
| PollRuns.PollWrites | workers/cicd-collector/src/index.js:288-314 | a poll writes a row for exactly the finished runs listed whose id and attempt are not in the seen list, each once, and saves its time and the last 4000 keys unless it dies first |
| PollRuns.PollPosts | workers/cicd-collector/src/index.js:263-322 | a poll that gets that far posts about exactly the runs listed that concluded failure on their repo's default branch, or main, and are not in the alert list: ten named, the rest counted, all saved if they fit in 500 |
| PollRuns.AllRedFailed | workers/cicd-collector/src/index.js:292-298 | the red runs collected from the listings are exactly those |
| PollRuns.SinceExactly | workers/cicd-collector/src/index.js:191-281 | the window starts thirty minutes before the last poll but at most seven days back, cut to whole seconds |
| PollRuns.StepWriteOnceExactly | workers/cicd-collector/src/index.js:299-314 | a poll keeps write-once if and only if it saves what it writes |
| PollRuns.RowsAreWrittenOnce | workers/cicd-collector/src/index.js:173-189 | the saved list stays the tail of all rows and equal keys stay more than 4000 rows apart, at every point of a history, if and only if every poll that writes also saves |
| PollRuns.DyingDuplicatesExactly | workers/cicd-collector/src/index.js:300-314 | two polls of the same listings repeat a row too early if and only if the first died after writing one to 4000 rows; then all of them come twice |
| PollRuns.FirstPollCovers | workers/cicd-collector/src/index.js:191-197 | a run completed within thirty minutes of creation is written by the first saved poll after completion that lists its repo within the cap and seven days |
| PollRuns.CoveredExactly | workers/cicd-collector/src/index.js:191-197 | a poll writes an unwritten run if and only if it lists its repo after completion with the run created in its window |
| PollRuns.WithinCapShows | workers/cicd-collector/src/index.js:241-254 | a listing within the page cap is such a poll |
| PollRuns.SinceMoves | workers/cicd-collector/src/index.js:191-197 | the window never reaches further back than before |
| PollRuns.EverWrittenExactly | workers/cicd-collector/src/index.js:191-197 | over any history a completed run is ever written if and only if the first poll that lists its repo after completion has it in its window |
| PollRuns.LongRunsAreNeverListed | workers/cicd-collector/src/index.js:191-197 | with polls at most five minutes after the last saved one, a run that takes 35 minutes is never written by any history |
| PollRuns.AlertedOnlyAfterPosted | workers/cicd-collector/src/index.js:316-322 | in every history a key is in the saved alert list only if a posted message counted it, named or not |
| PollRuns.SavedExactly | workers/cicd-collector/src/index.js:316-322 | over a history that posts no more than the list's cap, the runs in the alert list are exactly those that a poll posted and saved |
| PollRuns.NamedExactly | workers/cicd-collector/src/index.js:263-322 | and the runs ever named are exactly those that some post had among its first ten, up to and including the post that was saved |
| PollRuns.UnnamedStaysUnnamed | workers/cicd-collector/src/index.js:263-322 | a run in the alert list gets no line from any later poll until as many further runs were posted as the list has room for |
| PollRuns.EleventhIsNeverNamed | workers/cicd-collector/src/index.js:263-322 | of a first poll with more than ten red runs, the eleventh and each after it is saved as alerted without a line, and gets none while it is in the list |
| PollRuns.AlertsArePostedOnce | workers/cicd-collector/src/index.js:292-322 | over a history whose polls list each run once, the alert list stays the tail of all posted runs and a run is posted again only after more than 500 others, if and only if every poll that posts also saves |
| PollRuns.FailedPostStaysEligible | workers/cicd-collector/src/index.js:263-298 | a red run never posted is posted by a poll that lists it if and only if the poll can post; with each run listed once it is named there if and only if fewer than ten red runs come before it |
| Deploy.Worker.Take | coordination/worker.sh:57 | every listed job file moves to processing, nothing else moves |
| Deploy.Worker.File | coordination/worker.sh:98-100 | everything in processing moves to done or failed by outcome |
| Deploy.Worker.Verify | coordination/worker.sh:78-83 | healthy exactly if one of fifteen answers is good |
| Deploy.Worker.Snapshot | coordination/worker.sh:69-73 | when a snapshot is taken, and what it holds if the copy fails |
| Deploy.Worker.RollBack | coordination/worker.sh:87-90 | restores the snapshot, or ends the run with what the failed copy left |
| Deploy.Worker.SyncAndVerify | coordination/worker.sh:74-94 | success exactly if sync, restart and health are good; a rollback exactly if unhealthy with a snapshot directory; content and record in every case |
| Deploy.Worker.Refresh | coordination/worker.sh:63-66 | the clone after a fetch and a hard reset that may fail |
| Deploy.OneOutcome | coordination/worker.sh:62-100 | success, rollback and early exit exclude one another, and of the deploys that fail without exiting exactly the unhealthy ones with a snapshot directory roll back |
| Deploy.Worker.DeployMain | coordination/worker.sh:62-96 | which outcome, exactly when, and the content and record it leaves |
| Deploy.Worker.Drain | coordination/worker.sh:57-100 | for a whole run: success, rollback and early exit exactly when, where every job file ends in each, and what is deployed and recorded |
| Deploy.Worker.RunOnce | coordination/worker.sh:34-100 | a tick deploys exactly if jobs wait or main is not the recorded commit; it is a run of the step machine |
| DeployRuns.JobsArePartitioned | coordination/worker.sh:57-100 | in every run, crashing at any point, each job file is in exactly one of the four directories |
| DeployRuns.DoneMeansDeployed | coordination/worker.sh:60-100 | with real deploys, a job is in done only if a healthy deploy began its sync after the job was enqueued |
| DeployRuns.RecordedMeansHealthy | coordination/worker.sh:93-94 | the recorded commit was always synced and came back healthy |
| DeployRuns.StepRecord | coordination/worker.sh:93-94 | the record changes only to the commit whose content is in place, or to nothing |
| DeployRuns.RollbackRestores | coordination/worker.sh:84-91 | an unhealthy run with a good snapshot and a good copy back ends with the content it found, record untouched |
| DeployRuns.RolledBackMeansRestored | coordination/worker.sh:84-91 | in every run, after any rollback from a good snapshot the content is what the run found |
| DeployRuns.FailedWithoutRollback | coordination/worker.sh:74-91 | a run that files a job as failed with no rollback; Deploy.OneOutcome says exactly which do |
| DeployRuns.LeftoversWait | coordination/worker.sh:54 | jobs a crash left in processing stay there for any number of ticks with an empty queue and main recorded |
| DeployRuns.FailedDeployIsRetried | coordination/worker.sh:42-54 | while main is not the recorded commit, no number of failed runs changes that, and every tick deploys again |
| ZScore.Samuelson | grafana/anomaly-detector/detector.py:57-80 | the latest point satisfies z*z <= n - 1 |
| ZScore.SamuelsonIsSharp | grafana/anomaly-detector/detector.py:57-80 | with equality when all other points are equal |
| ZScore.ScoresAreNormalised | grafana/anomaly-detector/detector.py:44-54 | there is one score per value, they sum to zero, and their squares sum to n |
| ZScore.ScoresTheLastPoint | grafana/anomaly-detector/detector.py:57-80 | an anomaly is the last score, at or past the warn threshold, crit exactly past the other, high exactly if positive |
| ZScore.ReportsTheWindow | grafana/anomaly-detector/detector.py:57-80 | the reported mean times n is the sum of the window, the reported deviation is the one scored with, and the score times it is how far the last value lies above the mean |
| ZScore.VerdictExactly | grafana/anomaly-detector/detector.py:57-80 | an anomaly exactly with enough points, a positive deviation and a score of z_warn or more either way; an error exactly for an empty window that passes the length check |
| ZScore.SmallWindowsStaySilent | grafana/anomaly-detector/detector.py:57-80 | a window alarms only if n - 1 >= z_warn squared, and is critical only if n - 1 >= z_crit squared |
| ZScore.LoneOutlierAlarms | grafana/anomaly-detector/detector.py:57-80 | one point away from equal others alarms exactly then |
| Transcript.ScanFile | grafana/claude-usage-collector/collector.py:170-188 | the points of exactly the unread part of one file, and the offset reached |
| Transcript.Scan | grafana/claude-usage-collector/collector.py:160-189 | the points of all files in order and the new cursor, with and without reset |
| Transcript.Collector.InfluxWrite | grafana/claude-usage-collector/collector.py:204-214 | a prefix of the points is stored: all of them if every chunk of 5000 was answered well, else those up to the first chunk that was not |
| Transcript.Collector.Run | grafana/claude-usage-collector/collector.py:219-236 | the cursor moves only after the whole write succeeded |
| TranscriptRuns.LinesRoundTrip | grafana/claude-usage-collector/collector.py:178 | cutting a text into lines loses nothing, and each line but the last ends at its only newline |
| TranscriptRuns.IncrementalEqualsBatch | grafana/claude-usage-collector/collector.py:160-189 | for append-only files at line boundaries, the outputs of any row of scans concatenate per file to one full re-read |
| TranscriptRuns.LastWriteWins | grafana/claude-usage-collector/collector.py:204-214 | storing points leaves each key the fields of its last point |
| TranscriptRuns.CrashesLeaveNoTrace | grafana/claude-usage-collector/collector.py:148-236 | once a run has finished, runs that died before the cursor save leave no trace in cursor or store; runs that lost the cursor while saving it leave none in the store, if files that share a key agree on it |
| TranscriptRuns.FatesAgree | grafana/claude-usage-collector/collector.py:148-236 | what runs that finish, die or lose the cursor have in common: the points are stored before the cursor is touched |
| TranscriptRuns.HistoryEqualsOneRun | grafana/claude-usage-collector/collector.py:148-236 | any history that ends with a finished run, lost cursors included, stores what one full re-read would, if files that share a key agree on it |
| TranscriptLimits.CutIsHarmlessExactly | grafana/claude-usage-collector/collector.py:176-188 | reading a text in two instalments loses nothing, whatever its lines mean, if and only if it is cut at a line boundary or nothing follows |
| TranscriptLimits.InstalmentsExactly | grafana/claude-usage-collector/collector.py:160-189 | for files that only grow, the outputs of a row of scans concatenate to one full re-read, whatever the lines mean, if and only if each scan followed by a longer text had stopped at a line boundary |
| TranscriptLimits.TornLineIsLost | grafana/claude-usage-collector/collector.py:177-188 | any line caught half-written, both halves malformed, is lost for good |
| TranscriptLimits.SharedKeyTellsTheOrder | grafana/claude-usage-collector/collector.py:160-189 | a file that arrives after all others has the last word on its keys |
| TranscriptLimits.StoresLikeOneRunExactly | grafana/claude-usage-collector/collector.py:160-236 | every append-only history that ends with a finished run on a snapshot of whole files stores what one re-read would if and only if files that share a key agree on its last fields |
| TranscriptRuns.RewriteIsNoticedIfShorter | grafana/claude-usage-collector/collector.py:170-175 | a file is read from the top exactly if nothing of it was read or it is shorter than the cursor |
| LineProtocol.EscIsCharwise | grafana/claude-usage-collector/collector.py:66-68 | the four replacements together escape each special character once |
| LineProtocol.EscOfChar | grafana/claude-usage-collector/collector.py:66-68 | exactly the backslash, the space, the comma and the equals sign get a backslash in front |
| LineProtocol.ReadUndoesEsc | grafana/claude-usage-collector/collector.py:66-68 | the model's own reader, which takes a character after a backslash literally, gets any tag value back, whatever follows it |
| LineProtocol.TagsReadBack | grafana/claude-usage-collector/collector.py:124-143 | that reader, reading keys up to the equals sign, gets the measurement, the five tags by name, and the fields and time back from a built line |
| LineProtocol.LinesTellRecordsApart | grafana/claude-usage-collector/collector.py:124-143 | equal lines come from equal tags, fields and time together |
| Watcher.ParseServices | discord-collectors/watcher.py:76-91 | every named deployment once, UP exactly if some entry with its name is up |
| Watcher.WatcherState.Update | discord-collectors/watcher.py:196-218 | one name's fields and note, and no other name's |
| Watcher.WatcherState.Process | discord-collectors/watcher.py:169-218 | the whole state after a poll, and exactly its notes, each once, in any order of the names |
| WatcherRuns.TrackedInClosedForm | discord-collectors/watcher.py:169-218 | tracked are the names of the last answer; DOWN exactly if it says DOWN and the answer before did not say UP |
| WatcherRuns.NotesInClosedForm | discord-collectors/watcher.py:169-218 | each note about a name exactly when, from the last three answers |
| WatcherRuns.SilenceIsNeutral | discord-collectors/watcher.py:170-174 | a poll without an answer neither counts nor resets |
| WatcherRuns.NeverUpNeverAnnounced | discord-collectors/watcher.py:196-201 | a service never reported UP is never announced as down |
| WatcherRuns.OutageNotesAlternate | discord-collectors/watcher.py:170-178 | in every run the server's notes alternate from unreachable, each at the first poll of its stretch |
| Tags.PrintsExactly | workers/host-vitals/src/index.js:75-81 | printed are the tags other than host and collector, each once as key=value joined by commas, keys in dictionary order |
| Tags.LexIsDictionaryOrder | workers/host-vitals/src/index.js:78 | the order of sort(): at the first difference the smaller character, or the shorter string |
| Tags.OrderDoesNotShow | workers/host-vitals/src/index.js:75-81 | the printed tags do not depend on insertion order |
| Tags.SplitUndoesJoin | workers/cicd-collector/src/vitals.js:176 | splitting at commas undoes joining parts without commas |
| Tags.MountInExactly | workers/cicd-collector/src/vitals.js:177-178 | a part reads as a mountpoint exactly if it is `mountpoint=` and then that |
| Tags.MountpointOf | workers/cicd-collector/src/vitals.js:175-181 | the search finds the value of the first `mountpoint=` part, and nothing exactly if there is none |
| Tags.MountpointRoundTrip | workers/host-vitals/src/index.js:75-81 | what one Worker prints the other reads back: the mountpoint, or nothing if there is none |
| Tags.ReadsPartwise | workers/cicd-collector/src/vitals.js:175-181 | whatever the parts hold, the joined string reads as the first of them that reads as anything on its own |
| Tags.MountpointReadExactly | workers/cicd-collector/src/vitals.js:171-181 | for plain keys and any values the mountpoint, or its absence, reads back if and only if its value has no comma and every tag before it that makes up another one comes after a tag that makes up the same |
| Tags.CommaInventsAMountpoint | workers/cicd-collector/src/vitals.js:171-181 | a family of values with a comma that make up a mountpoint |

## Left out

- HTTP, authentication, Discord, GitHub, the Analytics Engine and Flux queries, and all SQL text: they appear as
  returned rows and arbitrary outcomes.
- `parked_reason`, and the queue's `stat`: reported values that no decision reads.
- Queue.Classify: numbers in a header or body are whole; a fractional or textual JSON number is not modelled, nor
  is the wording of a failure reason.
- The schema migration of the queue object, and `JSON.parse` of a stored envelope, which is kept as text.
- Vitals.EvaluateDisk: models the disk signals of `evaluate`; the memory, swap, silence and bus signals would add
  members of the same shape. Lower-casing is that of ASCII.
- The write budget and `parseBatch` of the host-vitals Worker.
- The inventory beat of the CI collector, the columns of its rows, and its heartbeat rows; repos are a given list.
- Overlapping beats on the one KV document, where a whole-document save can lose the other's update.
- The heartbeat of the deploy worker, `mkdir -p` failing, and `rev-parse --short`, which only feeds a log line.
- Deploy.Worker.RunOnce: an undisturbed run; enqueues, moves of main and crashes during a run are in the step
  machine, and the theorems of `DeployRuns` are about that.
- MutexRuns.MutualExclusion: does not promise exclusion for every run, because it fails for some: `MutexRaces` has
  the runs, and `ExclusionExactly` says which.
- PID reuse, and clocks that step backwards.
- Transcript.ScanFile: a file is characters, so decoding and universal newlines are left out; a file is read as it
  was when its size was taken. Decoding a line and `parse_line` are the parameter `parse`.
- LineProtocol.ReadUndoesEsc: the database's own reader is not part of this model; the one used here reads keys up to
  the equals sign and unescapes values.
- LineProtocol.TagsReadBack: newlines in a tag, which the source does not escape either.
- Watcher: the daemon loop, and whether a note reaches Discord, which the state does not depend on.
- ZScore.ScoresTheLastPoint: scores before rounding, over the reals.
- Message wording, colours, number formatting, dashboards, Terraform, and install scripts.
- `mcp.js`, `dispatch.js`, `rag.js`, `digest.py`, `sentinel.py`, `transit_discord.py` and `stack-watchdog.sh`: thin
  wrappers, or a single throttle or set difference, weaker than the gates above.
