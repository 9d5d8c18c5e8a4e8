# dumpstore: model and proofs

dumpstore is a web front end for ZFS hosts. This project models the parts of its Go backend that carry state, and
proves what they keep. `dafny verify dfyconfig.toml` checks everything.

| files | what they model |
|---|---|
| `Holds`, `Runner`, `Watching` | the hold protocol of replication runs: interleaved runs, failures, crashes, restarts, user deletes; the runner object that performs its steps; its polls beside the job manager |
| `Chain`, `Snapshots`, `Labels`, `Filters` | incremental bases and retention: overlapping runs between one source and one target; the listing, base and prune code; the order of labels |
| `JobSpec`, `JobTheorems`, `Outcomes`, `Jobs`, `Tails` | the job manager: lifecycle, how a job ends, retention, record files written by rename, crash recovery; the manager object and the output collector |
| `BrokerSpec`, `Broker`, `Poller` | bounded publish/subscribe with a cache, on channels and in-place lists; the change detector |
| `Fanin`, `Events`, `Cleanup` | one event stream: forwarders, the merged channel, cancellation, the subscribe and unsubscribe loops, and what is left of its subscriptions |
| `SchedulerSpec`, `Scheduler`, `Cron`, `CronMeaning`, `CronGrammar` | the tick loop and overlap flag; the cron parser over its tables, what any accepted text means, and a grammar with a printer |
| `StoreSpec`, `Store`, `ByTime` | the replication task store: memory, file and rollback; Go slices that share arrays |
| `RegistrationSpec`, `Handlers` | the replication handlers on the store and scheduler objects |
| `Autosnap`, `Cadence` | automatic snapshots, their retention, and when their buckets fire |
| `Acl`, `AclMeaning` | the two text forms of NFSv4 access control entries, and what each means (types, flags and mask as in section 6.2.1 of RFC 7530) |
| `Text` | the Go string functions these files call |

Code that changes state is modelled by classes and loops; each method is proved against a function of the old state
(the `*Spec` modules), and the theorems are about those functions over whole runs. A concurrent protocol is a state
machine whose steps are the atomic sections of the code, in any order. An external command, a save or a rename is a
step that works or fails; which of the two is a parameter.

Where the code and what is written about it disagree, the model follows the code:

* A day of week 7 is replaced in the text: every digit 7, in longer numbers and steps too, becomes a 0. `7` is Sunday,
  but `0-7` means `0-0`, `1-7` and `*/7` are refused, `7-3` is accepted, `71` is Monday and `*/71` is every day.
  `CronGrammar.DayOfWeekSeven` says exactly which items over 0 to 7 keep the documented meaning, whatever their step,
  and `CronGrammar.AcceptedSeven` which items are accepted at all. `*/1` is not the star that turns the either-day rule
  off (`CronGrammar.StarStepIsNotStar`).
* A step close to the machine maximum makes the slot loop wrap around and index outside its table
  (`Cron.FillSlots`); the parser then panics.
* A run lists the source and the target by two commands. When another transfer arrives between them, the base need not
  be the target's newest snapshot; `Chain.BaseIsNewestIff` says exactly when it is, and `Chain.BaseIsNewest` that runs
  one by one always find it.
* The overlap flag covers the dispatch of a replication run, not its transfer, and belongs to a registration. Two
  transfers in flight make the later one roll back over the earlier one's snapshot (`Chain.OverlapDestroys`). An id that
  is registered while a registration of it is running, or waits in a pass, gets two bodies
  (`SchedulerSpec.ReRegistrationOverlaps`); otherwise never (`SchedulerSpec.OneBodyPerId`).
* A cancelled job counts as ended while its process still runs, so the hold of a run that is cancelled can go, and its
  source snapshot be destroyed, before the transfer has stopped (`Watching.EarlyReleaseIff`); otherwise the hold spans
  the transfer (`Watching.HoldSpansTransfer`).
* A retention of zero lets a prune take the base of the next run (`Chain.ZeroRetentionForgets`).
* A job cancelled and removed before its process ends gets its record file back without an entry in the map
  (`JobTheorems.EarlyRemovalLeavesRecord`).
* A topic requested twice in one event stream leaves a subscription behind, until the broker closes it for being full
  (`Cleanup.CleanupIsCompleteIff`).
* Deleting an enabled task whose save fails leaves it in the store but unscheduled
  (`RegistrationSpec.DeleteAgreesIff`), and handlers of one task that interleave can leave store and scheduler apart
  (`RegistrationSpec.InterleavedAgreesIff`).
* A value published by others between two equal polls stays in the cache (`Poller.CacheAfterPoll`).
* A bucket prune that fails reports a count of zero, whatever it destroyed before (`Autosnap.PruneBucket`).

## Model

| member | source | states |
|---|---|---|
| Holds.StepInv | internal/replication/runner.go:195-308 | every step keeps: held snapshots exist, are named with the own prefix, and have an owning run |
| Holds.EveryHoldHasAnOwner | internal/replication/runner.go:195-308 | with releases succeeding, in every interleaving, a hold belongs to a run between hold and the end of its job, or to an orphan of a crash, an ended context or a vanished record |
| Holds.ApartIff | internal/replication/runner.go:147-150 | two recursive or plain names can cover a common snapshot exactly if they have one label and one dataset is, or is recursively above, the other |
| Holds.LiveStaysHeld | internal/replication/runner.go:219-309 | what a live run holds stays held and cannot be destroyed, and no other run can come to cover it, as long as no user releases it or a dataset above |
| Holds.HeldUntilJobEnds | internal/replication/runner.go:219-289 | from hold to observed job end a snapshot stays held unless a user releases its name or one above; runs with the same label on other datasets do not matter |
| Holds.HoldChanges | internal/replication/runner.go:96-152 | a hold comes exactly by a run's hold command, and goes exactly by its run's release, if that works, or a recursive release at or above it |
| Holds.SnapChanges | internal/replication/runner.go:212-224 | a source snapshot comes exactly by a run, recursively if it asks, and goes exactly by a user or the clean-up of a failed hold |
| Holds.RunIsLeft | internal/replication/runner.go:219-309 | what each outcome makes of a run; it is left without a release exactly by a crash, an ended context, a vanished record or a release that failed |
| Holds.CrashThenStartup | internal/replication/runner.go:96-117 | a crash may come at any time, stops every run, changes no hold, and startup can follow |
| Holds.StartupClears | internal/replication/runner.go:96-117 | startup leaves no hold exactly if each held snapshot or one above it of the same label was released; always when every release works |
| Watching.JobHistory | internal/jobs/manager.go:418-578 | in every interleaving: the transfer goes on until its process is seen to end, the job is terminal exactly after a cancel or that end, and listed until a remove or prune takes it |
| Watching.EarlyReleaseIff | internal/replication/runner.go:280-289 | the next poll, whatever happened since the last, releases the hold under a running transfer exactly if the job was cancelled, has not been seen to end and is still listed; it finds no record exactly if one was taken |
| Watching.TakenWasTerminal | internal/jobs/manager.go:497-578 | between two polls a record is only taken by removing or pruning the job after it was cancelled or ended, between them too |
| Watching.HoldSpansTransfer | internal/replication/runner.go:271-308 | over any number of polls, unless the job is cancelled the wait does not end while the transfer goes on |
| Watching.SuccessIsCleanEnd | internal/replication/runner.go:280-304 | the next poll sees a success, the only case in which the target is pruned, exactly if the process came to a clean end before any cancel and the record is still listed |
| Watching.CancelReleasesEarly | internal/jobs/manager.go:483 | a cancel at any point of the transfer, then a poll, releases the hold under it |
| Runner.ContainsAt | internal/replication/runner.go:104 | a name contains `@prefix` exactly if its label starts with the prefix, so startup and user deletes recognise the same snapshots |
| Runner.Runner.Execute | internal/replication/runner.go:195-269 | a dispatched run holds everything it snapshotted; read as zfs-send and zfs-recv read them, its arguments send the new snapshot, raw and recursive as set, incrementally exactly from the newest common base of the two listings, to the target on the task's host; any earlier exit leaves no new hold if its release worked; what exists on the source afterwards |
| Runner.SendSays | internal/replication/runner.go:233-243 | for every setting the send asks for exactly that: raw, recursive, the base if there is one, the snapshot, nothing else |
| Runner.RecvSays | internal/replication/runner.go:245-255 | the receive rolls back, does not mount, and goes to the target, through ssh exactly for a remote one |
| Runner.VerdictIs | internal/replication/runner.go:274-287 | the wait ends with the first tick that finds its context ended, no record, or a job that is over |
| Runner.RecordSays | internal/replication/runner.go:281-323 | a run record names its job, snapshot and times; its status word tells how the wait ended, and its error is empty exactly after a success |
| Runner.Runner.AfterJob | internal/replication/runner.go:271-327 | the first tick that decides releases exactly the run's hold, exactly on a terminal job, and prunes exactly on success; an ended context or vanished record leaves the hold; the store object gets exactly the one record of the run, or none when the context ended |
| Runner.Runner.FinishSeen | internal/replication/runner.go:288-304 | release, then prune only after a success, removing the sorted excess up to the first destroy that fails |
| Runner.Runner.ReleaseHoldsFor | internal/replication/runner.go:141-152 | exactly the holds named, or below a named dataset with the same label, go |
| Runner.Runner.ReleaseOrphanedHolds | internal/replication/runner.go:96-117 | the loop over the printed list is the startup step of the protocol; with everything working no hold is left; it reports how many releases worked |
| Snapshots.ListingIsRead | internal/replication/snapshot.go:104-117 | reading what was printed gives back the own names in order |
| Snapshots.FilterReplSnaps | internal/replication/snapshot.go:104-117 | the loop selects exactly the lines with the prefix, in order |
| Snapshots.ListTargetSnaps | internal/replication/snapshot.go:77-98 | a missing target is empty, another failure is an error |
| Snapshots.FindLastCommon | internal/replication/snapshot.go:123-148 | an error exactly if a listing failed, otherwise the newest source name whose label the target has, or empty if there is none |
| Snapshots.BaseIsLastCommon | internal/replication/snapshot.go:129-147 | comparing qualified names by the part behind the first `@` is comparing labels |
| Snapshots.OwnOfNames | internal/replication/snapshot.go:104-117 | the names selected from a dataset's listing are those whose label has the prefix, in order |
| Snapshots.BaseOfHosts | internal/replication/snapshot.go:123-148 | when the two listings show the snapshots of the hosts, the base a run sends from is the newest own label that both have, or none |
| Snapshots.PruneTarget | internal/replication/snapshot.go:153-174 | destroys the sorted excess up to the first destroy that fails and nothing else; success means all of it; a negative count is zero |
| Snapshots.PartialPrune | internal/replication/snapshot.go:153-174 | however far a prune gets, the newest snapshots stay and stay newest, and foreign names are untouched |
| Snapshots.FullPrune | internal/replication/snapshot.go:160-173 | a successful prune leaves exactly the newest `retain` |
| Snapshots.OldestGoFirst | internal/replication/snapshot.go:164-172 | with names in string order a prune that stops half-way took the oldest |
| Snapshots.SortOfSorted | internal/replication/snapshot.go:165 | sorting names in string order changes nothing |
| Snapshots.SortStringsSorts | internal/replication/snapshot.go:165 | the order in which the excess is destroyed is ascending |
| Snapshots.CreationOrderIsStringOrder | internal/replication/snapshot.go:13-15 | names of runs are ordered as their times, for years with equally many digits |
| Labels.RunLabelOrder | internal/replication/snapshot.go:13-15 | for years with equally many digits string order of run labels is time order, and a second has one label |
| Labels.SnapLabelOrder | internal/autosnap/bucket.go:69-76 | the same for automatic snapshots, by minute |
| Labels.LongerYearOrder | internal/replication/snapshot.go:13-15 | against a year of more digits the label of the earlier time sorts first exactly if its date is less than the other one cut to as many digits |
| Chain.BaseIsNewestIff | internal/replication/snapshot.go:123-148 | in every interleaving of listings, transfers, failures and single destroys: the chosen base is the newest own snapshot of the target exactly if the run had it in its earlier listing of the source |
| Chain.BaseIsNewest | internal/replication/runner.go:226-242 | runs one by one, after any failures and half-finished prunes: the base is the newest own snapshot of the target, and none exactly if the target has none |
| Chain.IncrementalForever | internal/replication/runner.go:226-304 | runs one by one: once the target has a snapshot and retention is at least one, every later run is incremental from the target's newest |
| Chain.ArrivedIsNewest | internal/replication/runner.go:257-304 | a transfer that arrived is then the newest on the target |
| Chain.NeverEmptyAgain | internal/replication/snapshot.go:158-173 | with retention at least one, however runs and prunes overlap, a target that has a snapshot keeps its newest until a newer one arrives |
| Chain.ZeroRetentionForgets | internal/replication/snapshot.go:158-173 | the excess that a prune lists includes the newest exactly if retention is zero, and destroying it then empties the target |
| Chain.SourceDestroyed | internal/replication/snapshot.go:142-147 | when someone destroys a source snapshot the base stays the newest exactly if that one was spared |
| Chain.SourceChanges | internal/replication/runner.go:212-224 | the source gets a snapshot exactly from a run, and loses it exactly by the clean-up of a failed hold |
| Chain.TargetChanges | internal/replication/snapshot.go:153-174 | the target gets a snapshot exactly from its transfer, and loses one exactly to a prune or to a transfer from an older base |
| Chain.ArrivesIff | internal/replication/runner.go:233-255 | a full transfer arrives exactly on an empty target, an incremental one exactly where its base is |
| Chain.ReceiveAppends | internal/replication/runner.go:244-255 | a transfer only appends exactly if its base is still the newest, and otherwise destroys what is newer |
| Chain.TargetIsWhatArrived | internal/replication/runner.go:195-304 | runs one by one, retention at least one, prunes going on during later runs: the target is what arrived, in order, less what prunes took from the old end |
| Chain.OverlapDestroys | internal/replication/runner.go:263-268 | two runs in flight, from any state with a base: the later transfer removes the earlier one's snapshot |
| Chain.LabelsChooseTheSame | internal/replication/snapshot.go:135-147 | choosing the base by labels is choosing it by times |
| Autosnap.BucketsApart | internal/autosnap/bucket.go:65-67 | no name belongs to two buckets or two datasets |
| Autosnap.KeepOfShow | internal/autosnap/bucket.go:85-94 | every positive count is read back and zero switches the bucket off |
| Autosnap.KeepFromValue | internal/autosnap/bucket.go:85-94 | the bucket is on exactly if the setting is a positive number that fits, and that is the count |
| Autosnap.OnIff | internal/autosnap/runner.go:159-184 | a bucket is on exactly if the master property is `true` and its own property is a positive number that fits, and that is its count |
| Autosnap.OwnProperty | internal/autosnap/runner.go:168-178 | each of the five buckets keeps what its own property says |
| Autosnap.OthersDoNotMatter | internal/autosnap/runner.go:159-184 | the properties of the other buckets change nothing, and without the master no bucket is on |
| Cadence.LegacyNames | internal/autosnap/bucket.go:65-76 | the prefixes are those of zfs-auto-snapshot, and a bucket recognises the names it gives |
| Cadence.BucketSchedule | internal/autosnap/bucket.go:41-55 | the cron expression of each bucket parses, and matches exactly each quarter of an hour, hour, midnight, midnight to Sunday, or midnight to the first |
| Autosnap.ListBucketSnapshots | internal/autosnap/runner.go:210-227 | the names of the bucket in listing order |
| Autosnap.PruneBucket | internal/autosnap/runner.go:189-204 | destroys the excess, oldest first, up to the first destroy that fails; counts it only on success |
| Autosnap.PrunedBucket | internal/autosnap/runner.go:189-204 | the bucket loses some of its old end and nothing else: the newest `keep` stay, and success leaves exactly them |
| Autosnap.PruneSelection | internal/autosnap/runner.go:231-239 | the sorted excess, equal to what pruning destroys when names are in order |
| Autosnap.ProcessDataset | internal/autosnap/runner.go:129-144 | a snapshot is made exactly if the bucket is on by its own property and the command works; it stays, the bucket loses some of its old end but never more than the excess over that count, exactly that if every command works, and foreign names are untouched |
| Autosnap.ProcessBucket | internal/autosnap/runner.go:112-145 | a tick makes of every dataset what its own property asks, whatever fails for others, and leaves all other buckets alone; how many snapshots it made |
| JobSpec.PruneLeaves | internal/jobs/manager.go:549-578 | a prune above the limit leaves the larger of the limit and the unfinished jobs seen |
| JobSpec.StepInv | internal/jobs/manager.go:153-466 | every atomic step keeps: a job, its supervisor and its status agree, an unfinished job is in the map, a record in place is whole and initial or final |
| JobTheorems.TerminalForever | internal/jobs/manager.go:436-493 | a terminal status never changes |
| JobTheorems.UnfinishedIsListed | internal/jobs/manager.go:497-578 | a job that has not ended is in the map and has a supervisor |
| JobTheorems.PruneTakesOldest | internal/jobs/manager.go:549-578 | of the jobs nobody works on any more, a prune drops none before an older one |
| JobTheorems.MapStaysBounded | internal/jobs/manager.go:463-578 | the map never holds more than the limit plus the supervisors that have yet to prune |
| JobTheorems.StrayRecords | internal/jobs/manager.go:457-520 | with writes and unlinks succeeding and nothing in progress, a record without an entry exists exactly for jobs whose file was deleted while a write was owed |
| JobTheorems.OwedOnlyByEarlyRemoval | internal/jobs/manager.go:483-578 | such a deletion is the unlink of a removed or pruned job that was cancelled or had just finished |
| JobTheorems.CrashRecovery | internal/jobs/manager.go:113-147 | a crash at any step, also between the unlinks of a prune, and any number of startups that crash between two file operations: nothing torn is read, final records come back exactly, others as interrupted, only those chosen beyond the limit can be missing |
| JobTheorems.FinishedJobSurvives | internal/jobs/manager.go:457-465 | a final record in place survives every later crash, in startups too, until its file is deleted |
| JobTheorems.EarlyRemovalLeavesRecord | internal/jobs/manager.go:457-520 | a cancelled job removed before its process ends leaves a stray record |
| JobTheorems.SecondRestartChangesNothing | internal/jobs/manager.go:113-147 | a second restart finds, shows and keeps what the first one left |
| JobTheorems.InterruptedRestartChangesNothing | internal/jobs/manager.go:113-147 | a second restart that crashes has no file to touch |
| JobTheorems.StepsMakeBoot | internal/jobs/manager.go:118-145 | the file operations of a startup, once all are done, make the records of the startup step |
| Outcomes.ShownAsEnded | internal/jobs/manager.go:418-493 | in every run: a job that was running is shown with the end that came first, cancelled, success with code 0 after a clean end, or failed with the code and text of any other |
| Outcomes.SuccessIff | internal/jobs/manager.go:443-453 | success is shown exactly after a clean end that no cancel came before |
| Outcomes.Begins | internal/jobs/manager.go:153-270 | a launched job is listed and supervised, and its record is captured as it was launched |
| Outcomes.WritesBeginning | internal/jobs/manager.go:580-591 | the steps of the initial write leave that record in place and no temporary file |
| Outcomes.EndsProcess | internal/jobs/manager.go:394-455 | a running job ends with the output collected, by its outcome |
| Outcomes.WritesEnd | internal/jobs/manager.go:457-460 | the steps of the final write leave exactly that job in place |
| Outcomes.Removes | internal/jobs/manager.go:497-520 | a removed job is off the list at once, and its record goes with the unlink, if that works |
| Outcomes.RewritesInSteps | internal/jobs/manager.go:118-136 | the three steps by which a startup rewrites an interrupted record |
| Jobs.Entry.SetFinal | internal/jobs/manager.go:436-455 | every field of the final job: success and code 0 exactly for a clean end of a job not cancelled, otherwise failed with code and text; a cancelled job keeps status and error and takes an exit code |
| Jobs.Manager.Cancel | internal/jobs/manager.go:470-493 | unknown, already ended, or marked cancelled; no other job changes |
| Jobs.Manager.Remove | internal/jobs/manager.go:497-520 | exactly a terminal job goes, with its record if the unlink works |
| Jobs.Manager.WriteRecord | internal/jobs/manager.go:580-591 | whatever fails, a record in place is the old one, or exactly if the rename went through the whole new one; no other file changes |
| Jobs.Manager.CollectDone | internal/jobs/manager.go:553-562 | every terminal job once, with its finish time |
| Jobs.Manager.PruneLocked | internal/jobs/manager.go:549-578 | drops the oldest finished jobs above the limit, and exactly their records |
| Jobs.Manager.Finish | internal/jobs/manager.go:418-466 | the final job field by field, its record by how the write ended, and a prune of exactly the oldest finished jobs above the limit |
| Jobs.Manager.LoadFromDisk | internal/jobs/manager.go:113-147 | entries and files after startup are those of the startup step |
| Tails.Collect | internal/jobs/manager.go:394-416 | after each non-empty read the output is exactly the last bytes read so far |
| Tails.ChunkingIsIrrelevant | internal/jobs/manager.go:394-416 | two cuts of the same stream record the same final output |
| BrokerSpec.RunInv | internal/broker/broker.go:48-126 | after any calls the lists are free of duplicates and hold exactly the open channels of their topic |
| BrokerSpec.ListsAreDisjoint | internal/broker/broker.go:48-96 | lists of different topics share no channel |
| BrokerSpec.ChannelStep | internal/broker/broker.go:48-126 | one call extends an open channel's stream by what was sent to its topic, or closes it |
| BrokerSpec.SubscriptionStream | internal/broker/broker.go:48-126 | a subscription carries the value cached at its start, then everything published to its topic in order; a closed one exactly what came before the call that found it full or unsubscribed it |
| BrokerSpec.ClosedWhenFull | internal/broker/broker.go:78-96 | a publish closes a subscriber exactly if it has 64 payloads unread |
| Broker.Broker.Subscribe | internal/broker/broker.go:48-57 | a new channel at the end of its list, filled with the cached value |
| Broker.Broker.Unsubscribe | internal/broker/broker.go:61-73 | order-preserving removal and close; no effect for a channel that is not listed |
| Broker.Broker.Deliver | internal/broker/broker.go:83-95 | the compaction loop is an order-preserving filter, and closes exactly the full channels |
| Broker.Broker.PublishLocked | internal/broker/broker.go:78-96 | the object follows the specification |
| Broker.Broker.Publish | internal/broker/broker.go:102-112 | caches and delivers, or nothing when the value cannot be encoded |
| Broker.Broker.PublishNoCache | internal/broker/broker.go:117-126 | delivers without caching |
| Poller.Poller.PublishIfChanged | internal/broker/poller.go:36-48 | publishes exactly when the value differs from the poller's own last one |
| Poller.PublishedWithoutRepeats | internal/broker/poller.go:30-48 | with no other publisher the topic carries the polled sequence without consecutive repeats and the cache is the latest value |
| Poller.RemembersAlways | internal/broker/poller.go:30-48 | over every history with other publishers: the poller remembers its latest poll, and the cache holds what others cached since it last published, or else that poll |
| Poller.CacheAfterPoll | internal/broker/poller.go:43-46 | over every history the cache is the latest poll exactly if nobody else cached another value since the poller last published |
| Poller.OtherPublisherHidesPoll | internal/broker/poller.go:43-46 | a value of another publisher hides an equal poll |
| Fanin.RunKeeps | internal/api/handlers.go:466-509 | in every interleaving, for each topic, what was written, merged and in hand is what its reader took |
| Fanin.WrittenIsPrefix | internal/api/handlers.go:466-509 | the events written for a topic are an in-order prefix of its subscription's stream |
| Fanin.NeverSendsOnClosed | internal/api/handlers.go:457-490 | nothing is sent on the merged channel after it is closed, and it is closed once |
| Fanin.HolderCanMove | internal/api/handlers.go:479-483 | a forwarder that holds a payload is never stuck |
| Fanin.OwnRunsEnd | internal/api/handlers.go:466-509 | the connection's own goroutines always come to rest: no run of theirs is longer than the work in its channels |
| Fanin.ClosedChannelCancels | internal/api/handlers.go:473-498 | from every reachable state in which the broker closed a channel, in whatever order its goroutines act, they come to rest and the connection is then cancelled and wound down |
| Fanin.CancelledWindsDown | internal/api/handlers.go:463-498 | from every cancelled state all forwarders can exit, the merged channel be closed and every subscription be given up |
| Fanin.CleanupIsCompleteIffDistinct | internal/api/handlers.go:441-449 | with no other call in between, every subscription is given up exactly if no topic was requested twice |
| Cleanup.SubscriptionLeft | internal/api/handlers.go:441-449 | whatever else is called, a subscription is open at the end exactly if its topic was requested again and all it was sent since fits its buffer |
| Cleanup.CleanupIsCompleteIff | internal/api/handlers.go:441-449 | nothing is left exactly if every replaced subscription was sent more than its buffer holds, in particular if no topic was repeated |
| Events.SubscribeTopics | internal/api/handlers.go:441-444 | the loop on the broker object; a repeated topic replaces the earlier channel |
| Events.UnsubscribeTopics | internal/api/handlers.go:445-449 | the deferred loop on the broker object, in any map order |
| SchedulerSpec.StepInv | internal/scheduler/scheduler.go:55-157 | every step keeps: the flag says whether a body is in flight, passes and fires have no repeats |
| SchedulerSpec.NoOverlap | internal/scheduler/scheduler.go:136-157 | in every run a registration has at most one body in flight and its flag is set exactly then |
| SchedulerSpec.FiresOncePerMinute | internal/scheduler/scheduler.go:107-157 | in every run whose ticks come from the loop, with a monotone clock and timers never early, a registration fires at most once in a minute |
| SchedulerSpec.FiresOnSchedule | internal/scheduler/scheduler.go:107-157 | in such a run every fire is in a minute that its schedule matches in the calendar |
| SchedulerSpec.RegisterTakesEffect | internal/scheduler/scheduler.go:55-62 | a new registration is the one of its id, idle and with its schedule, and no other is touched |
| SchedulerSpec.DueWhileRegistered | internal/scheduler/scheduler.go:137-143 | as long as an id stays registered, whatever happens to others, a tick passes it exactly if its schedule matches |
| SchedulerSpec.StaysUnregistered | internal/scheduler/scheduler.go:66-70 | an unregistered id is not known again until it is registered |
| SchedulerSpec.FiresExactlyWhenIdle | internal/scheduler/scheduler.go:146-156 | a due registration fires exactly if no body of it is in flight, and is passed over otherwise |
| SchedulerSpec.PassIsComplete | internal/scheduler/scheduler.go:146-156 | when a pass is over, whatever happened during it, everything due has fired or was passed over |
| SchedulerSpec.DueAlwaysMatch | internal/scheduler/scheduler.go:139-143 | whatever fires matches the moment of its tick |
| SchedulerSpec.OneBodyPerId | internal/scheduler/scheduler.go:55-62 | in every run that registers ids only while no registration of them is running or due, two bodies of an id are never in flight together |
| SchedulerSpec.SecondBodyIff | internal/scheduler/scheduler.go:146-156 | a fire brings a second body of an id exactly if it starts one while another registration of the id is running |
| SchedulerSpec.ReRegistrationOverlaps | internal/scheduler/scheduler.go:55-62 | registering an id in any other state leads to two bodies as soon as the new registration is due and the old body has not returned |
| SchedulerSpec.TicksIncrease | internal/scheduler/scheduler.go:107-132 | with a monotone clock and timers never early, ticks are in strictly increasing minutes |
| SchedulerSpec.NoMinuteSkipped | internal/scheduler/scheduler.go:123-131 | no minute is skipped between two ticks exactly if the pass ended within its minute and the timer was less than a minute late |
| Scheduler.Scheduler.Register | internal/scheduler/scheduler.go:55-62 | a fresh idle registration replaces the old; an empty id does nothing |
| Scheduler.Scheduler.Unregister | internal/scheduler/scheduler.go:66-70 | exactly that id goes |
| Scheduler.Scheduler.CollectDue | internal/scheduler/scheduler.go:137-144 | every matching registration exactly once |
| Scheduler.Scheduler.Tick | internal/scheduler/scheduler.go:136-157 | starts exactly the matching idle registrations, once each |
| Scheduler.Run | internal/scheduler/scheduler.go:107-132 | each timer is set to the start of the next minute, and ticks are in increasing minutes |
| Cron.ProgressionMembers | internal/scheduler/cron.go:161-164 | the slots of a part are exactly lo + k * step up to hi |
| Cron.FillSlots | internal/scheduler/cron.go:161-164 | sets exactly those slots in bounds, or wraps and panics exactly if the next value exceeds the machine maximum |
| Cron.ParsePart | internal/scheduler/cron.go:120-166 | error, panic or the slots of the part, with its error cases |
| Cron.ParseField | internal/scheduler/cron.go:108-118 | the union of the parts, or the first one that fails |
| Cron.Parse | internal/scheduler/cron.go:73-104 | the object filled by loops is the specification's schedule |
| CronMeaning.FirstPartDecides | internal/scheduler/cron.go:108-118 | a field is rejected, or makes the parser panic, by its first part that fails, and in its way |
| CronMeaning.WhyRefused | internal/scheduler/cron.go:73-104 | a text is rejected, or makes the parser panic, by its first field that fails, and in its way, or for not having five |
| CronGrammar.PartOfText | internal/scheduler/cron.go:120-166 | an item written with any digits, leading zeros included, is read as its numbers mean, and refused or panics exactly by them |
| CronGrammar.PartOfPrint | internal/scheduler/cron.go:120-166 | a printed item is read back as its values |
| CronGrammar.FieldOfPrint | internal/scheduler/cron.go:108-118 | a printed field denotes the union of its items |
| CronMeaning.SlotsOfField | internal/scheduler/cron.go:108-166 | for every accepted field, however written, the slots are exactly the values lo + k * step up to hi of its parts, all in bounds |
| CronMeaning.MatchesMeans | internal/scheduler/cron.go:36-104 | for every accepted text Matches is minute, hour and month together with both days if one is a literal star, otherwise either |
| CronGrammar.ParseOfPrint | internal/scheduler/cron.go:36-104 | every expression of the grammar, numbers in shortest form and no 7 in the day of week, is accepted and matches exactly the moments it denotes |
| CronGrammar.ParseOfString | internal/scheduler/cron.go:36-104 | parsing the text of a parsed schedule gives the schedule again |
| CronGrammar.RewriteSevenInText | internal/scheduler/cron.go:96 | replacing in the text is replacing every digit 7 of every number of the item by 0 |
| CronGrammar.DayOfWeekSeven | internal/scheduler/cron.go:96 | for every day-of-week item over 0 to 7, with a step of any size, exactly when it is read with its documented meaning, 7 being Sunday |
| CronGrammar.AcceptedSeven | internal/scheduler/cron.go:96 | for every item with numbers of any size, exactly by their digits when it is accepted, and when it panics |
| CronGrammar.BeyondSeven | internal/scheduler/cron.go:96 | of the items with single digits beyond 0 to 7 exactly the ranges that start in 7 and go on from Sunday are accepted |
| CronGrammar.SeventyOneIsMonday | internal/scheduler/cron.go:96 | `71` is accepted as Monday, and `*/71`, an item over 0 to 7, is read as every day |
| CronGrammar.StarStepIsNotStar | internal/scheduler/cron.go:41-58 | only the literal star switches the either-day rule off |
| StoreSpec.MemoryEqualsFile | internal/replication/store.go:54-193 | memory equals the file after any operations, failed saves included, unless an append was not saved; then only histories differ, until the next save |
| StoreSpec.CleanWhenSaved | internal/replication/store.go:181-193 | memory and file part only by an append that is not saved, and any save brings them together |
| StoreSpec.HistoryIsTail | internal/replication/store.go:181-193 | a history is the last twenty records appended since the task was created |
| Store.Append | internal/replication/store.go:188 | Go's append: in place if there is room, otherwise into a new array; no other cell changes |
| Store.Store.Get | internal/replication/store.go:109-117 | a copy of the task that shares its history array and is noted as handed out |
| Store.Store.List | internal/replication/store.go:97-106 | every task once, by creation time, each history slice noted as handed out |
| Store.Store.Load | internal/replication/store.go:54-71 | memory equals the file |
| Store.Store.Create | internal/replication/store.go:121-140 | persists, and notes the returned history as handed out, or takes the task back; everything handed out before is unchanged |
| Store.Store.Update | internal/replication/store.go:145-162 | changes the task, and notes the returned history as handed out, or restores it; everything handed out before is unchanged |
| Store.Store.Delete | internal/replication/store.go:165-178 | deletes or restores; everything handed out before is unchanged |
| Store.Store.AppendRun | internal/replication/store.go:181-193 | keeps the last twenty records; no history slice that Get, List, Create or Update returned changes, since the one cell written lies behind all of them |
| RegistrationSpec.AcceptedIff | internal/api/replication_handlers.go:39-87 | a request passes exactly if every field is valid, absent where it may be, and the schedule parses |
| RegistrationSpec.RefusedFor | internal/api/replication_handlers.go:39-70 | a request is refused for the first of source, target and remote that is missing or invalid |
| RegistrationSpec.RefusedForSchedule | internal/api/replication_handlers.go:71-84 | and then for its schedule, missing, unparsable or making the parser panic, or its name |
| RegistrationSpec.AcceptedCreate | internal/api/replication_handlers.go:39-141 | what an accepted create guarantees of the task it makes |
| RegistrationSpec.CreateLeaves | internal/api/replication_handlers.go:90-157 | after a create that succeeds each field is the request's value or its default, with an empty history, in memory and file; otherwise nothing is left if the rollback works; other tasks are untouched |
| RegistrationSpec.UpdateLeaves | internal/api/replication_handlers.go:90-191 | after an update that succeeds each field the request sets has its value and each other its former one; history and creation time stay; a refused one changes nothing |
| RegistrationSpec.DeleteLeaves | internal/api/replication_handlers.go:194-212 | a delete that succeeds removes the task from memory, file and scheduler; one that is not saved leaves the store alone |
| RegistrationSpec.CreateAgrees | internal/api/replication_handlers.go:120-157 | a create keeps scheduler and store in step; when it succeeds |
| RegistrationSpec.UpdateAgrees | internal/api/replication_handlers.go:160-191 | an update keeps them in step whether or not it is saved; when it succeeds |
| RegistrationSpec.DeleteAgreesIff | internal/api/replication_handlers.go:194-212 | a delete loses agreement exactly if the save fails for an enabled task |
| RegistrationSpec.StartupAgreesIff | internal/replication/runner.go:79-90 | after startup they agree exactly if all that is enabled parses |
| RegistrationSpec.AgreementForever | internal/api/replication_handlers.go:120-212 | from startup on, over any calls one after another, the scheduled ids and schedules are those of the enabled tasks |
| RegistrationSpec.InterleavedAgreesIff | internal/api/replication_handlers.go:120-212 | however store and register halves of any handlers interleave, saved or not, both agree on a task exactly if the last effective register half asked for what the last effective store half left |
| RegistrationSpec.CrossedUpdates | internal/api/replication_handlers.go:175-184 | two updates registered in the other order than stored agree exactly if they ask for the same, and a task left disabled is not run |
| Handlers.Handlers.RegisterEnabled | internal/replication/runner.go:119-127 | registers, unregisters, or fails on a schedule that does not parse |
| Handlers.Handlers.LoadAndRegisterAll | internal/replication/runner.go:79-90 | the registrations are those of the enabled tasks that parse |
| Handlers.Handlers.CreateReplication | internal/api/replication_handlers.go:120-157 | the handler on the two objects follows the specification; each field of the stored task is the request's or its default |
| Handlers.Handlers.UpdateReplication | internal/api/replication_handlers.go:160-191 | the handler on the two objects follows the specification; each field of the stored task is the request's or its former one |
| Handlers.Handlers.DeleteReplication | internal/api/replication_handlers.go:194-212 | the handler on the two objects follows the specification |
| Handlers.Handlers.Fire | internal/replication/runner.go:175-188 | a callback executes what the store has, exactly if the task is there and enabled |
| Acl.OrderFlags | internal/zfs/acl.go:299-310 | the flags of the alphabet in canonical order |
| Acl.Nfs4Fields | internal/zfs/acl.go:208-219 | a line is accepted exactly if it has three colons or more, and its four fields joined again are the line |
| Acl.ParseFreeBSDLine | internal/zfs/acl.go:262-295 | the loops compute the specified entry |
| Acl.FreeBSDACESpec | internal/zfs/acl.go:315-362 | the loops compute the specified text, or the first error in code order |
| Acl.ParseOfSpec | internal/zfs/acl.go:262-362 | reading a printed entry gives its normal form: type, permission set, flag set and principal kept, canonical order, domain dropped |
| Acl.Nfs4RoundTrip | internal/zfs/acl.go:208-362 | the same for every accepted NFSv4 entry, stated on its sets |
| Acl.FreeBSDRoundTrip | internal/zfs/acl.go:262-362 | a FreeBSD line survives printing and parsing exactly if it has a known permission and a special or plain principal |
| Acl.FreeBSDTables | internal/zfs/acl.go:233-244 | the program's tables are one to one and separate |
| AclMeaning.PrintKeepsMeaning | internal/zfs/acl.go:315-362 | a printed entry has the ACE type, mask bits, flag bits and principal of the entry it was made from, each form read by its own meaning |
| AclMeaning.PrintedIff | internal/zfs/acl.go:315-362 | an entry is printed exactly if its type, letters and principal mean something; otherwise the error is the first reason and the first letter without a meaning |
| AclMeaning.ReadKeepsMeaning | internal/zfs/acl.go:262-295 | a FreeBSD line that means something is read as an entry of the same type, mask and flags, and of the same principal exactly if that is special, or has no domain and a user no group marker |
| AclMeaning.ReadIff | internal/zfs/acl.go:262-281 | exactly which lines are read |
| AclMeaning.ReadInOrder | internal/zfs/acl.go:282-310 | what is read has its letters in canonical order |
| Acl.ProgramRoundTrips | internal/zfs/acl.go:233-362 | both round trips for those tables |

## Left out

- Processes, signals, pipes, SSH, `zfs` and `zpool`: each command is a step that works or fails without effect. A
  successful incremental receive rolls the target back to its base; a full one needs a target without own snapshots.
- JSON, file bytes, directories: a record is a value, a file is replaced by temporary file and rename. Within one
  startup the clock stands still, and a write or unlink does not fail unless the startup crashes there.
- Spans, logging, notifications, metrics, heartbeats, topic validation and the rest of the HTTP layer.
- Calendar arithmetic: a moment is a record of its fields, a clock a number of nanoseconds.
- The regular expressions for dataset names and remotes are parameters of the request checks.
- Text outside ASCII in `ToUpper`, invalid UTF-8, and years before zero.
- POSIX access control lists, the `Default` field of an entry, and running `getfacl` or `setfacl`.
- The order of equal times in `sort.Slice`, which the specifications leave open where it shows.
- Colliding random ids, except where a lemma says that new ids are new.
- Waiting on locks, and the lengths of critical sections: each is one step. A prune that reads job states while jobs
  end is one step that may or may not see such an end.
- Starting and stopping the scheduler, and its task goroutines beyond their start and end.
- The status page of automatic snapshots, property listing, and the registration calls of the five bucket tasks.
- Jobs.Manager.Finish: is one uninterrupted call; the interleavings of its parts are in JobSpec.
- Runner.Runner.AfterJob: takes the ticks and the target listing as arguments; which ticks the job manager allows is in
  Watching, and publishing the updated list is not modelled.
- Runner.Runner.Execute: takes the two listings as arguments; `Snapshots.BaseOfHosts` applies when they show the
  snapshots of the hosts.
- Scheduler.Scheduler.Tick: is one pass without interference; passes interleaved with other calls are in SchedulerSpec.
- Handlers.Handlers.LoadAndRegisterAll: starts from a scheduler without registrations, as at process start.
