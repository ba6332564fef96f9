# Verified models of the OpenSearch service

This project models the protocols and transformations of the OpenSearch operator (Go), of its DBaaS
adapter (Go), of the backup curator and of the monitoring scripts (Python), and proves properties that
hold over whole runs, over all inputs, or exactly under a stated condition.

`dafny verify dfyconfig.toml` checks everything. Modules, one per file unless noted:

| module | models |
|---|---|
| `ReplicationWatcher` | watcher goroutines, the lock and the switchover in `Configure`, step by step |
| `SlowLogWatcher` | `start` and `stop` against the goroutines that put slow-log settings on indices |
| `BackgroundExecutor` | the adapter's single-worker executor: mutex, bounded channel, worker |
| `RollingUpdate` | the resumable rolling update, over any sequence of failed, crashed and resumed attempts |
| `JsonPointer`, `UsersRecovery`, `RecoveryStates` (in `UsersRecovery.dfy`) | batched recovery of users by JSON Patch |
| `RecoveryHandshake` | the operator's recovery loop composed with the adapter |
| `ReplicationCheck` | the catch-up check before replication is stopped |
| `RestoreRenaming`, `TemplateRenaming` | renaming of names, alias dictionaries and templates |
| `TemplateRestore` | which templates a restore puts, and which references between them survive |
| `GranularRestore`, `RestoredNames` | what a granular restore restores, under which names, with which aliases |
| `SlowLogSplit`, `SlowLogScan`, `SlowLogRecord`, `SlowLogLayout`, `SlowLogRoundTrip` | printing and parsing of slow-log records |
| `SlowLogFilter` | the selection of the slowest queries |
| `HashPropagation` | how a changed secret reaches the deployments |
| `DatabaseLifecycle` | creating and dropping a database of the adapter's second interface version |
| `RoleMerge` | the three-way merge of backend roles |
| `Basics` | shared definitions |

Form. Goroutines that share a lock and a string become step systems: a state, the actions enabled in it,
and runs as sequences of actions. Objects whose methods update fields become classes; loops become
methods with invariants, proved against specification functions. Pure string and dictionary code becomes
functions.

Environment. Replies of Kubernetes, OpenSearch, the aggregator and other services are inputs: scripts of
replies, oracles, or free parameters of actions. A request that fails may have been applied, unless a
module says otherwise. A used-up script means that nothing goes wrong any more, so that progress can be
stated. These assumptions are made:

- a settings request that succeeds takes effect, although the reader of its body is reused on a retry;
- a pod seen ready after its deletion is the new pod, and Kubernetes counts a pod as updated once it is
  recreated;
- reads and writes of the custom resource (CR) are linearizable, and the controller runs one cycle at a time;
- tasks given to the executor do not themselves call `Submit`;
- stateful sets have distinct names, and each component has its own deployment and hashes;
- a hash of a secret is never the empty string;
- while a recovery pass runs nobody else writes users;
- database prefixes and their replacements are nonempty words without characters special to regular
  expressions, as the backup daemon checks.

Findings, each with the exact condition in the model:

- A replication watcher left waiting for the lock can restart replication on the strength of a CR read
  that a switchover has overtaken; that is possible exactly when a check is pending while `start` is called.
- A slow-log goroutine left waiting for the lock can apply the settings of an earlier `start` after a
  later one.
- The executor in the registration service is the zero value of its struct: it drops every task.
- An episode of users recovery can answer done on the recovery of the episode before it, when the final
  write of the CR was lost.
- The bracket scan of the slow-log parser never ends on an element whose last character is an opening bracket.
- The dictionary of the slow-log filter compares times as strings, so of a query that took nine and ten
  milliseconds the faster record is kept; the slowest is kept exactly when no time string is longer.
- The key of that dictionary joins index and query by an underscore, so two queries can share one record.
- Renaming replaces the first occurrence of a prefix, not only a leading one, so renaming back can hit
  another place.
- Two aliases of an index can get one name by renaming; then only the last of them is put back, and exactly
  then an alias is lost.
- A renamed database without a recorded index makes the restore bring back the whole snapshot.
- A template that refers to a component of another renamed database can be put with a reference to a
  component that is not put.
- A secret that is changed back after a failed cycle leaves a deployment annotated with the abandoned hash;
  once a hash is known, a deployment gets a stale hash in no other way, and while none is known a failed
  cycle is enough.
- The prefix check of database creation passes when the users cannot be listed with status 200; a user whose name
  starts with the prefix is then deleted with the database.
- That check looks one way: a longer prefix passes after a shorter one, and
  dropping the shorter one then deletes the users of the longer.
- When writing the metadata stays without an answer and the new index is deleted again, creation answers with neither a
  result nor an error, and the users it created stay.
- A set counts as updated while its pod 0 is still starting, so a rolling update can have pods of several
  sets down together; while a set is restarted that is so exactly when pod 0 of an earlier set is starting.
- Deleting a user takes any answer for success: a user that was found and whose deletion is answered with an
  error status is reported deleted and stays. Creating an index and writing metadata do the same.

Where documentation and code disagree the code is followed: the description of the slow-log filter promises
the longest execution time per index and query, the code keeps the greatest time string.

## Model

| member | source | states |
|---|---|---|
| ReplicationWatcher.StepKeepsInv | controllers/replication_watcher.go:50-104 | every step of `Configure` and of every watcher goroutine keeps lock ownership, pausing around the section and agreement of pending checks with the CR |
| ReplicationWatcher.RestartExcludesSwitchover | controllers/disaster_recovery_reconciler.go:114-117 | in every interleaving a restart overlaps neither the switchover section nor another restart |
| ReplicationWatcher.NoRestartFromSwitchoverToStart | controllers/disaster_recovery_reconciler.go:114-195 | from the moment the switchover holds the lock until a later `start`, no goroutine restarts replication, whatever checks are pending |
| ReplicationWatcher.DisciplinedRestartsAreFresh | controllers/replication_watcher.go:64-104 | if no `start` finds a leftover check, no switchover section lies between a CR read and the restart it justifies, and the CR still records a settled standby side when the restart is decided |
| ReplicationWatcher.OutdatedRestartExactlyWhenLeftOver | controllers/replication_watcher.go:50-62 | after a `start` an outdated restart can follow if and only if a goroutine had a pending check from before the end of the section |
| ReplicationWatcher.LeftOverIsReachable | controllers/disaster_recovery_reconciler.go:191-192 | a run that reaches such a leftover check, with the watcher enabled across a switchover |
| ReplicationWatcher.LockDrains | controllers/replication_watcher.go:93-104 | a lock held by a goroutine can always be freed while another goroutine waits for it, running or paused |
| ReplicationWatcher.PendingExactly | controllers/replication_watcher.go:70-88 | a check becomes pending exactly by a successful read of a CR whose spec and status are both standby and whose status is done |
| ReplicationWatcher.NoCheckOnOneSide | controllers/replication_watcher.go:79-88 | with no check pending, none follows, and no restart, while the spec is not standby, or the recorded side is not, or the status is not done |
| ReplicationWatcher.CheckExactlyWhenSettled | controllers/replication_watcher.go:64-91 | a running goroutine can come to its check on its own if and only if both sides are standby and the status is done |
| ReplicationWatcher.NoNewRestartAfterStop | controllers/replication_watcher.go:97-101 | after `pause`, until a later `start`, no goroutine begins a restart |
| ReplicationWatcher.PausedWatchersLeave | controllers/replication_watcher.go:64-91 | while paused every goroutine takes a bounded number of steps, and one that took them all has returned |
| ReplicationWatcher.OneGoroutinePerWakingStart | controllers/replication_watcher.go:50-62 | only a `start` that finds the watcher paused adds a goroutine, and it adds one |
| ReplicationWatcher.SleepsBetweenReads | controllers/replication_watcher.go:64-91 | a goroutine reads the CR at most once more than it wakes up |
| ReplicationWatcher.RecordsWhatHappened | controllers/disaster_recovery_reconciler.go:100-112 | a pass records the side its spec asked for when it began, and the status failed exactly when one of its steps failed |
| ReplicationWatcher.GivenUpStaysPaused | controllers/disaster_recovery_reconciler.go:123-131 | a section given up early leaves the watcher paused until the next pass |
| ReplicationWatcher.AskedForSwitchover | controllers/disaster_recovery_reconciler.go:85-96 | between two passes, asking for the other side or queueing makes the next pass switch over to what the spec asks for |
| ReplicationWatcher.PassCanEndPaused | controllers/disaster_recovery_reconciler.go:123-195 | a section given up records failed, a pass that switches the watcher off records its own outcome; both free the lock and leave the watcher paused |
| SlowLogWatcher.StepKeepsInv | controllers/slowlog_indices_watcher.go:53-90 | every step keeps: inside the loop if and only if holding the lock, and nobody adds while stopped and not waiting for the lock |
| SlowLogWatcher.AtMostOneInLoop | controllers/slowlog_indices_watcher.go:66-77 | in every interleaving at most one goroutine is inside the add loop |
| SlowLogWatcher.NoAddAfterStopReturns | controllers/slowlog_indices_watcher.go:59-64 | once `stop` has returned no add request is sent until a later `start` |
| SlowLogWatcher.ClearStaysClear | controllers/slowlog_indices_watcher.go:85-90 | a successful clear stays clear until the next `start`, even with goroutines that had not taken the lock yet |
| SlowLogWatcher.StopCanReturn | controllers/slowlog_indices_watcher.go:59-90 | from every reachable state `stop` can come to its return with the settings cleared: the goroutine that holds the mutex it waits for lets go of it |
| SlowLogWatcher.AppliedExactly | controllers/slowlog_indices_watcher.go:66-90 | settings are on the indices exactly when they were and nothing cleared them, or a goroutine with those settings added them and nothing cleared them since |
| SlowLogWatcher.StaleSettingsExactlyWhenLeftOver | controllers/slowlog_indices_watcher.go:53-57 | after a `start` other settings than the requested ones can be added if and only if the lock holder, or a contender for the free lock, was started with other settings |
| SlowLogWatcher.LeftOverIsReachable | controllers/slowlog_indices_watcher.go:53-77 | a run in which a goroutine of an earlier `start` is still a contender |
| BackgroundExecutor.StepKeepsInv | opensearch-dbaas-adapter/common/background.go:39-70 | accepted tasks are the executed ones, the one in hand and the queue, in order; at most five queued; the mutex holder is the only caller inside; closing happens once |
| BackgroundExecutor.Safety | opensearch-dbaas-adapter/common/background.go:30-70 | no run of a constructed executor sends on a closed channel or closes it twice, queues more than five, or executes out of order; a worker that left executed everything accepted |
| BackgroundExecutor.FullQueueDrains | opensearch-dbaas-adapter/common/background.go:39-45 | a send that finds the channel full while holding the mutex is unblocked by at most two steps of the worker |
| BackgroundExecutor.SendBlocksExactly | opensearch-dbaas-adapter/common/background.go:30-45 | a send blocks exactly while five tasks are queued |
| BackgroundExecutor.ClosedChannelPanics | opensearch-dbaas-adapter/common/background.go:42-54 | a send on a closed channel, or a second close, would go ahead and panic: what Safety excludes is not excluded by the guards |
| BackgroundExecutor.EveryCallCanReturn | opensearch-dbaas-adapter/common/background.go:39-56 | from every reachable state every pending call can be brought to its return |
| BackgroundExecutor.ShutdownDrains | opensearch-dbaas-adapter/common/background.go:47-70 | after closing nothing is accepted, and under every schedule the worker leaves after a fixed number of its steps, having executed all accepted tasks |
| BackgroundExecutor.ZeroValueDropsEverything | opensearch-dbaas-adapter/physical/physical.go:97 | no run of the zero value accepts or executes a task, closes its missing channel or panics |
| BackgroundExecutor.Executing.Submit | opensearch-dbaas-adapter/common/background.go:39-45 | is a run of the step system; appends the work to what is accepted exactly when active |
| BackgroundExecutor.Executing.Shutdown | opensearch-dbaas-adapter/common/background.go:49-56 | is a run of the step system; deactivates and keeps queued tasks |
| BackgroundExecutor.Executing.WorkUntilClosed | opensearch-dbaas-adapter/common/background.go:59-70 | the worker loop ends having executed all accepted tasks |
| RollingUpdate.AtMostOnePodDown | controllers/opensearch_reconciler.go:507-535 | the per-set invariant allows at most one pod of a set to be down |
| RollingUpdate.DownAcrossSets | controllers/opensearch_reconciler.go:457-481 | of two sets with a pod down, the earlier has only pod 0 down and counts as updated |
| RollingUpdate.DownTogetherExactly | controllers/opensearch_reconciler.go:457-481 | two sets have a pod down together if and only if the later one has and pod 0 of the earlier one is recreated and not ready |
| RollingUpdate.DownElsewhereExactly | controllers/opensearch_reconciler.go:464-470 | while a set is restarted, another set has a pod down if and only if pod 0 of an earlier set is recreated and not ready |
| RollingUpdate.ReportedIsComplete | controllers/opensearch_reconciler.go:464-470 | a set reported fully updated has only new pods, all ready but possibly pod 0; otherwise its recorded list can be continued |
| RollingUpdate.Operator.FindStatus | controllers/opensearch_reconciler.go:483-505 | the entry exists afterwards and is persisted if it was missing; nothing else changes |
| RollingUpdate.Operator.GetUpdatedReplicas | controllers/opensearch_reconciler.go:537-545 | an entry of another generation is reset and persisted, one of this generation is kept |
| RollingUpdate.Operator.DeletePod | controllers/opensearch_reconciler.go:518-522 | deletes the pod exactly if the request succeeds or was applied; a pod that is missing is an error and nothing changes |
| RollingUpdate.Operator.RestartReplica | controllers/opensearch_reconciler.go:516-532 | on success the pod is new, ready and recorded; on any failure or crash the invariant holds with one more deletion allowed |
| RollingUpdate.Operator.RecordReplica | controllers/opensearch_reconciler.go:527-531 | a ready pod is added to the list and persisted; on failure the list in the CR can still be continued |
| RollingUpdate.Operator.RestartPod | controllers/opensearch_reconciler.go:507-535 | continues a recorded list downwards; success leaves all pods new and ready, failure keeps the invariant |
| RollingUpdate.Operator.ClearList | controllers/opensearch_reconciler.go:472-478 | empties the list of a set and persists that, or does nothing when it is empty |
| RollingUpdate.Operator.RestartSet | controllers/opensearch_reconciler.go:458-479 | a set reported updated is not touched, another one is restarted; success completes it with an empty list |
| RollingUpdate.Operator.RestartPods | controllers/opensearch_reconciler.go:457-481 | success completes every set; failure keeps the invariant of every set, deletes no pod of a set reported updated, and at the set where it stops another set has a pod down exactly when pod 0 of an earlier one is starting |
| RollingUpdate.Operator.NeedToPerform | controllers/opensearch_reconciler.go:219-251 | an update is due exactly when all sets are OnDelete, a run is in progress or some set lags, and in the latter case the health check succeeds; its reply is what is returned, and in the other cases nothing is asked |
| RollingUpdate.Operator.ChangeAllocation | controllers/opensearch_reconciler.go:323-365 | success means the setting is in force; the request is recorded on every path, takes effect exactly if its first reply is good or was applied, and a failure of either of its two requests is a failure |
| RollingUpdate.Operator.EnableAllocationIfNecessary | controllers/opensearch_reconciler.go:367-384 | success means allocation is enabled; at most one enabling request is sent, and none when it is enabled already |
| RollingUpdate.Operator.Prepare | controllers/opensearch_reconciler.go:423-433 | unless a run is resumed, allocation is disabled, a flush follows and the status becomes running; a failure of any of these leaves the status as it was |
| RollingUpdate.Operator.Conclude | controllers/opensearch_reconciler.go:440-454 | allocation is enabled, the cluster becomes healthy and the status becomes done; a failure of enabling or of the wait leaves the status as it was |
| RollingUpdate.Operator.RunRollingUpdate | controllers/opensearch_reconciler.go:411-455 | every path without a crash sends, after the disabling request if any, exactly one enabling request last, and a crash in that request is a crash; success completes all sets with allocation enabled and status done |
| RollingUpdate.Operator.UpdateIfNeeded | controllers/opensearch_reconciler.go:138-160 | runs the update when it is due, else settles status and allocation; success leaves allocation enabled and status done, and every set complete if all are OnDelete |
| RollingUpdate.Operator.Reconcile | controllers/opensearch_reconciler.go:114-160 | an attempt ending in any way keeps the invariant, never deletes pods of a set already recreated, and if it succeeds met no fault and with a set present leaves allocation enabled and status done; a failed connection, reading of a set or health check ends it without touching allocation, lists or pods; the status becomes done only with every set complete; an undisturbed attempt succeeds; one that crashes at its first deletion leaves exactly that pod missing and the set entered in the CR |
| RollingUpdate.Operator.RunAttempts | controllers/opensearch_reconciler.go:457-545 | over any sequence of attempts in one generation: at most one pod of a set down, two sets have a pod down exactly when the later has and pod 0 of the earlier is starting, the list counts down from the highest ordinal, deletions at most replicas plus failed attempts, an undisturbed last attempt completes the update, and undisturbed attempts do not count as failed |
| RollingUpdate.TwoSetsDown | controllers/opensearch_reconciler.go:114-160 | two attempts, both crashing after a deletion, after which pods of two sets are down |
| JsonPointer.NameAddressesItselfExactly | opensearch-dbaas-adapter/basic/users_recovery.go:70-76 | a user name behind a slash addresses that user if and only if it has neither a slash nor a tilde |
| JsonPointer.EscapedNameIsAddressed | opensearch-dbaas-adapter/basic/users_recovery.go:70-76 | every name can be addressed if it is escaped first, as section 3 of RFC 6901 says |
| UsersRecovery.ChunksFlatten | opensearch-dbaas-adapter/basic/users_recovery.go:77-101 | the batches are consecutive slices that concatenate to all changes |
| UsersRecovery.Chunks | opensearch-dbaas-adapter/basic/users_recovery.go:77-84 | every batch but the last has a hundred changes, the last one at most that and at least one |
| UsersRecovery.ApplyAllIsOverride | opensearch-dbaas-adapter/basic/user.go:279-309 | applying changes one by one equals one override in which the last writer wins |
| UsersRecovery.LastWriterWins | opensearch-dbaas-adapter/basic/users_recovery.go:69-76 | for plain names the override holds exactly the listed users, each with the content of its last entry |
| UsersRecovery.AgreeAfterOverride | opensearch-dbaas-adapter/basic/users_recovery.go:86-94 | stores that differ only in users written by the changes become equal, so repeated or partial application does no harm |
| UsersRecovery.Adapter.PatchUsers | opensearch-dbaas-adapter/basic/user.go:279-309 | an empty patch succeeds without being sent; acceptance after partial applications equals one application; a refusal applies the first operations it names and leaves other users alone |
| UsersRecovery.Adapter.SendBatch | opensearch-dbaas-adapter/basic/users_recovery.go:86-94 | accepted exactly if one of the next three replies accepts; the attempts are one more than the refusals before it, and three when it fails |
| UsersRecovery.Adapter.SendAll | opensearch-dbaas-adapter/basic/users_recovery.go:77-101 | success means all batches were accepted in order and applied; failure names the proper prefix of batches accepted and leaves other users alone |
| UsersRecovery.Adapter.Recovery | opensearch-dbaas-adapter/basic/users_recovery.go:68-104 | done exactly if no batch meets three refusals in a row; done means the accepted batches are all batches in order and the store is the old one overridden by all changes; failed means a proper prefix of the batches was accepted and other users are untouched |
| UsersRecovery.RecoverRepeatedly | opensearch-dbaas-adapter/basic/users_recovery.go:68-104 | failed runs followed by one that ends in done leave the store of one clean run, for all user names; with plain names every listed user has its last content |
| RecoveryHandshake.RunKeepsInv | controllers/disaster_recovery_reconciler.go:339-380 | over every run the adapter's state tells what became of the latest trigger, passes count accepted batches, and the operator knows only what it read |
| RecoveryHandshake.DoneMeansRecovered | controllers/disaster_recovery_reconciler.go:344-380 | done is returned only if, at the last reading, a pass completed after the latest trigger with every batch accepted, and the user store was the one the pass began with overridden by all its changes; across adapter restarts, late handlers, partial refusals and operator crashes |
| RecoveryHandshake.DoneMeansUsersAreBack | opensearch-dbaas-adapter/basic/users_recovery.go:42-104 | then, for plain names, every listed user has the content of its last entry and every other user is as before the pass |
| RecoveryHandshake.DoneFollowsOwnTrigger | controllers/disaster_recovery_reconciler.go:344-366 | in an episode that did not start from running, that reading follows a trigger of the episode |
| RecoveryHandshake.QuietDoneExactly | controllers/disaster_recovery_reconciler.go:344-380 | an episode can end in done without a handler running in it if and only if the CR said running and the adapter was done or had a pass that can still complete |
| RecoveryHandshake.QuietDoneTakesALoss | controllers/disaster_recovery_reconciler.go:100-112 | such an episode follows only on a CR that said running from the start, or on an episode that crashed, lost its final write or failed to save |
| RecoveryHandshake.ReturnsExactly | controllers/disaster_recovery_reconciler.go:344-380 | done is returned exactly on reading done, failed exactly on reading failed or when the posts time out, running exactly when saving that state fails |
| RecoveryHandshake.FailedReadMeansAborted | opensearch-dbaas-adapter/basic/users_recovery.go:86-99 | failed is read only after a pass was given up since the latest trigger |
| RecoveryHandshake.AdapterIsOrderly | opensearch-dbaas-adapter/basic/users_recovery.go:42-104 | over every run the adapter says running from a trigger, done after a completed pass, failed after one given up and idle after a restart; passes do not overlap, and a pass is given up only after three refusals in a row |
| RecoveryHandshake.PostsAgainAfterMiss | controllers/disaster_recovery_reconciler.go:347-374 | an operator that waits without having read anything has posted and saved since its latest failed reading |
| RecoveryHandshake.LostPostsMayBeHandled | controllers/disaster_recovery_reconciler.go:349-362 | every post without an answer may be handled once, however late, and no other |
| RecoveryHandshake.NoStateNoPost | controllers/disaster_recovery_reconciler.go:339-343 | without a state in the CR the operator posts and reads nothing and returns done |
| RecoveryHandshake.EntersSkippedExactly | controllers/disaster_recovery_reconciler.go:339-343 | an episode is skipped exactly when the CR has no recovery state |
| RecoveryHandshake.PostsCanTimeOut | controllers/disaster_recovery_reconciler.go:349-362 | posts that are never answered end the episode in failed, and may still be handled afterwards |
| RecoveryHandshake.SaveCanFail | controllers/disaster_recovery_reconciler.go:363-365 | a failed save ends the episode at once with the recovery going on, the CR saying so exactly if the save was applied |
| RecoveryHandshake.ReadCanFail | controllers/disaster_recovery_reconciler.go:367-373 | after a failed reading the operator posts again if it has read nothing yet, else it waits and reads again |
| RecoveryHandshake.CrashCanHappen | controllers/disaster_recovery_reconciler.go:339-347 | after a crash anywhere the next episode resumes exactly if the CR says running, and the adapter went on meanwhile |
| RecoveryHandshake.PassCanFail | opensearch-dbaas-adapter/basic/users_recovery.go:86-99 | three refusals of a batch end a pass in failed, a restart of the adapter leaves it idle; neither undoes what was applied |
| RecoveryHandshake.CrAfterEpisode | controllers/disaster_recovery_reconciler.go:100-112 | the CR says what was written last: after an episode left with its final write, what the episode returned; running outside an episode means a first value, a crash, a lost write or a failed save |
| RecoveryHandshake.LeftOverDoneIsReachable | controllers/disaster_recovery_reconciler.go:101-112 | a finished episode whose final write of the CR is lost leaves the CR running and the adapter done, and the next episode then ends in done without a handler of its own |
| ReplicationCheck.UpdateInProgress | controllers/replication_manager.go:370-385 | fails exactly if a reading fails; the rest is empty exactly if every index reached its checkpoint |
| ReplicationCheck.ReadFirst | controllers/replication_manager.go:293-325 | passes exactly if every matching index is readable and replicating; reports exactly the failed ones |
| ReplicationCheck.AwaitProgress | controllers/replication_manager.go:327-342 | succeeds exactly if one of at most five rounds confirms all lagging indices together with no failed reading up to it |
| ReplicationCheck.ExecuteReplicationCheck | controllers/replication_manager.go:293-343 | the exact condition of success, of failed indices and of running out of attempts |
| ReplicationCheck.FailuresExactly | controllers/replication_manager.go:307-325 | the indices reported as failed are exactly the matching ones read with any status but SYNCING and BOOTSTRAPPING |
| ReplicationCheck.ConfirmsExactly | controllers/replication_manager.go:312-342 | a round confirms exactly when in it every matching index that lagged at first has reached the leader checkpoint of its own first reading |
| ReplicationCheck.SuccessCoversEveryIndex | controllers/replication_manager.go:293-343 | on success every matching index was replicating, and did not lag or was read at or beyond its first leader checkpoint in the one confirming round |
| RestoreRenaming.RenameBackExactly | opensearch-curator/docker/backup-docker/scripts/restore.py:212-213 | renaming there and back gives the same name if and only if the new prefix, put in place of the first old one, makes no earlier occurrence of itself, or the name has neither prefix |
| RestoreRenaming.RenameBackHitsAnotherPlace | opensearch-curator/docker/backup-docker/scripts/restore.py:212-213 | a name that does not come back |
| RestoreRenaming.RenamePrefixed | opensearch-curator/docker/backup-docker/scripts/restore.py:212-213 | of a name that starts with the prefix only the prefix changes |
| RestoreRenaming.PlainNamesRoundTrip | opensearch-curator/docker/backup-docker/scripts/restore.py:212-213 | a name that starts with the old prefix, or contains neither prefix, survives |
| RestoreRenaming.NoneLostExactly | opensearch-curator/docker/backup-docker/scripts/restore.py:255-260 | a renamed alias dictionary has as many entries as before if and only if the new names are distinct, and then each alias is kept under its new name, in place |
| RestoreRenaming.PutInPlace | opensearch-curator/docker/backup-docker/scripts/restore.py:255-260 | an alias put under a name that is taken replaces the entry there and keeps its place |
| RestoreRenaming.LastAliasKept | opensearch-curator/docker/backup-docker/scripts/restore.py:255-260 | the renamed dictionary holds exactly the aliases whose new name no later one gets |
| RestoreRenaming.AliasesBackExactly | opensearch-curator/docker/backup-docker/scripts/restore.py:255-260 | an alias dictionary comes back unchanged if and only if every alias name does, and then loses none |
| TemplateRenaming.RenameIndexAliases | opensearch-curator/docker/backup-docker/scripts/restore.py:255-260 | the loop fills the renamed dictionary; a missing one counts as empty |
| TemplateRenaming.Template.RenameTemplate | opensearch-curator/docker/backup-docker/scripts/restore.py:223-253 | in place: name, index patterns, components and aliases of the settings in use are renamed and nothing else |
| TemplateRenaming.RenamesOnlyWhereItLooks | opensearch-curator/docker/backup-docker/scripts/restore.py:223-253 | nonempty settings under the key are renamed and the own ones kept; otherwise the other way round |
| TemplateRenaming.RenamesAliasesWhereTheyAre | opensearch-curator/docker/backup-docker/scripts/restore.py:223-253 | the aliases of a nonempty section are renamed there, else those of the settings; an empty section counts as missing, and a missing alias map becomes empty |
| TemplateRenaming.TemplateBackExactly | opensearch-curator/docker/backup-docker/scripts/restore.py:223-253 | there and back is the identity, up to an added empty alias map, if and only if every name in the template survives; no alias is lost then |
| TemplateRenaming.MentionsExactly | opensearch-curator/docker/backup-docker/scripts/restore.py:223-253 | a renamed template mentions exactly the renamed names |
| TemplateRenaming.PlainTemplatesRoundTrip | opensearch-curator/docker/backup-docker/scripts/restore.py:223-253 | templates whose names start with the old prefix or contain neither prefix survive |
| TemplateRestore.RestoreTemplates | opensearch-curator/docker/backup-docker/scripts/restore.py:152-190 | puts, database by database, the templates selected on recorded names, each renamed in place by every database it belongs to |
| TemplateRestore.PutExactly | opensearch-curator/docker/backup-docker/scripts/restore.py:157-190 | what is put are exactly the recorded templates of the requested databases, with those renamings |
| TemplateRestore.PutInOrder | opensearch-curator/docker/backup-docker/scripts/restore.py:157-190 | the templates are put database by database, those of one database in their recorded order |
| TemplateRestore.NoneOverwrittenExactly | opensearch-curator/docker/backup-docker/scripts/restore.py:152-190 | for prefix-free databases no two templates recorded under different names are put under one, whatever was recorded, if and only if no target prefix is a prefix of another |
| TemplateRestore.ImageNames | opensearch-curator/docker/backup-docker/scripts/restore.py:223-253 | name and references of a template are carried along by the same renamings |
| TemplateRestore.ReferencesResolveExactly | opensearch-curator/docker/backup-docker/scripts/restore.py:152-190 | every reference of every template put names a component put, if and only if for every reference of a requested template some requested component gets the name that the reference gets; for all databases, nested prefixes included |
| TemplateRestore.OwnReferencesResolve | opensearch-curator/docker/backup-docker/scripts/restore.py:238-244 | references to recorded components of the same databases always resolve |
| TemplateRestore.ReferenceFollowsExactly | opensearch-curator/docker/backup-docker/scripts/restore.py:238-244 | for prefix-free databases, the exact condition under which a reference in a template of one database follows a component of another |
| TemplateRestore.ForeignReferenceDangles | opensearch-curator/docker/backup-docker/scripts/restore.py:152-190 | a restore that puts a template with a dangling reference |
| GranularRestore.GranularRestore | opensearch-curator/docker/backup-docker/scripts/restore.py:58-115 | issues the planned effects, or fails; what is planned and in which order is stated by RefusedExactly, KeysInOrder, EffectsInOrder, PartsInOrder and AliasesInOrder |
| GranularRestore.RefusedExactly | opensearch-curator/docker/backup-docker/scripts/restore.py:58-84 | refused exactly when databases were recorded and a requested one is not among them; recorded databases without an index list restore nothing |
| GranularRestore.KeysInOrder | opensearch-curator/docker/backup-docker/scripts/restore.py:76-80 | the databases are taken once each, in the order in which they are first requested |
| GranularRestore.EffectsInOrder | opensearch-curator/docker/backup-docker/scripts/restore.py:86-113 | renamed databases are restored first, then all others in one request, then aliases are put |
| GranularRestore.PartsInOrder | opensearch-curator/docker/backup-docker/scripts/restore.py:86-95 | the renamed databases are restored, and the indices of the others listed, in the order of the databases |
| GranularRestore.AliasesInOrder | opensearch-curator/docker/backup-docker/scripts/restore.py:97-113 | aliases are put database by database, index by index |
| GranularRestore.TimesExactly | opensearch-curator/docker/backup-docker/scripts/restore.py:73-95 | if every renamed database has a recorded index, an index is restored once per requested database it belongs to |
| GranularRestore.RestoresOnceExactly | opensearch-curator/docker/backup-docker/scripts/restore.py:73-95 | recorded indices of the requested databases are restored exactly once and others never, for all usable backups, if and only if no database is a prefix of another |
| GranularRestore.SnapshotRestoredExactly | opensearch-curator/docker/backup-docker/scripts/restore.py:86-138 | the whole snapshot is restored if and only if some renamed database has no recorded index |
| GranularRestore.EmptyDatabaseRestoresSnapshot | opensearch-curator/docker/backup-docker/scripts/restore.py:86-138 | a request whose plan is to restore the whole snapshot |
| RestoredNames.RestoredAsExactly | opensearch-curator/docker/backup-docker/scripts/restore.py:122-150 | an index is restored under a name if and only if it is recorded, belongs to a requested database, and the name has that database's prefix replaced |
| RestoredNames.CollisionFreeExactly | opensearch-curator/docker/backup-docker/scripts/restore.py:86-95 | for prefix-free databases no two indices get one name, for all usable backups, if and only if no target prefix is a prefix of another |
| RestoredNames.AliasNamesRestoredIndex | opensearch-curator/docker/backup-docker/scripts/restore.py:97-113 | every alias is put on an index that this restore brought back |
| RestoredNames.AliasComesAfterItsIndex | opensearch-curator/docker/backup-docker/scripts/restore.py:86-113 | and that index was restored by an effect before it |
| RestoredNames.OwnNamesRestoredExactly | opensearch-curator/docker/backup-docker/scripts/restore.py:73-95 | for a backup with neither databases nor indices recorded, exactly the indices named like the requested databases are restored, each under the new name of its database |
| RestoredNames.AliasPutExactly | opensearch-curator/docker/backup-docker/scripts/restore.py:97-113 | an alias is put if and only if it is a recorded one of a requested index, renamed like its index, and no later alias of that index gets its name |
| RestoredNames.RecordedAliasIsPut | opensearch-curator/docker/backup-docker/scripts/restore.py:97-113 | every recorded alias of a requested index is put back, renamed like its index, unless a later alias of that index gets its name |
| RestoredNames.AliasIsLost | opensearch-curator/docker/backup-docker/scripts/restore.py:255-260 | a backup of which an alias is not put back |
| SlowLogScan.ScanTerminatesExactly | monitoring/exec-scripts/slow_queries_metric.py:132-144 | the scan ends if and only if the element does not end with an opening bracket |
| SlowLogScan.ExtractValues | monitoring/exec-scripts/slow_queries_metric.py:132-144 | the loop returns the bracketed texts in order, each without a final " hits", or the element itself |
| SlowLogScan.TextBetween | monitoring/exec-scripts/slow_queries_metric.py:137-139 | the text in closed brackets is what stands between them |
| SlowLogScan.UnclosedText | monitoring/exec-scripts/slow_queries_metric.py:132-144 | after a bracket that is never closed the text is the rest of the element without its last character |
| SlowLogSplit.SplitJoin | monitoring/exec-scripts/slow_queries_metric.py:103-148 | splitting a joined list gives it back when no element contains the separator |
| SlowLogSplit.SplitCount | monitoring/exec-scripts/slow_queries_metric.py:147-149 | splitting gives one part more than there are separators |
| SlowLogSplit.StripExactly | monitoring/exec-scripts/slow_queries_metric.py:147-149 | stripping takes commas and blanks off both ends, and all of them |
| SlowLogRoundTrip.ConvertRecord | monitoring/exec-scripts/slow_queries_metric.py:147-156 | skips a line exactly if it does not have ten separators, never ends exactly if an element ends with an opening bracket, raises exactly if the elements do not give thirteen values, and otherwise converts |
| SlowLogRoundTrip.RoundTripExactly | monitoring/exec-scripts/slow_queries_metric.py:103-156 | converting the printed record gives it back if and only if the stated condition on its fields holds |
| SlowLogRoundTrip.PrintedOutcomeExactly | monitoring/exec-scripts/slow_queries_metric.py:103-156 | which of the four outcomes a printed record has, in terms of its fields |
| SlowLogRoundTrip.OutcomesHappen | monitoring/exec-scripts/slow_queries_metric.py:85-156 | for each outcome a line that has it |
| SlowLogRoundTrip.OpenTimeDiverges | monitoring/exec-scripts/slow_queries_metric.py:132-156 | a printed record without inner separators whose time ends with an opening bracket is never converted |
| SlowLogRoundTrip.EndlessLine | monitoring/exec-scripts/slow_queries_metric.py:132-156 | a line on which the conversion does not end |
| SlowLogFilter.FilterRecords | monitoring/exec-scripts/slow_queries_metric.py:159-173 | fails exactly if a retained time is no number; otherwise the head of the sorted retained records |
| SlowLogFilter.RetainedExactly | monitoring/exec-scripts/slow_queries_metric.py:168-172 | one record per key that occurs: the first with the greatest time string of its key |
| SlowLogFilter.SortIsStable | monitoring/exec-scripts/slow_queries_metric.py:173 | the descending sort keeps the order of equal times |
| SlowLogFilter.FilterSelects | monitoring/exec-scripts/slow_queries_metric.py:159-173 | as many records as asked for or as there are keys, one per key, descending, and nothing left out is slower than anything returned |
| SlowLogFilter.HeadSize | monitoring/exec-scripts/slow_queries_metric.py:173 | the head is the beginning of the list: as many as asked for, or all but as many as a negative number says |
| SlowLogFilter.EqualDigitsCompareAlike | monitoring/exec-scripts/slow_queries_metric.py:171 | for equally many digits the string order is the numeric order |
| SlowLogFilter.SlowestExactly | monitoring/exec-scripts/slow_queries_metric.py:168-172 | for times without leading zeros, the retained record is the slowest of its key if and only if no time string of the key is longer than its own |
| SlowLogFilter.RetainedIsSlowest | monitoring/exec-scripts/slow_queries_metric.py:168-172 | for digit strings of one length, leading zeros included, the retained record is the slowest |
| SlowLogFilter.FasterRecordKept | monitoring/exec-scripts/slow_queries_metric.py:168-172 | of two records of one key with times "9" and "10" the first is retained |
| SlowLogFilter.SharedKeyExactly | monitoring/exec-scripts/slow_queries_metric.py:170 | two records share a key if and only if index and query are the same or the longer index continues the shorter one by an underscore and a start of the other query |
| SlowLogFilter.EveryQueryKeptExactly | monitoring/exec-scripts/slow_queries_metric.py:168-172 | every index and query keeps a record of its own if and only if no two share a key that way |
| SlowLogFilter.TwoQueriesOneRecord | monitoring/exec-scripts/slow_queries_metric.py:168-172 | two different queries of which one is dropped |
| HashPropagation.Operator.ReconcileComponent | controllers/curator_reconciler.go:41-62 | one component: read its hashes, annotate if a known hash changed, then remember them |
| HashPropagation.Operator.Reconcile | controllers/opensearchservice_controller.go:125-172 | one cycle: all components, readiness and configuration, and the known hash last |
| HashPropagation.ComponentRemembers | controllers/monitoring_reconciler.go:55-96 | a component that succeeds remembers all its hashes and passes on those it watches when it annotates |
| HashPropagation.KnownMovesOnlyOnSuccess | controllers/opensearchservice_controller.go:125-171 | a failed cycle keeps the known hash, a successful one learns the current hash |
| HashPropagation.CycleSucceedsExactly | controllers/opensearchservice_controller.go:125-171 | a cycle succeeds exactly when the secret and all hashes can be read, every deployment that must be annotated can be updated, the service becomes ready and configuring it succeeds |
| HashPropagation.FailureStops | controllers/opensearchservice_controller.go:133-138 | a component that fails keeps the cycle from the deployments of the components behind it |
| HashPropagation.RefusedUpdateEffect | controllers/curator_reconciler.go:48-60 | a refused update keeps all known hashes and annotates the deployment exactly if it was applied all the same |
| HashPropagation.CommitMeansAnnotated | controllers/opensearchservice_controller.go:125-171 | when the known hash moves from a nonempty value to another, every component switched on was annotated with the new one in that cycle |
| HashPropagation.CurrentExactly | controllers/monitoring_reconciler.go:61-73 | after a successful cycle a deployment carries the current hash if and only if a known hash of its component had changed or it carried that hash before |
| HashPropagation.AnnotationAccountedFor | controllers/opensearchservice_controller.go:125-171 | over any sequence of failing and succeeding cycles a deployment carries its first hash, the known one, or one seen by a cycle since which the known hash has not moved |
| HashPropagation.StaleOnlyAfterReversal | controllers/opensearchservice_controller.go:125-171 | once a hash is known: if after a successful cycle a deployment carries neither the current hash nor its first one, an earlier cycle saw the hash it carries while the known hash was the current one |
| HashPropagation.ReversalLeavesStaleAnnotation | controllers/curator_reconciler.go:48-60 | a refused update followed by a reversal of the secret leaves an abandoned hash after a successful cycle |
| HashPropagation.UnknownHashLeavesStaleAnnotation | controllers/curator_reconciler.go:41-62 | while no hash is known, a failed cycle alone leaves an abandoned hash after the next successful one |
| DatabaseLifecycle.Provider.CheckPrefixUniqueness | opensearch-dbaas-adapter/common/common.go:243-271 | passes exactly if the listing is not found or has another status, or answers and no user name or prefix attribute starts with the prefix |
| DatabaseLifecycle.TakenExactly | opensearch-dbaas-adapter/common/common.go:256-266 | a prefix is taken exactly if the name of a user, or the nonempty prefix attribute of one, starts with it |
| DatabaseLifecycle.PrefixOfExactly | opensearch-dbaas-adapter/basic/basic.go:303-324 | the prefix is the requested one, else the derived one, and acceptable exactly if it neither starts with a dot nor has a star |
| DatabaseLifecycle.CreatesUsersByDefault | opensearch-dbaas-adapter/basic/basic.go:342-348 | a request that does not say what to create gets four users and no index |
| DatabaseLifecycle.Provider.CreateUsers | opensearch-dbaas-adapter/basic/basic.go:385-398 | one user per role type, named after the prefix, exactly when all eight requests succeed; a failure leaves users outside the prefix alone |
| DatabaseLifecycle.OneUserPerRole | opensearch-dbaas-adapter/basic/role.go:70-72 | the four users have the four role types, each once |
| DatabaseLifecycle.Provider.CreateDatabase | opensearch-dbaas-adapter/basic/basic.go:280-433 | refused without change when the prefix is missing, forbidden or taken; created exactly when the request is accepted, all requests for users succeed and those for indices and metadata are answered, and then the store has exactly the users of the connections added and the answer lists the prefix, these users, the index if one was asked for, and last the metadata under the name of the index or else the prefix; answered with nothing exactly when only the metadata stays without an answer and deleting the new index gets one, and then the users stay |
| DatabaseLifecycle.Provider.CreateAll | opensearch-dbaas-adapter/basic/basic.go:347-433 | the part after the checks, with the same exact conditions on the replies |
| DatabaseLifecycle.Provider.WriteMetadata | opensearch-dbaas-adapter/basic/basic.go:403-418 | the three answers, by the replies to writing the metadata, if there is any, and to deleting the index; a created database lists its prefix and the users of its connections |
| DatabaseLifecycle.CreateWithoutMetadata | opensearch-dbaas-adapter/basic/basic.go:407-416 | a script of replies on which creation answers with nothing and the users stay |
| DatabaseLifecycle.CreatedDespiteErrors | opensearch-dbaas-adapter/basic/basic.go:442-457 | a database is created although index and metadata were refused with an error status |
| DatabaseLifecycle.Provider.ExpandPrefixes | opensearch-dbaas-adapter/basic/basic.go:795-830 | each prefix adds its five patterns and existing users that start with it, all of them when the listing answers |
| DatabaseLifecycle.PatternsCoverPrefix | opensearch-dbaas-adapter/basic/basic.go:795-830 | of each kind deleted by pattern the expansion of a prefix covers exactly the names that start with it; the metadata document is the prefix itself |
| DatabaseLifecycle.Provider.DeleteResource | opensearch-dbaas-adapter/basic/basic.go:843-939 | removes at most the named user; for every kind, exactly when it is reported deleted: for a user, when the lookup succeeds and the user is absent or its deletion is answered, for metadata also when the lookup is answered with an error status; a user is reported deleted and still there exactly when the user was found and the deletion was answered with an error status and not applied |
| DatabaseLifecycle.RefusedDeletionReported | opensearch-dbaas-adapter/basic/user.go:364-375 | a user reported deleted that stays |
| DatabaseLifecycle.Provider.DeleteResources | opensearch-dbaas-adapter/basic/basic.go:769-793 | the report is the expanded request grouped by the six kinds in order, each group stable; only users named there are removed, and without an answer of error status every user reported deleted is gone |
| DatabaseLifecycle.GroupedKeepsAll | opensearch-dbaas-adapter/basic/basic.go:769-793 | grouping loses no entry of a deletable kind and adds none |
| DatabaseLifecycle.Drop | opensearch-dbaas-adapter/basic/basic.go:769-841 | without failures exactly the users named or starting with a requested prefix are removed |
| DatabaseLifecycle.CreateThenDrop | opensearch-dbaas-adapter/basic/basic.go:336-417 | creating and dropping what was returned restores exactly the earlier users |
| DatabaseLifecycle.CreateUncheckedThenDrop | opensearch-dbaas-adapter/common/common.go:243-271 | when the listing of the check is answered with another status than 200, creation goes ahead and an earlier user whose name starts with the prefix goes with the database |
| DatabaseLifecycle.DropSparesEarlierUsers | opensearch-dbaas-adapter/common/common.go:243-271 | a user that existed when the prefix passed the check survives every later drop of it, whatever changed or failed since |
| DatabaseLifecycle.CheckIsOneSided | opensearch-dbaas-adapter/common/common.go:256-266 | a longer prefix passes after a shorter one and its users go with the shorter; the other order is refused |
| DatabaseLifecycle.RecoveredAsCreated | opensearch-dbaas-adapter/basic/users_recovery.go:106-119 | recovery from the connection properties of a created user stores the content that creation stored |
| DatabaseLifecycle.FirstVersionRecoveredAsCreated | opensearch-dbaas-adapter/basic/users_recovery.go:106-119 | properties without a role, or without a prefix, fall back on what the first interface version stores: the admin role and the name |
| RoleMerge.MergeBackendRoles | controllers/opensearch_reconciler.go:898-917 | the three loops compute the merge |
| RoleMerge.MergeExactly | controllers/opensearch_reconciler.go:898-917 | the result holds exactly the server's roles without the withdrawn ones, and the new ones |
| RoleMerge.MergeKeepsOrder | controllers/opensearch_reconciler.go:898-917 | the server's order is kept, and no role is repeated that was not repeated there |
| RoleMerge.NewRolesInOrder | controllers/opensearch_reconciler.go:898-917 | the roles that are appended come in the order in which the new secret first names them |
| RoleMerge.MergeAgain | controllers/opensearch_reconciler.go:898-917 | merging again with the same lists, or with the new list as the old one, changes nothing |

## Left out

- HTTP, TLS, JSON and Kubernetes client code: thin wrappers over libraries; their outcomes are inputs here.
- Real time: sleeps, poll intervals and timeouts are outcomes of requests; only numbers of attempts are kept.
- `checkReplication` and `restartReplication` of the watcher: their list building is easy and their result is a free outcome.
- `isReplicationCheckNeeded` and the standby branch of `Configure`: single decisions; an outcome of the switchover section here.
- Restarts only with allocation disabled: not claimed, since a resumed run skips the disabling step.
- Changes of generation between attempts of a rolling update: one generation is considered.
- Paths of several tokens in a user patch: a user name with a slash addresses a place inside another user's entry; the model keeps such entries as they are.
- RecoveryHandshake.DoneMeansRecovered: speaks of a loop entered with a nonempty recovery state; with an empty one the function answers done without any pass.
- DatabaseLifecycle.Provider.DeleteResource: what exists is tracked for users only; for the other kinds a lookup that succeeds is followed by a deletion.
- TemplateRenaming.Template.RenameTemplate: requires a nonempty prefix, as the backup daemon does.
- Deleting before a restore and closing of indices: effects without further logic. A restore without databases puts every template as it is.
- TemplateRestore.ReferenceFollowsExactly: for prefix-free databases; with nested ones the renamings of several databases compose and the condition is that of ReferencesResolveExactly.
- Full backup and restore, and the curator library's index filter: the recorded lists are inputs.
- Metric lines and the copying of log files in the monitoring script: formatting and plumbing.
- The first interface version of the adapter, and names of indices, templates and aliases removed by pattern: users are the store that is modelled.
- The operator's other reconcilers beyond their hashes, physical registration, ISM filter plugin, Helm charts and generated code.
