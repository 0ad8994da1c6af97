# A verified model of the datarestor operator

The operator backs up and restores Kubernetes volumes with restic. A `Config` names repositories and selects
PersistentVolumeClaims; its reconciler aligns and initializes the repositories, turns annotations and cron schedules
into `Task` objects, and restores new claims by itself. A `Task` scales down the workloads that use its claim, records
their replica counts in an annotation, runs one restic job, scales the workloads up again and lets go of its finalizer.

The model has three parts.

* **The Task reconciler as a step system.** `Cluster` is the part of the cluster it reads and writes; `Workloads`
  finds, scales and restores workloads; `TaskReconciler` is the stage chain, proved to compute the table `TaskPass` of
  `TaskTable`. `TaskRuns` interleaves passes over any number of tasks with everything users, pods, jobs and the Config
  reconciler can do in between, each API call of a pass accepted or refused. Over all these runs `TaskAccounts` and
  `TaskConservation` prove when replica counts are conserved and `TaskOverlap` what two tasks over one workload do to
  them, `TaskWindow` that work happens only while the recorded workloads are down and which workloads get on record,
  and `TaskProgress` the life cycle: states, finalizer, termination, one job. `TaskResults` says what each stage waits
  for and that the job decides the result. `TaskWitnesses` has concrete inputs for the failing sides.
* **The Config reconciler as a draining scheduler.** `ConfigReconciler` is the stage chain, proved to compute the
  table `ConfigPass` of `ConfigTable`, with `PvcSelection`, `RepositoryStatus`, `Annotations` and `Schedule` below it.
  `ConfigDrain` proves that all pending work drains; `ManualRequests` that each trigger is answered once;
  `RequestedTasks` what each task is told to do; `ConfigRuns` that no claim is restored automatically twice by however
  many configs; `ScheduledRuns` bounds scheduled backups and forgets by cron firings.
* **The restic annotation language** `repo|host|name` in `ResticArgs`: its readers are compared with one another, and
  backup with restore.

A reconcile pass takes a record of what the API server, restic and the clock answer during that pass (`Faults`,
`Answers`). A pass that dies half way is one whose later writes are refused.

Hypotheses that conservation, single restores and run bounds need are stated as predicates on the events of a run.
Beside the main results stands what they are worth:

* Replica counts. `Accounts` is exact for every event and every run, by `ConservesExactly` and `RunConservesExactly`,
  without any hypothesis: it asks of each pass that every count it displaces is kept by another task or lost already.
  A count is lost only when the last task that remembers it leaves the store while the workload is away from it
  (`LastKeeper`, `LostLeftTheStore`); in `OutdatedRecordExcusesNothing` a task leaves and nothing is lost. `Careful`
  says what is enough to be sure beforehand: what a task at work has on record is left to it (`Considerate`), a
  scale-down is stored, and a scale-up forgets nothing; what a failed task has on record binds nobody. The exact
  conditions on the two passes are in `ScaleDownConservesExactly` and `ScaleUpConservesExactly`; where tasks do share
  a workload its count survives exactly if the right task scales up last, by `OverlapKeepsCountExactly`.
* `Orderly` (recorded workloads are down) is `Considerate` with complete scale-downs and backed starts:
  `ScaleDownIsSafeExactly` and `StartIsSafeExactly` are exact; `RefusedScaleDownStartsEarly` follows a refused status
  write to its end.
* `JobsOutlastStarting` (one job), `KeepsMarks` (one automatic restore) and `KeepsTarget` (bounded scheduled runs): what
  each of their parts excludes leads to what they prevent. `VanishedJobIsCreatedAgain` is about a job that vanishes;
  `RefusedMarkRestoresAgain` and `RemovedMarkRestoresAgain` about a mark that is refused, and one that a user removes;
  `RefusedStampBreaksTheBound`, `RepeatedTargetBreaksTheBound` and `ReaddedTargetBreaksTheBound` about a stamp that is
  refused, a target that the spec repeats, and one that leaves the spec and comes back. The schedule of the target has
  to stay as well, since the bound counts its firings.

Where the operator's documentation and its code differ, the model follows the code:

* README.md:51-63 restores by the bare name of a backup. The code takes a name without a pipe for a snapshot id
  (internal/restic/helper.go:113-135). `SameAnnotationFindsExactly` says which annotations do find their backup.
* README.md:65 lets an empty annotation stand for the latest snapshot. An empty annotation triggers nothing
  (internal/controller/config/pvc_handler.go:83-86).
* The comment at internal/restic/helper.go:63-66 says that `SelectRepository` follows the same rules as the `--repo`
  argument. `RepositoryReadingsAgree` says exactly when it does, and `NumberedTargetIsMisread` shows where it does not.
* api/v1alpha1/config_types.go:172 asks for at least one repository, but with a marker that does not reach the
  definition of the resource. A config with an empty list is modelled; `CrashesExactly` says when a pass over it panics.
* A stage that assigns `Failed` and returns an error stores nothing (internal/controller/reconiler/util.go:12-14), so a
  stored `Failed` comes from Running only; `PassSound` and `StateMovesAlongEdges` say so.
* `InNamespace` list options replace one another, so only the last namespace of a selector is listed
  (internal/controller/utils/pvc.go:26-30), while every listed name wakes a config up.
* A task set to `Pending` when it is built loses that on create, because status is a subresource
  (api/v1alpha1/task_types.go:106); tasks start without a state or as `Pending`.

## Model

| member | source | states |
|---|---|---|
| Reconciling.Step | internal/controller/reconiler/util.go:11-27 | a stage's answer passes on exactly when it asks for nothing and has no error; it ends in an error exactly when it has one or its write is refused |
| Workloads.FindScalableWorkload | internal/controller/utils/workload.go:183-215 | the owner is a StatefulSet and the workload has its name, or it is a ReplicaSet whose owner is the Deployment of the workload's name; an owner that cannot be read is an error, one that is gone is none |
| Workloads.MountingPods | internal/controller/utils/workload.go:69-95 | exactly the pods of the claim's namespace with a volume for the claim |
| Workloads.FindWorkloadsForPVC | internal/controller/utils/workload.go:69-115 | every scalable owner of a pod that mounts the claim, each exactly once, and nothing else; an error exactly when pods cannot be listed |
| Workloads.FoundExactly | internal/controller/utils/workload.go:69-215 | a workload is found if and only if a pod of the claim's namespace has a volume for the claim and an owner that can be read, and this is the StatefulSet of the workload's name, or a ReplicaSet whose owner is the Deployment of that name |
| TaskWitnesses.DeploymentIsScaledDown | internal/controller/utils/workload.go:196-212 | the pod `web-1-a` of ReplicaSet `web-1` leads to Deployment `web`; the one replica it has without saying so is recorded and taken to zero |
| Workloads.OriginalsAre | internal/controller/utils/workload.go:124-136 | the record has one entry per workload, with its desired count, or 1 where that is left out, and no other entry |
| Workloads.GetOriginalReplicasInfo | internal/controller/utils/workload.go:124-136 | the loop computes that record |
| Workloads.ScaleWorkloadsTo | internal/controller/utils/workload.go:118-121 | sets the count of exactly the listed workloads whose patch is accepted |
| Workloads.ScaleDownWorkloadsForPVC | internal/controller/utils/workload.go:274-297 | records the counts found before scaling, then scales what was found; scales nothing if the record is refused |
| Workloads.IsScaleDownCompleteForPVC | internal/controller/utils/workload.go:339-351 | complete exactly when no workload found reports a ready replica |
| Workloads.RestoreReplicas | internal/controller/utils/workload.go:299-328 | in whatever order the record is read, exactly the recorded workloads that are still the same objects and take their patch get their recorded count |
| Workloads.RecordLeadsBack | internal/controller/utils/workload.go:124-336 | the record of a scale-down leads a scale-up back to exactly the workloads that were found, by kind, name and UID, with the counts they had, except those it cannot read or patch |
| Workloads.NamesakeIsLeftAlone | internal/controller/utils/workload.go:299-328 | a workload that took another's name since is not restored in its place |
| Workloads.ScaleUpWorkloadsForPVC | internal/controller/utils/workload.go:299-336 | restores those counts and then drops the record, whether or not a patch was refused; keeps the record if its removal is refused; does nothing to a record it cannot decode |
| Workloads.IsScaleUpCompleteForPVC | internal/controller/utils/workload.go:354-377 | complete at once without a record, else exactly when every found and recorded workload is ready; an error when record or pods cannot be read |
| TaskReconciler.RemoveFinalizerIfFinished | internal/controller/reconiler/delete.go:32-49 | only a finished task loses the operator's finalizer, and the object with it if it is being deleted and has no other |
| TaskReconciler.CheckDeleteResource | internal/controller/reconiler/delete.go:13-30 | ends the pass exactly for a task that is being deleted without the finalizer |
| TaskReconciler.AddFinalizerIfNew | internal/controller/reconiler/init.go:14-29 | an uninitialized task gets the finalizer before anything else |
| TaskReconciler.Init | internal/controller/task/init.go:13-30 | an uninitialized task becomes initialized and ScalingDown |
| TaskReconciler.CheckTaskScaleDown | internal/controller/task/task_utils.go:36-88 | the in-place stage computes the ScalingDown row of the table, with every refusal |
| TaskReconciler.GetJobFromTask | internal/controller/task/util.go:41-60 | looks up the referenced job, or the one named after the task if the reference is empty |
| TaskReconciler.Start | internal/controller/task/task_start.go:16-81 | computes the Starting row: adopts an existing job, creates one otherwise, fails without a parsable template |
| TaskReconciler.JobToTaskStatus | internal/controller/task/util.go:62-88 | a success takes the task to ScalingUp, a failure without one to Failed, activity alone to Running; the logs become the output once the job has ended, unless there is one already |
| TaskReconciler.UpdateTaskStatus | internal/controller/task/task_status.go:12-38 | computes the Running row: a vanished job fails the task |
| TaskReconciler.CheckTaskScaleUp | internal/controller/task/task_utils.go:90-142 | computes the ScalingUp row of the table, with every refusal |
| TaskReconciler.Reconcile | internal/controller/task_controller.go:40-132 | the whole pass over a stored or missing task takes the cluster exactly to the state `Enact` makes of `TaskPass`, from which runs go on, whatever the API server refuses |
| TaskRuns.PassSound | internal/controller/task_controller.go:74-131 | a pass keeps the task well formed, moves its state along at most one edge, stores no status when it ends in an error, scales only workloads on its record, and removes only finished or uninitialized tasks |
| TaskRuns.RunKeepsTasksOk | internal/controller/task_controller.go:65-99 | over every run each stored task is well formed; initialized and unfinished ones hold the finalizer |
| TaskAccounts.ConservesExactly | internal/controller/utils/workload.go:274-336 | whatever is on record, an event conserves all counts if and only if it is no pass that displaces the last keeper of one: every workload a scale-down finds or drops is at its count or kept by others, every one a scale-up restores gets its count or a zero that others make up for, and every one it misses may be forgotten |
| TaskAccounts.RunConservesExactly | internal/controller/utils/workload.go:274-336 | over every run, whoever overlaps and whatever fails, the counts are conserved all along if and only if every event meets that condition |
| TaskConservation.ReplicaCountsAreConserved | internal/controller/utils/workload.go:274-336 | over every careful run each workload is at the count its user chose, or at zero with that very count on the record of a task that is at work or failed, or of a Failed task that left the store with it; users and later tasks may scale what a failed task has on record |
| TaskConservation.LostLeftTheStore | internal/controller/task/util.go:62-88 | over every run, what counts as lost is the count its user still wants, which a Failed task had on record when it left the store |
| TaskWitnesses.OutdatedRecordExcusesNothing | internal/controller/utils/workload.go:299-336 | when a failed task with an outdated record is deleted nothing is lost, and a second task that then drops the right record without its patch forgets the count |
| TaskConservation.RestoredBeforeCompleted | internal/controller/task/task_utils.go:90-142 | over every careful run in which its scale-ups miss nothing, a task that had a workload on record and is Completed later was seen in between with the workload at the recorded count, while the count its user chose had not changed |
| TaskConservation.LetGoIsRestored | internal/controller/task/task_utils.go:108-124 | the pass by which a task drops a workload from its record, and misses nothing, leaves it at the recorded count, which is the one its user chose, or zero while that is on the record of a failed task or lost |
| TaskConservation.OnlyFailedTasksLoseCounts | internal/controller/task/util.go:62-88 | a count is lost exactly with the removal of a Failed task that was the last to remember it while the workload was away from it |
| TaskConservation.OnlyTheHolderScales | internal/controller/task/task_utils.go:36-142 | a pass changes the desired count only of workloads on its own task's record, before or after |
| TaskConservation.ScaleUpConservesExactly | internal/controller/utils/workload.go:299-336 | a scale-up conserves all counts if and only if every recorded workload that misses its patch is at its count, or others keep that |
| TaskConservation.ScaleDownConservesExactly | internal/controller/utils/workload.go:274-297 | a scale-down and its retry conserve all counts if and only if the first stored that it scaled down, or each workload it patched was at zero or has its count kept by others |
| TaskOverlap.OverlapKeepsCountExactly | internal/controller/utils/workload.go:274-336 | after a scale-down that finds a workload at zero which one other task has scaled down and knows the count of, and once both tasks have scaled it up, the count is kept if and only if the other task was the last |
| TaskWitnesses.OverlapForgets | internal/controller/utils/workload.go:274-336 | seven events without any failure in which two overlapping tasks forget three replicas |
| TaskWitnesses.UnstoredScaleDownForgets | internal/controller/utils/workload.go:285-289 | a scale-down whose status write is refused, and its retry, forget three replicas |
| TaskAccounts.LastScaleUpWins | internal/controller/utils/workload.go:299-336 | a task that recorded a workload already at zero leaves it at zero, and its count is gone unless others keep it |
| TaskWindow.WorkRunsInTheWindow | internal/controller/task/task_utils.go:48-87 | over every orderly run, from Starting until the task leaves Running all its recorded workloads have no desired and no ready replica, and no job is created outside that window |
| TaskWindow.CoveredExactly | internal/controller/utils/workload.go:92-112 | from the scale-down until the task leaves Running, a workload whose pods mounted the claim at the scale-down is on record if and only if the owner of one of these pods could be read |
| TaskWindow.ClaimIsIdleInTheWindow | internal/controller/task/task_utils.go:48-87 | so that such a workload has no desired and no ready replica while the task is Starting or Running |
| TaskWindow.ScaleDownIsSafeExactly | internal/controller/utils/workload.go:274-297 | a stored scale-down leaves everything on record down if and only if every patch of a workload not at zero is accepted; one that is not stored always does |
| TaskWindow.RefusedScaleDownStartsEarly | internal/controller/task/task_utils.go:55-70 | a scale-down that is not stored and whose pods are gone at the retry starts at once with the old record, and everything on record is down then if and only if no patch was missed and nothing found was ready |
| TaskWitnesses.StartsWhileReady | internal/controller/utils/workload.go:339-351 | a task starts while the workload on its record is ready, because its pod is no longer listed |
| TaskWindow.StartIsSafeExactly | internal/controller/task/task_utils.go:72-87 | letting a task start keeps everything on record down if and only if no recorded workload that is still ready has escaped the search through the pods |
| TaskProgress.StateMovesAlongEdges | internal/controller/task_controller.go:92-127 | in any event the stored state stays or moves along one edge of the life cycle, by a pass of that very task |
| TaskProgress.AtWorkStays | internal/controller/reconiler/delete.go:13-30 | an initialized, unfinished task holds the finalizer and no event removes it, a user's delete included |
| TaskProgress.LeavesOnlyFinished | internal/controller/task_controller.go:65-90 | over a run a task at work is still stored and guarded, or it was seen Completed or Failed there |
| TaskProgress.FinishedIsFinal | internal/controller/task_controller.go:66-78 | over every continuation a finished task keeps status and record, gets no new job, does not get the operator's finalizer back, and none of its passes patches a workload |
| TaskProgress.PassProgresses | internal/controller/task_controller.go:74-127 | no pass raises the rank, and one without failures, whatever logs it reads, lowers it if and only if the task waits for nothing |
| TaskProgress.TasksTerminate | internal/controller/task_controller.go:74-127 | ten passes without failures over a task that waits for nothing end it, whatever happens in between |
| TaskProgress.ParkedExactlyWhenFinished | internal/controller/task_controller.go:129-131 | a pass takes a task off the queue if and only if it is finished, released and not being deleted |
| TaskResults.JobDecides | internal/controller/task/util.go:62-88 | a pass takes a Running task to ScalingUp if and only if it sees that its job has succeeded, and to Failed if and only if it sees it gone, or failed without any success; the record stays |
| TaskResults.ResultsAreTheJobs | internal/controller/task/task_status.go:12-38 | over every run a task is ScalingUp or Completed only after a pass that saw its job succeed, and Failed only after one that saw it gone, or failed without any success |
| TaskResults.JobIsReported | internal/controller/task/util.go:62-88 | a task shows the counters its job had at the last look, and the logs of the first look that found it ended and could read them |
| TaskResults.ReferenceIsFollowed | internal/controller/task/util.go:37-48 | each part of a job reference counts for itself; an empty one stands for the task's namespace or the name derived from its own |
| TaskResults.ScaleDownDecides | internal/controller/task/task_utils.go:36-88 | under any refusals a task leaves ScalingDown if and only if its status is stored and there is nothing to scale down or, after the scale-down, nothing found is ready; it records exactly when it scales |
| TaskResults.StartDecides | internal/controller/task/task_start.go:16-81 | under any refusals a task leaves Starting if and only if its status is stored and its job is found, is in the way of its creation, or is created; the job is created exactly when the template parses, the create is accepted and none is known |
| TaskResults.ScaleUpDecides | internal/controller/task/task_utils.go:90-142 | under any refusals a task is Completed if and only if its status is stored and it has no record, or drops one with nothing to restore; once workloads were asked to scale up nothing waits for them, since the record by which that is checked is gone |
| TaskResults.ReadinessIsByTheRecord | internal/controller/utils/workload.go:354-377 | were the record still there, Completed would wait until every recorded workload that is found is as ready as its count says |
| TaskResults.OthersFinalizersStay | internal/controller/reconiler/delete.go:32-49 | a pass neither adds nor takes off a finalizer of others, and removes no task that has one |
| TaskResults.NextLook | internal/controller/task_controller.go:92-131 | a pass without failures looks again after 5 seconds for the workloads, after 30 for the job, otherwise after 2; it ends in an error only over an unparsable template or the removed task, and parks only finished ones |
| TaskProgress.AtMostOneJob | internal/controller/task/task_start.go:24-77 | over every run in which jobs outlast the Starting of their tasks, at most one job is created per task, however often a status write fails |
| TaskProgress.VanishedJobIsCreatedAgain | internal/controller/task/task_start.go:24-77 | a job that vanishes before its creation is stored in the status is created a second time |
| TaskProgress.UnparsableTemplateNeverFails | internal/controller/task/task_start.go:41-58 | a task whose job template does not parse stays Starting, because the Failed assigned with the error is never stored |
| Annotations.MakeAnnotation | internal/controller/utils/annotation.go:3-23 | a change with a value sets its key, an empty one removes it, every other key is kept |
| PvcSelection.GetPVCsForConfig | internal/controller/utils/pvc.go:16-55 | every claim that a selector lists and that is not being deleted, each UID once, and nothing else; nothing at all if a list request fails |
| PvcSelection.FilterNewPVCs | internal/controller/utils/pvc.go:57-75 | keeps exactly the claims young enough, in order: the list is `NewOnes`, whose members are those |
| PvcSelection.FilterUnclaimedPVCs | internal/controller/utils/pvc.go:77-100 | keeps exactly the claims of any list without mark and without restore trigger, in order: the list is `UnclaimedOnes`, whose members are those |
| PvcSelection.MatchesConfigSelectors | internal/controller/watches/pvc.go:50-85 | true exactly when some selector names the claim's namespace, if it names any, and agrees with its labels |
| PvcSelection.ListedWakesExactly | internal/controller/watches/pvc.go:50-85 | whatever a selector lists also wakes its config up if and only if its namespace list is absent or ends in a name |
| PvcSelection.OnlyTheLastNamespaceIsListed | internal/controller/utils/pvc.go:22-32 | whatever names stand before it, only the last namespace of a selector is listed |
| PvcSelection.WakesBeyondListingExactly | internal/controller/watches/pvc.go:50-85 | in its one namespace a selector lists exactly the claims that have all its labels, and is woken up besides by those that lack a label it wants empty |
| PvcSelection.NoMissedWakeUps | internal/controller/utils/pvc.go:16-55 | with such selectors every managed claim wakes its config up |
| RepositoryStatus.SyncRepositories | internal/controller/config/repository_sync.go:14-79 | reports a change exactly when status does not mirror spec target by target, and rebuilds it with the entries kept |
| RepositoryStatus.SyncIsIdempotent | internal/controller/config/repository_sync.go:14-79 | after one sync status mirrors spec and a second changes nothing, duplicate targets included |
| RepositoryStatus.SyncKeepsEntries | internal/controller/config/repository_sync.go:36-53 | with distinct targets a surviving target keeps its entry, a removed one has none |
| RepositoryStatus.EntriesSurviveEdits | internal/controller/config/repository_sync.go:36-53 | over any sequence of spec edits the entry of a target that is never removed stays as it was |
| RepositoryStatus.FindRepositorySpec | internal/controller/utils/repository.go:5-12 | finds the first spec of the target, exactly when there is one |
| Schedule.DueExactlyAfterAFiring | internal/controller/utils/schedule.go:10-34 | an operation that ran before is due if and only if its schedule fired since, strictly before now |
| Schedule.RunsAreSeparated | internal/controller/utils/schedule.go:28-33 | between a stored stamp and the stamp of the next run lies a firing |
| Schedule.SeparatedStampsAreFew | internal/controller/utils/schedule.go:28-33 | stamps with firings between them are at most one more than the firings they span |
| ConfigReconciler.InitRepositories | internal/controller/config/repository_init.go:15-56 | initializes every repository that waits for it, or stops with an error at the first that can be neither checked nor initialized, having set the ones before it in memory |
| ConfigReconciler.AutoRestore | internal/controller/config/auto_restore.go:17-85 | creates a task and then marks the claim, claim after claim, until either fails; panics without a repository |
| ConfigReconciler.ConfigRestore | internal/controller/config/config_restore.go:14-78 | one restore task for every managed claim whose create is accepted; the trigger is cleared; panics if there is a claim but no repository |
| ConfigReconciler.ConfigBackup | internal/controller/config/config_backup.go:14-72 | one backup task for every managed claim whose create is accepted; the trigger is cleared; panics if there is a claim but no repository |
| ConfigReconciler.PVCRestore | internal/controller/config/pvc_handler.go:75-132 | a restore task for the claim; its trigger is cleared even if the create was refused; panics without a repository |
| ConfigReconciler.PVCBackup | internal/controller/config/pvc_handler.go:15-73 | a backup task for the claim, whatever other trigger it has; its trigger is cleared even if the create was refused; panics without a repository |
| ConfigReconciler.ScheduleBackupRepositories | internal/controller/config/repository_schedule.go:37-105 | serves the first repository with a due backup, and only that one |
| ConfigReconciler.ScheduleForgetRepositories | internal/controller/config/repository_schedule.go:107-146 | serves the first repository with a due forget: restic is called on its target, and it is stamped even if that failed |
| ConfigReconciler.ListPVCsForConfig | internal/controller/config/list_pvc.go:17-31 | the managed claims, and the new unclaimed ones of them in the same order |
| RequestedTasks.TasksAreAsRequested | internal/controller/config/config_restore.go:27-68 | every task a pass creates is for a claim some selector lists, that is not being deleted and whose create is accepted, carries the stop flag of the config, and has the restic arguments of the very annotation that asked for it, the config's before the claim's; automatic restores take the latest snapshot for claims of at most 15 minutes |
| RequestedTasks.ManualBackupIsFoundExactly | internal/restic/helper.go:113-170 | a restore task asked for with the same words as a backup task of the same claim, by configs with the same repositories, selects its snapshot if and only if these have a pipe and do not end in a word for the latest snapshot |
| ConfigReconciler.Reconcile | internal/controller/config_controller.go:50-169 | the whole pass over a config has exactly the effect and the verdict of `ConfigPass`, whatever is refused, the call to forget included |
| ConfigDrain.PassDrains | internal/controller/config_controller.go:93-163 | with every call accepted a pass that does not panic changes nothing if nothing is left to do, and strictly lowers one measure otherwise |
| ConfigDrain.AllWorkDrains | internal/controller/config_controller.go:93-163 | at a frozen clock all pending work is done after as many passes as the measure says, and then nothing changes |
| ConfigDrain.AllWorkDrainsUnderLawfulSchedules | internal/controller/utils/schedule.go:28-33 | in particular if every schedule always has a next firing on a full second |
| ConfigDrain.CrashesExactly | internal/restic/helper.go:53 | a pass panics if and only if it gets as far as making a task for a claim and the spec has no repository |
| ConfigDrain.CrashRepeats | internal/restic/helper.go:71 | a pass that panics changes nothing, and so does every pass after it at the same time |
| ConfigDrain.PendingIsBounded | internal/controller/config_controller.go:93-163 | the measure is linear in the numbers of repositories and claims |
| ConfigDrain.DrainsExactly | internal/controller/utils/schedule.go:28-33 | passes drain if and only if no schedule has its next firing between the stored second of a run and the run; one without a next firing is due in every pass |
| ConfigDrain.NextLook | internal/controller/config_controller.go:93-163 | a pass without refusals looks again after 2 seconds while preparing, after 120 when it answered a request or ran a schedule, otherwise after 30 |
| ConfigDrain.FailsExactly | internal/controller/config_controller.go:93-163 | a pass ends in an error if and only if the config cannot be read, the write that is due is refused, a waiting repository is unreachable, or the mark of a restored claim is refused |
| ConfigDrain.OneThingAtATime | internal/controller/config_controller.go:67-163 | a pass changes one thing of a config at most: the finalizer, then the stamp of initialization, then the repositories, and only of a prepared config the requests, the restore before the backup |
| ManualRequests.RequestsAreAnsweredOnce | internal/controller/config_controller.go:126-152 | for every managed claim and either manual kind, an accepted pass creates exactly as many tasks as it clears triggers on the config and on the claim |
| ManualRequests.ClaimRequestIsAnsweredExactly | internal/controller/config/pvc_handler.go:56-72 | with refusals that balance is kept for a claim's own trigger if and only if the create and the clearing are refused or accepted together |
| ManualRequests.ConfigRequestIsAnsweredExactly | internal/controller/config/config_restore.go:14-78 | for a trigger of the config it is kept, claim by claim, if and only if the claim's create is accepted exactly when the config write is; for the other kind it is kept in any case |
| ConfigRuns.RestoredAtMostOnce | internal/controller/config/auto_restore.go:33-82 | over every run of any number of configs that keeps the marks each claim is restored automatically at most once, and a restored claim has its mark |
| ConfigRuns.RefusedMarkRestoresAgain | internal/controller/config/auto_restore.go:66-79 | a claim whose mark was refused after its task was created is restored again by the next accepted pass |
| ConfigRuns.RemovedMarkRestoresAgain | internal/controller/config/auto_restore.go:17-85 | so is a restored claim whose mark a user removes while it is still new |
| ConfigRuns.RefusedRestoreComesBack | internal/controller/config/auto_restore.go:56-64 | auto-restore comes back after 5 seconds if and only if the create of a task is refused |
| ScheduledRuns.ScheduledRunsAreFew | internal/controller/config/repository_schedule.go:37-146 | for backups and for forgets: over every run that keeps the target, however else the spec is edited, the scheduled runs of the operation on the target in a window are at most the firings of that operation's schedule in it plus one, and none without a schedule |
| ScheduledRuns.StampsFollowTheirSchedules | internal/controller/config/repository_schedule.go:43-116 | a pass stamps a backup by the backup schedule and a forget by the forget schedule only: that one is set, parses, and fired since the operation last ran, strictly before now |
| ScheduledRuns.ServesTheFirstDue | internal/controller/config/repository_schedule.go:43-146 | a pass serves one repository at most: the first with a due backup, or, if no backup is due, the first with a due forget |
| ScheduledRuns.EveryIdleClaimIsBackedUp | internal/controller/config/repository_schedule.go:55-101 | a pass that serves a backup makes a task for every managed claim that is not busy and whose create is accepted |
| ScheduledRuns.UnreachableStaysUninitialized | internal/controller/config/repository_init.go:15-56 | no pass initializes a repository that can be neither checked nor initialized |
| ScheduledRuns.RefusedStampBreaksTheBound | internal/controller/config/repository_schedule.go:43-53 | after a run whose stamp is refused there are two runs in a window without any firing |
| ScheduledRuns.RepeatedTargetBreaksTheBound | internal/controller/config/repository_schedule.go:43-53 | so there are when two due entries of the spec have the same target |
| ScheduledRuns.ReaddedTargetBreaksTheBound | internal/controller/config/repository_sync.go:36-53 | and so there are when a target that has just run leaves the spec and comes back, with a pass after each edit |
| ScheduledRuns.ScheduledTasksServe | internal/controller/config/repository_schedule.go:55-101 | every scheduled task backs up one managed, not busy claim to the one repository its pass serves |
| ScheduledRuns.ScheduledBackupsCanBeRestored | internal/restic/helper.go:99-170 | the snapshot of a scheduled task is what the annotation `priority, claim, task name` selects on any claim under any config with these repositories, if and only if the name is plain and the priority leads to the target |
| ResticArgs.SplitJoin | internal/restic/helper.go:32 | splitting undoes joining for parts without pipes |
| ResticArgs.JoinSplit | internal/restic/helper.go:32 | joining undoes splitting for every string |
| ResticArgs.ReadNumberOfDecimal | internal/restic/helper.go:21-25 | reading a number undoes writing it, for every 32-bit number and whatever non-digit follows |
| ResticArgs.ReadNumberOfSigned | internal/restic/helper.go:21-25 | white space in front and either sign are read over, and a number of more than 32 bits is none |
| ResticArgs.TextIsNoNumber | internal/restic/helper.go:21-25 | what begins with neither space, sign nor digit is no number, nor is a lone sign |
| ResticArgs.DefaultIsFirstLeast | internal/restic/helper.go:70-76 | the default is the first repository of least priority number |
| ResticArgs.ConvertStringToRepoNameArgs | internal/restic/helper.go:31-61 | the `--repo` argument names the repository of that priority, else that target, else the default |
| ResticArgs.RepositoryFieldMeans | internal/restic/helper.go:31-61 | an empty field is the default, a number the first repository of that priority, and other text, or a number that is nobody's priority, the repository of that very target or else the default |
| ResticArgs.SelectRepository | internal/restic/helper.go:67-97 | with exactly two pipes and a field, the repository with that number as priority, or with that text as target; else the default |
| ResticArgs.RepositoryReadingsAgree | internal/restic/helper.go:31-97 | the two readings name the same target if and only if, with two pipes, the field is no number that is nobody's priority but another repository's target, and, with more, the third part from the end leads to no repository but the default |
| ResticArgs.NumberedTargetIsMisread | internal/restic/helper.go:31-97 | an annotation with a 7 before two pipes makes the job work on the repository with target 7, in the environment of the default one |
| ResticArgs.EnvironmentFitsTheRepo | internal/restic/exec.go:17-39 | with distinct targets a job gets the environment of the repository in `--repo` if and only if the readings agree; each value is that repository's, else the config's last |
| ResticArgs.MakeRestoreArgs | internal/restic/helper.go:152-160 | a restore is called with the repository, host and snapshot selection of its annotation, in this order, into the current directory |
| ResticArgs.MakeBackupArgs | internal/restic/helper.go:162-170 | a backup is called with the repository and host of its annotation and tagged with its name, or with the task's name where the annotation asks for the latest |
| ResticArgs.BareAnnotation | internal/restic/helper.go:113-170 | the full argument lists for an annotation without a pipe: default repository, the claim as host, and that snapshot id, or the latest for the four words that mean it |
| ResticArgs.SnapshotsAreTold | internal/restic/helper.go:113-135 | two different snapshot ids make two different restores |
| ResticArgs.HostAndName | internal/restic/helper.go:99-170 | the full argument lists for one pipe: host, or the claim if it is empty, and name |
| ResticArgs.RepositoryHostAndName | internal/restic/helper.go:31-170 | the full argument lists for two pipes and more: the last three parts are repository, host and name, and what stands before is ignored |
| ResticArgs.RestoreSelectsTheBackup | internal/restic/helper.go:99-170 | restoring by priority, claim and name selects what a scheduled backup wrote if and only if the name has no pipe and is no word for the latest snapshot, and the priority leads to the backup's target |
| ResticArgs.SameAnnotationFindsExactly | internal/restic/helper.go:113-150 | a restore finds the manual backup made with the same annotation if and only if that has a pipe and its last part is no word for the latest snapshot |
| ResticArgs.NamedRestoreNeedsAPipe | internal/restic/helper.go:113-135 | in particular a restore by the bare name of a manual backup does not find it, one with a pipe in front does |
| ResticArgs.MergeEnvs | internal/restic/exec.go:17-39 | for every name the last entry of the last list that has it, once, and nothing else |
| ResticArgs.LastInIs | internal/restic/exec.go:17-39 | what counts of a list is its last entry of the name |

## Left out

- The Kubernetes client, its cache and its watches: reads are fresh, writes are accepted or refused.
- Interleaving inside one pass: other actors move between passes; a pass that dies is one whose later writes are
  refused.
- Restic itself and the reading of job logs: their outcomes are inputs.
- The cron library: a schedule is the function from an instant to its next firing, and what is assumed of it is stated.
- JSON encoding: the replicas annotation is a map which a pass may fail to decode, and scale patches set the count only.
- BuildTask: of a new task only kind, claim, stop flag and restic arguments are modelled, of its job template whether
  it parses; the merged environment is proved about but not stored in the task.
- MergeEnvs: the order of the merged list, which is that of a Go map, is left open.
- TaskReconciler.Reconcile: the owner references of a job are not modelled.
- ConfigReconciler.ListPVCsForConfig: the count of matched claims that it leaves in the status is not modelled.
- ConfigReconciler.Reconcile: a missing config, the count of matched claims, the removal of the config's finalizer,
  which the operator never does, and what becomes of the process after a panic are not modelled.
- TaskConservation.ReplicaCountsAreConserved: others add and remove their own finalizers and delete tasks; that somebody
  else edits the annotations or the status of a task, or takes the operator's finalizer off, is not modelled.
- TaskWindow.ClaimIsIdleInTheWindow: workloads that begin to use the claim after the scale-down are not covered.
- TaskProgress.AtMostOneJob: a job that its time to live removes while its task is Starting is excluded, since a
  second one is then created.
- The active-task lookup that skips a claim in a scheduled backup
  (internal/controller/config/repository_schedule.go:18-35) is an input, since it compares claim names without
  namespaces.
- Replica counts and priorities are unbounded; only numbers read from annotations are limited to 32 bits.
- RemoveTasksByConfig, WaitForScaleDownForPVC, WaitForScaleUpForPVC, ShouldStopPods and the retry helpers are not
  called by the reconcilers.
- Setup code, generated code, charts, access rules, logging and the generation of unique names, which are inputs here.
