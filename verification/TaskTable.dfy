/** What one reconcile pass does to a task and to the cluster, as a table over the task's stored state. */
module TaskTable {
  import opened Reconciling
  import opened Cluster
  import opened Workloads

  /** The effect of a pass: what is left of the task in the store, the counts set on workloads, whether the
      task's job is created, and what the queue is told. */
  datatype Outcome = Outcome(task: Option<Task>, scaled: map<WKey, nat>, newJob: bool, verdict: Verdict)

  function JobKey(task: Key): Key {
    Key(task.ns, task.name + "-job")
  }

  /** The job a task's status points at; empty parts of the reference fall back to the derived name. */
  function JobOf(task: Key, status: Status): Key {
    Key(if status.jobRef.ns == "" then task.ns else status.jobRef.ns,
        if status.jobRef.name == "" then JobKey(task).name else status.jobRef.name)
  }

  /** The cluster after a pass with the given effect on task `k`. */
  ghost function Enact(w: World, k: Key, o: Outcome): World {
    w.(tasks := if o.task.Some? then w.tasks[k := o.task.value] else w.tasks - {k},
       workloads := map j | j in w.workloads :: SetTo(w.workloads[j], j, o.scaled),
       jobs := JobsAfter(w, k, o))
  }

  function JobsAfter(w: World, k: Key, o: Outcome): map<Key, JobStatus> {
    if o.newJob then w.jobs[JobKey(k) := NO_JOB_STATUS] else w.jobs
  }

  /** `now` is `before` with the effect on task `k`. */
  ghost predicate Enacts(before: World, now: World, k: Key, o: Outcome) {
    Changes(before, now, k, o.task, o.scaled, JobsAfter(before, k, o))
  }

  lemma EnactsIsEnact(before: World, now: World, k: Key, o: Outcome)
    ensures Enacts(before, now, k, o) <==> now == Enact(before, k, o)
  {
    var next := Enact(before, k, o);
    if Enacts(before, now, k, o) {
      assert now.tasks == next.tasks;
      assert now.workloads == next.workloads;
    }
  }

  function Broken(t: Task): Outcome {
    Outcome(Some(t), map[], false, Error)
  }

  /** A pass that ends in the write of a new status. */
  function Committed(t: Task, status: Status, period: int, f: Faults): Outcome {
    if f.stepWrite then Outcome(Some(t.(status := status)), map[], false, RequeueAfter(period)) else Broken(t)
  }

  /** The status after a look at the job. Logs are kept from the first look that finds the job ended and can read
      them. */
  function AfterJob(status: Status, job: JobStatus, f: Faults): Status {
    var ended := job.succeeded > 0 || job.failed > 0;
    status.(
      jobStatus := job,
      output := if ended && status.output == "" && f.logs.Some? then f.logs.value else status.output,
      state := if job.succeeded > 0 then ScalingUp
               else if job.failed > 0 then Failed
               else if job.active > 0 then Running
               else status.state)
  }

  predicate NoneReady(w: World, found: set<WKey>) {
    forall k :: k in found && k in w.workloads ==> w.workloads[k].ready == 0
  }

  function InitRow(t: Task, f: Faults): Outcome {
    Committed(t, t.status.(state := ScalingDown, initialized := true), IMMEDIATE, f)
  }

  ghost function ScaleDownRow(w: World, t: Task, f: Faults): Outcome
    requires UniqueUids(w)
  {
    var starting := t.status.(state := Starting);
    var found := Found(w, t.spec.pvc, f.brokenOwners);
    if !t.spec.stopPods then Committed(t, starting, IMMEDIATE, f)
    else if !f.listPods then Broken(t)
    else if !t.status.scaledDown then
      if found == {} then Committed(t, starting, IMMEDIATE, f)
      else if !f.objectWrite then Broken(t)
      else
        Committed(t.(record := Some(Originals(w, found))), t.status.(scaledDown := true), QUICK, f)
          .(scaled := ToZero(found, f))
    else if NoneReady(w, found) then Committed(t, starting, IMMEDIATE, f)
    else Committed(t, t.status, QUICK, f)
  }

  function StartRow(w: World, k: Key, t: Task, f: Faults): Outcome {
    var running := t.status.(state := Running);
    if f.getJob && JobOf(k, t.status) in w.jobs then Committed(t, running, IMMEDIATE, f)
    else if !t.spec.templateParses || !f.createJob then Broken(t)
    else if JobKey(k) in w.jobs then Committed(t, running, IMMEDIATE, f)
    else Committed(t, running.(jobRef := JobKey(k)), IMMEDIATE, f).(newJob := true)
  }

  function RunningRow(w: World, k: Key, t: Task, f: Faults): Outcome {
    var job := JobOf(k, t.status);
    if !f.getJob then Broken(t)
    else if job !in w.jobs then Committed(t, t.status.(state := Failed), IMMEDIATE, f)
    else Committed(t, AfterJob(t.status, w.jobs[job], f), DEFAULT, f)
  }

  function ScaleUpRow(w: World, t: Task, f: Faults): Outcome {
    var completed := t.status.(state := Completed);
    if !t.spec.stopPods || t.record == None then Committed(t, completed, IMMEDIATE, f)
    else if !f.recordParses then Broken(t)
    else if !t.status.scaledUp then
      var targets := Restorable(w, t.spec.pvc.ns, t.record.value, f);
      var scaled := RestoredCounts(w, t.spec.pvc.ns, t.record.value, f);
      if !f.objectWrite then Broken(t).(scaled := scaled)
      else
        Committed(t.(record := None), if targets != {} then t.status.(scaledUp := true) else completed, IMMEDIATE, f)
          .(scaled := scaled)
    else if !f.listPods then Broken(t)
    else if ShortOfReady(w, t.spec.pvc, t.record.value, f) then Committed(t, t.status, QUICK, f)
    else Committed(t, completed, IMMEDIATE, f)
  }

  /** The removal of a finalizer, which ends an object that is being deleted once it has no other. */
  function Unguarded(t: Task): Option<Task> {
    var left := t.(finalizers := t.finalizers - {TaskFinalizer});
    if t.deleting && left.finalizers == {} then None else Some(left)
  }

  /** What the stages that deal with finalizers and deletion do to the task, if they end the pass. */
  function LifecycleRow(t: Task, f: Faults): Option<Outcome> {
    if t.Finished() && t.Guarded() then
      // the removal is written twice; the second write finds the same object, or none
      if !f.objectWrite then Some(Broken(t))
      else
        var left := Unguarded(t);
        Some(Outcome(left, map[], false, if f.stepWrite && left.Some? then RequeueAfter(IMMEDIATE) else Error))
    else if t.deleting && !t.Guarded() then
      if !f.stepWrite then Some(Broken(t))
      else Some(Outcome(if t.finalizers == {} then None else Some(t), map[], false, RequeueAfter(IMMEDIATE)))
    else if !t.status.initialized && !t.Guarded() then
      if !f.objectWrite then Some(Broken(t))
      else
        Some(Outcome(Some(t.(finalizers := t.finalizers + {TaskFinalizer})), map[], false,
                     if f.stepWrite then RequeueAfter(IMMEDIATE) else Error))
    else None
  }

  /** One pass over the stored task `t` named `k`. */
  ghost function TaskRow(w: World, k: Key, t: Task, f: Faults): Outcome
    requires UniqueUids(w)
  {
    var lifecycle := LifecycleRow(t, f);
    if lifecycle.Some? then lifecycle.value
    else if !t.status.initialized then InitRow(t, f)
    else match t.status.state
      case ScalingDown => ScaleDownRow(w, t, f)
      case Starting => StartRow(w, k, t, f)
      case Running => RunningRow(w, k, t, f)
      case ScalingUp => ScaleUpRow(w, t, f)
      case _ => Outcome(Some(t), map[], false, Done)
  }

  /** One pass over the task named `k`. A missing task is answered with a delete request that finds nothing. */
  ghost function TaskPass(w: World, k: Key, f: Faults): Outcome
    requires UniqueUids(w)
  {
    if k !in w.tasks then Outcome(None, map[], false, Error)
    else if !f.getTask then Broken(w.tasks[k])
    else TaskRow(w, k, w.tasks[k], f)
  }
}
