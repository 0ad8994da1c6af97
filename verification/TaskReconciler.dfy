/** The Task reconciler: a chain of stages over one task object that is changed in place, each stage ending
    the pass or handing over to the next. `Reconcile` is proved to compute the table `TaskPass`. */
module TaskReconciler {
  import opened Reconciling
  import opened Cluster
  import opened Workloads
  import opened TaskTable

  /** The task in the reconciler's memory. */
  class TaskObject {
    const key: Key
    const spec: TaskSpec
    const deleting: bool
    var finalizers: set<Finalizer>
    var record: Option<Record>
    var status: Status

    constructor (key: Key, t: Task)
      ensures this.key == key && Value() == t
    {
      this.key := key;
      spec, deleting := t.spec, t.deleting;
      finalizers, record, status := t.finalizers, t.record, t.status;
    }

    function Value(): Task
      reads this
    {
      Task(spec, finalizers, deleting, record, status)
    }

    predicate IsFinished()
      reads this
    {
      status.state == Completed || status.state == Failed
    }
  }

  method RemoveFinalizerIfFinished(api: ApiServer, task: TaskObject, f: Faults) returns (a: Answer)
    requires task.key in api.w.tasks && api.w.tasks[task.key] == task.Value()
    modifies api, task
    ensures var t := old(task.Value());
      if t.Finished() && t.Guarded() then
        && task.Value() == t.(finalizers := t.finalizers - {TaskFinalizer})
        && a == Answer(true, IMMEDIATE, !f.objectWrite)
        && (if f.objectWrite then Changes(old(api.w), api.w, task.key, Unguarded(t), map[], old(api.w).jobs)
            else api.w == old(api.w))
      else a == PASS_ON && task.Value() == t && api.w == old(api.w)
  {
    if !task.IsFinished() {
      return PASS_ON;
    }
    if TaskFinalizer !in task.finalizers {
      return PASS_ON;
    }
    task.finalizers := task.finalizers - {TaskFinalizer};
    var err := api.Update(task.key, task.finalizers, task.record, f.objectWrite);
    return Answer(true, IMMEDIATE, err);
  }

  method CheckDeleteResource(task: TaskObject) returns (a: Answer)
    ensures a == if task.deleting && !task.Value().Guarded() then Answer(true, IMMEDIATE, false) else PASS_ON
  {
    if !task.deleting {
      return PASS_ON;
    }
    if TaskFinalizer in task.finalizers {
      return PASS_ON;
    }
    return Answer(true, IMMEDIATE, false);
  }

  method AddFinalizerIfNew(api: ApiServer, task: TaskObject, f: Faults) returns (a: Answer)
    requires task.key in api.w.tasks && api.w.tasks[task.key] == task.Value()
    modifies api, task
    ensures var t := old(task.Value());
      if !t.status.initialized && !t.Guarded() then
        && task.Value() == t.(finalizers := t.finalizers + {TaskFinalizer})
        && a == Answer(true, IMMEDIATE, !f.objectWrite)
        && (if f.objectWrite then Changes(old(api.w), api.w, task.key, Some(task.Value()), map[], old(api.w).jobs)
            else api.w == old(api.w))
      else a == PASS_ON && task.Value() == t && api.w == old(api.w)
  {
    if task.status.initialized {
      return PASS_ON;
    }
    if TaskFinalizer in task.finalizers {
      return PASS_ON;
    }
    task.finalizers := task.finalizers + {TaskFinalizer};
    var err := api.Update(task.key, task.finalizers, task.record, f.objectWrite);
    return Answer(true, IMMEDIATE, err);
  }

  /** A stage has ended the pass with the effect `o` on `before`, but for the status write its answer may ask for. */
  ghost predicate Ended(before: World, now: World, task: TaskObject, a: Answer, f: Faults, o: Outcome)
    reads task
  {
    var written := !a.err && f.stepWrite;
    && a.Ends()
    && task.key in now.tasks
    && Enacts(before, now, task.key, o.(task := Some(now.tasks[task.key])))
    && o.task == Some(if written then now.tasks[task.key].(status := task.status) else now.tasks[task.key])
    && o.verdict == if written then RequeueAfter(a.period) else Error
  }

  method Init(api: ApiServer, task: TaskObject, f: Faults) returns (a: Answer)
    requires task.key in api.w.tasks && api.w.tasks[task.key] == task.Value()
    modifies task
    ensures old(task.status.initialized) ==> a == PASS_ON && task.Value() == old(task.Value())
    ensures !old(task.status.initialized) ==> Ended(api.w, api.w, task, a, f, InitRow(old(task.Value()), f))
  {
    if task.status.initialized {
      return PASS_ON;
    }
    task.status := task.status.(state := ScalingDown);
    task.status := task.status.(initialized := true);
    return Answer(true, IMMEDIATE, false);
  }

  /** Starts the scale-down of a task that has not stored one. */
  method BeginScaleDown(api: ApiServer, task: TaskObject, f: Faults) returns (a: Answer)
    requires UniqueUids(api.w)
    requires task.key in api.w.tasks && api.w.tasks[task.key] == task.Value()
    requires !(task.deleting && task.finalizers == {}) && task.spec.stopPods && !task.status.scaledDown
    modifies api, task
    ensures Ended(old(api.w), api.w, task, a, f, ScaleDownRow(old(api.w), old(task.Value()), f))
  {
    var scaling, err, record := ScaleDownWorkloadsForPVC(api, task.key, task.spec.pvc, task.finalizers, f);
    if err {
      task.status := task.status.(state := Failed);
      return Answer(true, IMMEDIATE, true);
    }
    if !scaling {
      task.status := task.status.(state := Starting);
      return Answer(true, IMMEDIATE, false);
    }
    task.record := record;
    task.status := task.status.(scaledDown := true);
    return Answer(true, QUICK, false);
  }

  method CheckTaskScaleDown(api: ApiServer, task: TaskObject, f: Faults) returns (a: Answer)
    requires UniqueUids(api.w)
    requires task.key in api.w.tasks && api.w.tasks[task.key] == task.Value()
    requires !(task.deleting && task.finalizers == {})
    modifies api, task
    ensures old(task.status.state) != ScalingDown ==>
      a == PASS_ON && task.Value() == old(task.Value()) && api.w == old(api.w)
    ensures old(task.status.state) == ScalingDown ==>
      Ended(old(api.w), api.w, task, a, f, ScaleDownRow(old(api.w), old(task.Value()), f))
  {
    if task.status.state != ScalingDown {
      return PASS_ON;
    }
    if !task.spec.stopPods {
      task.status := task.status.(state := Starting);
      return Answer(true, IMMEDIATE, false);
    }
    if !task.status.scaledDown {
      a := BeginScaleDown(api, task, f);
      return;
    }
    var done, err := IsScaleDownCompleteForPVC(api, task.spec.pvc, f);
    if err {
      task.status := task.status.(state := Failed);
      return Answer(true, IMMEDIATE, true);
    }
    if !done {
      return Answer(true, QUICK, false);
    }
    task.status := task.status.(state := Starting);
    return Answer(true, IMMEDIATE, false);
  }

  method GetJobFromTask(api: ApiServer, task: TaskObject, f: Faults) returns (job: Option<JobStatus>, err: bool)
    ensures err <==> !f.getJob
    ensures !err ==>
      job == (var k := JobOf(task.key, task.status); if k in api.w.jobs then Some(api.w.jobs[k]) else None)
  {
    var name, ns := task.status.jobRef.name, task.status.jobRef.ns;
    if name == "" {
      name := task.key.name + "-job";
    }
    if ns == "" {
      ns := task.key.ns;
    }
    if !f.getJob {
      return None, true;
    }
    if Key(ns, name) !in api.w.jobs {
      return None, false;
    }
    return Some(api.w.jobs[Key(ns, name)]), false;
  }

  method Start(api: ApiServer, task: TaskObject, f: Faults) returns (a: Answer)
    requires task.key in api.w.tasks && api.w.tasks[task.key] == task.Value()
    modifies api, task
    ensures old(task.status.state) != Starting ==>
      a == PASS_ON && task.Value() == old(task.Value()) && api.w == old(api.w)
    ensures old(task.status.state) == Starting ==>
      Ended(old(api.w), api.w, task, a, f, StartRow(old(api.w), task.key, old(task.Value()), f))
  {
    if task.status.state != Starting {
      return PASS_ON;
    }
    var job, getErr := GetJobFromTask(api, task, f);
    if !getErr && job.Some? {
      task.status := task.status.(state := Running);
      return Answer(true, IMMEDIATE, false);
    }
    if !task.spec.templateParses {
      task.status := task.status.(state := Failed);
      return Answer(true, IMMEDIATE, true);
    }
    var name := Key(task.key.ns, task.key.name + "-job");
    var err, taken := api.CreateJob(name, f.createJob);
    if err {
      if taken {
        task.status := task.status.(state := Running);
        return Answer(true, IMMEDIATE, false);
      }
      task.status := task.status.(state := Failed);
      return Answer(true, IMMEDIATE, true);
    }
    task.status := task.status.(state := Running);
    task.status := task.status.(jobRef := name);
    return Answer(true, IMMEDIATE, false);
  }

  /** Sets state and output, and leaves the counters to the caller. */
  method JobToTaskStatus(task: TaskObject, job: JobStatus, f: Faults)
    modifies task`status
    ensures task.Value() ==
      old(task.Value()).(status := AfterJob(old(task.status), job, f).(jobStatus := old(task.status.jobStatus)))
    ensures job.succeeded > 0 ==> task.status.state == ScalingUp
    ensures job.succeeded == 0 && job.failed > 0 ==> task.status.state == Failed
    ensures job.succeeded == 0 && job.failed == 0 ==>
      task.status.state == if job.active > 0 then Running else old(task.status.state)
  {
    if job.succeeded > 0 {
      task.status := task.status.(state := ScalingUp);
      if task.status.output == "" && f.logs.Some? {
        task.status := task.status.(output := f.logs.value);
      }
    } else if job.failed > 0 {
      task.status := task.status.(state := Failed);
      if task.status.output == "" && f.logs.Some? {
        task.status := task.status.(output := f.logs.value);
      }
    } else if job.active > 0 {
      task.status := task.status.(state := Running);
    }
  }

  method UpdateTaskStatus(api: ApiServer, task: TaskObject, f: Faults) returns (a: Answer)
    requires task.key in api.w.tasks && api.w.tasks[task.key] == task.Value()
    modifies task
    ensures old(task.status.state) != Running ==> a == PASS_ON && task.Value() == old(task.Value())
    ensures old(task.status.state) == Running ==>
      Ended(api.w, api.w, task, a, f, RunningRow(api.w, task.key, old(task.Value()), f))
  {
    if task.status.state != Running {
      return PASS_ON;
    }
    var job, err := GetJobFromTask(api, task, f);
    if err {
      return Answer(false, NO_REQUEUE, true);
    }
    if job == None {
      task.status := task.status.(state := Failed);
      return Answer(true, IMMEDIATE, false);
    }
    task.status := task.status.(jobStatus := job.value);
    JobToTaskStatus(task, job.value, f);
    return Answer(true, DEFAULT, false);
  }

  /** Starts the scale-up of a task that has not stored one. */
  method BeginScaleUp(api: ApiServer, task: TaskObject, f: Faults) returns (a: Answer)
    requires UniqueUids(api.w)
    requires task.key in api.w.tasks && api.w.tasks[task.key] == task.Value()
    requires !(task.deleting && task.finalizers == {}) && task.spec.stopPods && !task.status.scaledUp
    modifies api, task
    ensures Ended(old(api.w), api.w, task, a, f, ScaleUpRow(old(api.w), old(task.Value()), f))
  {
    ghost var w, t := api.w, task.Value();
    ghost var row := ScaleUpRow(w, t, f);
    var scaling, err, left := ScaleUpWorkloadsForPVC(api, task.key, task.spec.pvc, task.finalizers, task.record, f);
    if err {
      assert row == Broken(t).(scaled := row.scaled);
      task.status := task.status.(state := Failed);
      return Answer(true, IMMEDIATE, true);
    }
    task.record := left;
    if !scaling {
      task.status := task.status.(state := Completed);
      assert row == Committed(t.(record := None), task.status, IMMEDIATE, f).(scaled := row.scaled);
      return Answer(true, IMMEDIATE, false);
    }
    task.status := task.status.(scaledUp := true);
    assert row == Committed(t.(record := None), task.status, IMMEDIATE, f).(scaled := row.scaled);
    return Answer(true, IMMEDIATE, false);
  }

  method CheckTaskScaleUp(api: ApiServer, task: TaskObject, f: Faults) returns (a: Answer)
    requires UniqueUids(api.w)
    requires task.key in api.w.tasks && api.w.tasks[task.key] == task.Value()
    requires !(task.deleting && task.finalizers == {})
    modifies api, task
    ensures old(task.status.state) != ScalingUp ==>
      a == PASS_ON && task.Value() == old(task.Value()) && api.w == old(api.w)
    ensures old(task.status.state) == ScalingUp ==>
      Ended(old(api.w), api.w, task, a, f, ScaleUpRow(old(api.w), old(task.Value()), f))
  {
    if task.status.state != ScalingUp {
      return PASS_ON;
    }
    if !task.spec.stopPods {
      task.status := task.status.(state := Completed);
      return Answer(true, IMMEDIATE, false);
    }
    if !task.status.scaledUp {
      a := BeginScaleUp(api, task, f);
      return;
    }
    var done, err := IsScaleUpCompleteForPVC(api, task.spec.pvc, task.record, f);
    if err {
      task.status := task.status.(state := Failed);
      return Answer(true, IMMEDIATE, true);
    }
    if !done {
      return Answer(true, QUICK, false);
    }
    task.status := task.status.(state := Completed);
    return Answer(true, IMMEDIATE, false);
  }

  /** The status write a stage's answer asks for, and the end of the pass. */
  method StepStatus(api: ApiServer, task: TaskObject, a: Answer, f: Faults, ghost before: World, ghost o: Outcome)
    returns (handled: Option<Verdict>)
    requires a == PASS_ON || Ended(before, api.w, task, a, f, o)
    modifies api
    ensures a == PASS_ON ==> handled == None && api.w == old(api.w)
    ensures a != PASS_ON ==> handled == Some(o.verdict) && Enacts(before, api.w, task.key, o)
  {
    var failed := false;
    if a.Writes() {
      failed := api.UpdateStatus(task.key, task.status, f.stepWrite);
    }
    handled := Step(a, failed);
  }

  /** The object write a stage's answer asks for. The stage has already written the object itself, so this write
      finds it as it is, or gone, and changes nothing. */
  method StepObject(api: ApiServer, task: TaskObject, a: Answer, f: Faults) returns (handled: Option<Verdict>)
    requires a == PASS_ON || a.Ends()
    requires a.Writes() && task.key in api.w.tasks ==>
      api.w.tasks[task.key] == task.Value() && !(task.deleting && task.finalizers == {})
    modifies api
    ensures handled.None? <==> a == PASS_ON
    ensures api.w == old(api.w)
    ensures handled.Some? ==>
      handled.value == if a.err || !f.stepWrite || task.key !in api.w.tasks then Error else RequeueAfter(a.period)
  {
    var failed := false;
    if a.Writes() {
      assert task.key in api.w.tasks ==> api.w.tasks[task.key := task.Value()] == api.w.tasks;
      failed := api.Update(task.key, task.finalizers, task.record, f.stepWrite);
    }
    handled := Step(a, failed);
  }

  /** The row of the table that the stage and its step have carried out, or nothing. */
  ghost predicate CarriedOut(before: World, now: World, task: TaskObject, was: Task, row: Option<Outcome>,
                             handled: Option<Verdict>)
    reads task
  {
    match row
    case None => handled == None && now == before && task.Value() == was
    case Some(o) => handled == Some(o.verdict) && Enacts(before, now, task.key, o)
  }

  method ReleaseFinished(api: ApiServer, task: TaskObject, f: Faults) returns (handled: Option<Verdict>)
    requires task.key in api.w.tasks && api.w.tasks[task.key] == task.Value()
    modifies api, task
    ensures var t := old(task.Value());
      CarriedOut(old(api.w), api.w, task, t, if t.Finished() && t.Guarded() then LifecycleRow(t, f) else None, handled)
  {
    var a := RemoveFinalizerIfFinished(api, task, f);
    handled := StepObject(api, task, a, f);
  }

  method FinishDeletion(api: ApiServer, task: TaskObject, f: Faults) returns (handled: Option<Verdict>)
    requires task.key in api.w.tasks && api.w.tasks[task.key] == task.Value()
    requires task.deleting ==> task.finalizers != {}
    modifies api
    ensures var t := task.Value();
      CarriedOut(old(api.w), api.w, task, t, if t.deleting && !t.Guarded() then LifecycleRow(t, f) else None, handled)
  {
    var a := CheckDeleteResource(task);
    var failed := false;
    if a.Writes() {
      failed := api.Delete(task.key, f.stepWrite);
    }
    handled := Step(a, failed);
  }

  method GuardNew(api: ApiServer, task: TaskObject, f: Faults) returns (handled: Option<Verdict>)
    requires task.key in api.w.tasks && api.w.tasks[task.key] == task.Value()
    modifies api, task
    ensures var t := old(task.Value());
      !(t.Finished() && t.Guarded()) && !(t.deleting && !t.Guarded()) ==>
        CarriedOut(old(api.w), api.w, task, t, LifecycleRow(t, f), handled)
  {
    var a := AddFinalizerIfNew(api, task, f);
    handled := StepObject(api, task, a, f);
  }

  /** The stages that deal with finalizers and deletion, each with its step. */
  method CheckLifecycle(api: ApiServer, task: TaskObject, f: Faults) returns (handled: Option<Verdict>)
    requires task.key in api.w.tasks && api.w.tasks[task.key] == task.Value()
    requires task.deleting ==> task.finalizers != {}
    modifies api, task
    ensures CarriedOut(old(api.w), api.w, task, old(task.Value()), LifecycleRow(old(task.Value()), f), handled)
  {
    handled := ReleaseFinished(api, task, f);
    if handled.Some? {
      return;
    }
    handled := FinishDeletion(api, task, f);
    if handled.Some? {
      return;
    }
    handled := GuardNew(api, task, f);
  }

  /** The stage chain of one pass. */
  method RunStages(api: ApiServer, k: Key, f: Faults) returns (verdict: Verdict)
    requires UniqueUids(api.w)
    requires forall t :: t in api.w.tasks && api.w.tasks[t].deleting ==> api.w.tasks[t].finalizers != {}
    modifies api
    ensures var pass := TaskPass(old(api.w), k, f);
      Enacts(old(api.w), api.w, k, pass) && verdict == pass.verdict
  {
    // an unreadable task is retried; for a missing one a delete is sent that finds nothing
    if k !in api.w.tasks || !f.getTask {
      return Error;
    }
    ghost var w0 := api.w;
    ghost var pass := TaskPass(w0, k, f);
    var task := new TaskObject(k, api.w.tasks[k]);

    var handled := CheckLifecycle(api, task, f);
    if handled.Some? {
      return handled.value;
    }

    var a := Init(api, task, f);
    handled := StepStatus(api, task, a, f, w0, pass);
    if handled.Some? {
      return handled.value;
    }

    a := CheckTaskScaleDown(api, task, f);
    handled := StepStatus(api, task, a, f, w0, pass);
    if handled.Some? {
      return handled.value;
    }

    a := Start(api, task, f);
    handled := StepStatus(api, task, a, f, w0, pass);
    if handled.Some? {
      return handled.value;
    }

    a := UpdateTaskStatus(api, task, f);
    handled := StepStatus(api, task, a, f, w0, pass);
    if handled.Some? {
      return handled.value;
    }

    a := CheckTaskScaleUp(api, task, f);
    handled := StepStatus(api, task, a, f, w0, pass);
    if handled.Some? {
      return handled.value;
    }
    return Done;
  }

  /** One pass over the task named `k`: it takes the cluster exactly to the state that runs of passes continue from. */
  method Reconcile(api: ApiServer, k: Key, f: Faults) returns (verdict: Verdict)
    requires UniqueUids(api.w)
    requires forall t :: t in api.w.tasks && api.w.tasks[t].deleting ==> api.w.tasks[t].finalizers != {}
    modifies api
    ensures var pass := TaskPass(old(api.w), k, f);
      api.w == Enact(old(api.w), k, pass) && verdict == pass.verdict
  {
    verdict := RunStages(api, k, f);
    EnactsIsEnact(old(api.w), api.w, k, TaskPass(old(api.w), k, f));
  }
}
