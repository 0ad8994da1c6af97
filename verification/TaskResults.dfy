/** What becomes of a job decides what becomes of its task. */
module TaskResults {
  import opened Reconciling
  import opened Cluster
  import opened Workloads
  import opened TaskTable
  import opened TaskRuns
  import opened TaskProgress

  /** The pass reads task and job, and its status is stored. */
  predicate Looks(f: Faults) {
    f.getTask && f.getJob && f.stepWrite
  }

  /** The job of the task has succeeded, be it that attempts of it have failed before. */
  predicate EndedWell(w: World, k: Key) {
    JobKey(k) in w.jobs && w.jobs[JobKey(k)].succeeded > 0
  }

  /** The job of the task is gone, or it has failed without any success. */
  predicate EndedBadly(w: World, k: Key) {
    JobKey(k) !in w.jobs || (w.jobs[JobKey(k)].succeeded == 0 && w.jobs[JobKey(k)].failed > 0)
  }

  /** A pass takes a Running task to ScalingUp exactly when it sees that the job ended well, and to Failed exactly when
      it sees that the job ended badly. Otherwise the task keeps Running. Its record stays in any case. */
  lemma JobDecides(w: World, k: Key, f: Faults)
    requires UniqueUids(w) && k in w.tasks && TaskOk(k, w.tasks[k]) && w.tasks[k].status.state == Running
    ensures var o := TaskPass(w, k, f);
      && o.task.Some? && o.task.value.record == w.tasks[k].record && o.scaled == map[] && !o.newJob
      && (o.task.value.status.state == ScalingUp <==> Looks(f) && EndedWell(w, k))
      && (o.task.value.status.state == Failed <==> Looks(f) && EndedBadly(w, k))
      && o.task.value.status.state in {Running, ScalingUp, Failed}
  {
    JobOfIsJobKey(k, w.tasks[k]);
  }

  /** The counters a task shows are those its job had when it was last looked at. The logs become its output at the
      first look that finds the job ended and can read them, and then stay. */
  lemma JobIsReported(w: World, k: Key, f: Faults)
    requires UniqueUids(w) && k in w.tasks && TaskOk(k, w.tasks[k]) && w.tasks[k].status.state == Running
    ensures var o := TaskPass(w, k, f); var t := w.tasks[k]; var seen := Looks(f) && JobKey(k) in w.jobs;
      && o.task.Some?
      && o.task.value.status.jobStatus == (if seen then w.jobs[JobKey(k)] else t.status.jobStatus)
      && o.task.value.status.output ==
         (if seen && (EndedWell(w, k) || EndedBadly(w, k)) && t.status.output == "" && f.logs.Some? then f.logs.value
          else t.status.output)
      && o.task.value.status.jobRef == t.status.jobRef
  {
    JobOfIsJobKey(k, w.tasks[k]);
  }

  /** Event `n` is the pass that took the task from Running on account of its job. */
  ghost predicate Took(run: seq<Sys>, es: seq<Event>, n: nat, k: Key, well: bool) {
    && n < |es| < |run| && es[n].Pass? && es[n].task == k
    && k in run[n].w.tasks && run[n].w.tasks[k].status.state == Running
    && (if well then EndedWell(run[n].w, k) else EndedBadly(run[n].w, k))
  }

  /** Such a pass was among the first `i` events. */
  ghost predicate TookBefore(run: seq<Sys>, es: seq<Event>, i: nat, k: Key, well: bool) {
    exists n :: 0 <= n < i && Took(run, es, n, k, well)
  }

  predicate Succeeded(s: State) {
    s == ScalingUp || s == Completed
  }

  predicate SameResult(s: Sys, next: Sys, k: Key)
    requires k in next.w.tasks
  {
    && k in s.w.tasks
    && var a := s.w.tasks[k].status.state; var b := next.w.tasks[k].status.state;
       a == b || (Succeeded(a) && Succeeded(b))
  }

  lemma StateChanges(run: seq<Sys>, es: seq<Event>, i: nat, k: Key)
    requires IsRun(run, es) && TasksOk(run[0].w) && i < |es| && k in run[i + 1].w.tasks
    requires var b := run[i + 1].w.tasks[k].status.state; Succeeded(b) || b == Failed
    requires !SameResult(run[i], run[i + 1], k)
    ensures Took(run, es, i, k, Succeeded(run[i + 1].w.tasks[k].status.state))
  {
    RunKeepsTasksOk(run, es, i);
    if k in run[i].w.tasks {
      StateMovesAlongEdges(run[i], es[i], k);
      JobDecides(run[i].w, k, es[i].f);
    } else {
      NewTasksAreFresh(run[i], es[i], k);
    }
  }

  lemma NewTasksAreFresh(s: Sys, e: Event, k: Key)
    requires UniqueUids(s.w) && Possible(s, e) && k !in s.w.tasks
    ensures k in Apply(s, e).w.tasks ==>
      Apply(s, e).w.tasks[k].status.state == Unset || Apply(s, e).w.tasks[k].status.state == Pending
  {
    if e.Pass? && e.task == k {
      MissingTaskPass(s, k, e.f);
    }
  }

  /** Over every run a task is Completed, or about to be, only after a pass that saw its job succeed; and it is Failed
      only after a pass that saw its job gone, or failed without any success. */
  lemma {:induction false} ResultsAreTheJobs(run: seq<Sys>, es: seq<Event>, i: nat, k: Key)
    requires IsRun(run, es) && Start(run[0]) && i < |run| && k in run[i].w.tasks
    requires var state := run[i].w.tasks[k].status.state; Succeeded(state) || state == Failed
    ensures TookBefore(run, es, i, k, Succeeded(run[i].w.tasks[k].status.state))
  {
    if i > 0 {
      if SameResult(run[i - 1], run[i], k) {
        ResultsAreTheJobs(run, es, i - 1, k);
      } else {
        StateChanges(run, es, i - 1, k);
        assert Took(run, es, i - 1, k, Succeeded(run[i].w.tasks[k].status.state));
      }
    }
  }

  /** The job a status refers to: each part of the reference counts for itself, and an empty one stands for the task's
      namespace, or for the name derived from its own. */
  lemma ReferenceIsFollowed(k: Key, status: Status, ns: string, name: string)
    requires ns != "" && name != ""
    ensures JobOf(k, status.(jobRef := Key(ns, name))) == Key(ns, name)
    ensures JobOf(k, status.(jobRef := Key("", name))) == Key(k.ns, name)
    ensures JobOf(k, status.(jobRef := Key(ns, ""))) == Key(ns, k.name + "-job")
    ensures JobOf(k, status.(jobRef := Key("", ""))) == Key(k.ns, k.name + "-job")
  {
  }

  /* ---- the other stages ---- */

  /** A pass takes a task out of ScalingDown exactly when its status is stored and there is nothing to wait for: pods
      may stay, or none was found before the scale-down, or none that is found reports a ready replica after it. It
      stores that the task scaled down exactly when it also recorded the counts of the workloads it found. */
  lemma ScaleDownDecides(w: World, k: Key, f: Faults)
    requires UniqueUids(w) && k in w.tasks && TaskOk(k, w.tasks[k]) && w.tasks[k].status.state == ScalingDown
    ensures var t := w.tasks[k]; var o := TaskPass(w, k, f); var found := Found(w, t.spec.pvc, f.brokenOwners);
      && o.task.Some? && !o.newJob
      && (o.task.value.status.state == Starting <==>
            && f.getTask && f.stepWrite
            && (t.spec.stopPods ==>
                  f.listPods && if t.status.scaledDown then forall x :: x in found ==> w.workloads[x].ready == 0
                                else found == {}))
      && o.task.value.status.state in {ScalingDown, Starting}
      && (o.task.value.status.scaledDown <==>
            t.status.scaledDown || (ScalesNow(w, t, f) && f.stepWrite))
      && o.task.value.record == (if ScalesNow(w, t, f) then Some(Originals(w, found)) else t.record)
      && o.scaled.Keys == if ScalesNow(w, t, f) then found - f.refused else {}
  {
  }

  /** The pass finds workloads to scale down, and records their counts. */
  predicate ScalesNow(w: World, t: Task, f: Faults) {
    && f.getTask && t.spec.stopPods && !t.status.scaledDown && f.listPods && f.objectWrite
    && Found(w, t.spec.pvc, f.brokenOwners) != {}
  }

  /** A pass takes a task out of Starting exactly when its job is there, be it found, in the way of its creation or just
      created, and its status is stored; and only a job the pass has created gets into the status. */
  lemma StartDecides(w: World, k: Key, f: Faults)
    requires UniqueUids(w) && k in w.tasks && TaskOk(k, w.tasks[k]) && w.tasks[k].status.state == Starting
    ensures var t := w.tasks[k]; var o := TaskPass(w, k, f);
      var known := f.getJob && JobKey(k) in w.jobs; var creates := t.spec.templateParses && f.createJob;
      && o.task.Some? && o.task.value.record == t.record && o.scaled == map[]
      && (o.newJob <==> f.getTask && !known && creates && JobKey(k) !in w.jobs)
      && o.task.value.status ==
         (if f.getTask && f.stepWrite && (known || creates) then
            t.status.(state := Running, jobRef := if o.newJob then JobKey(k) else t.status.jobRef)
          else t.status)
  {
    JobOfIsJobKey(k, w.tasks[k]);
  }

  /** A pass takes a task out of ScalingUp exactly when its status is stored and it finds no record, or drops one of
      which no workload is left to restore. Otherwise the workloads are asked to scale up first; nothing then waits
      for them to be ready, since the record is gone by which that is checked. */
  lemma ScaleUpDecides(w: World, k: Key, f: Faults)
    requires UniqueUids(w) && k in w.tasks && TaskOk(k, w.tasks[k]) && w.tasks[k].status.state == ScalingUp
    ensures var t := w.tasks[k]; var o := TaskPass(w, k, f);
      var none := t.record.Some? && Restorable(w, t.spec.pvc.ns, t.record.value, f) == {};
      && o.task.Some? && !o.newJob
      && (o.task.value.status.state == Completed <==>
            f.getTask && f.stepWrite && (t.record == None || (f.recordParses && f.objectWrite && none)))
      && o.task.value.status.state in {ScalingUp, Completed}
      && (o.task.value.status.scaledUp <==>
            || t.status.scaledUp
            || (t.record.Some? && f.getTask && f.recordParses && f.objectWrite && f.stepWrite && !none))
      && (o.task.value.record == None <==> t.record == None || (f.getTask && f.recordParses && f.objectWrite))
  {
  }

  /** Were the record still there, Completed would wait for every recorded workload that is found to be as ready as its
      count says. */
  lemma ReadinessIsByTheRecord(w: World, t: Task, f: Faults)
    requires t.spec.stopPods && t.record.Some? && t.status.state == ScalingUp && t.status.scaledUp
    requires f.recordParses && f.listPods && f.stepWrite
    ensures var o := ScaleUpRow(w, t, f);
      && o.task.Some? && o.scaled == map[]
      && (o.task.value.status.state == Completed <==>
            forall k :: k in Found(w, t.spec.pvc, f.brokenOwners) && w.workloads[k].uid in t.record.value ==>
              w.workloads[k].ready >= t.record.value[w.workloads[k].uid].replicas)
  {
  }

  /** Finalizers of others are neither added nor taken off, and no task goes that has one. */
  lemma OthersFinalizersStay(w: World, k: Key, f: Faults)
    requires UniqueUids(w) && k in w.tasks
    ensures var o := TaskPass(w, k, f); var others := w.tasks[k].finalizers - {TaskFinalizer};
      if o.task.Some? then o.task.value.finalizers - {TaskFinalizer} == others else others == {}
  {
    var t := w.tasks[k];
    if f.getTask {
      LifecycleKeepsOthers(t, f);
      if LifecycleRow(t, f) == None {
        RowsKeepFinalizers(w, k, t, f);
      }
    }
  }

  lemma LifecycleKeepsOthers(t: Task, f: Faults)
    ensures var o := LifecycleRow(t, f); var others := t.finalizers - {TaskFinalizer};
      o.Some? ==> if o.value.task.Some? then o.value.task.value.finalizers - {TaskFinalizer} == others else others == {}
  {
  }

  lemma RowsKeepFinalizers(w: World, k: Key, t: Task, f: Faults)
    requires UniqueUids(w) && LifecycleRow(t, f) == None
    ensures TaskRow(w, k, t, f).task.Some? && TaskRow(w, k, t, f).task.value.finalizers == t.finalizers
  {
    ScaleRowsKeepFinalizers(w, t, f);
    JobRowsKeepFinalizers(w, k, t, f);
  }

  predicate KeepsFinalizers(t: Task, o: Outcome) {
    o.task.Some? && o.task.value.finalizers == t.finalizers
  }

  lemma ScaleRowsKeepFinalizers(w: World, t: Task, f: Faults)
    requires UniqueUids(w)
    ensures KeepsFinalizers(t, ScaleDownRow(w, t, f)) && KeepsFinalizers(t, ScaleUpRow(w, t, f))
  {
  }

  lemma JobRowsKeepFinalizers(w: World, k: Key, t: Task, f: Faults)
    ensures KeepsFinalizers(t, StartRow(w, k, t, f)) && KeepsFinalizers(t, RunningRow(w, k, t, f))
  {
  }

  /* ---- when a task is looked at again ---- */

  /** Its workloads have just been scaled down, or some of those found are ready still. */
  ghost predicate AwaitsWorkloads(w: World, t: Task) {
    var found := Found(w, t.spec.pvc, {});
    && t.status.state == ScalingDown && t.spec.stopPods
    && if t.status.scaledDown then !NoneReady(w, found) else found != {}
  }

  /** A pass without failures ends in an error only over a template that does not parse, or after the removal of the
      task; it leaves the queue to a task that has finished and been released; and it has the task looked at again
      after five seconds for the sake of its workloads, after thirty for the sake of its job, and otherwise after two.
      */
  lemma NextLook(w: World, k: Key, f: Faults)
    requires UniqueUids(w) && k in w.tasks && TaskOk(k, w.tasks[k]) && FaultFree(f)
    ensures var t := w.tasks[k]; var o := TaskPass(w, k, f);
      o.verdict ==
      if t.Finished() && t.Guarded() then if o.task == None then Error else RequeueAfter(2)
      else if t.deleting && !t.Guarded() then RequeueAfter(2)
      else if t.Finished() then Done
      else if AwaitsWorkloads(w, t) then RequeueAfter(5)
      else if t.status.state == Starting && !t.spec.templateParses && JobKey(k) !in w.jobs then Error
      else if t.status.state == Running && JobKey(k) in w.jobs then RequeueAfter(30)
      else RequeueAfter(2)
  {
    JobOfIsJobKey(k, w.tasks[k]);
    if w.tasks[k].status.state == ScalingDown && w.tasks[k].Guarded() {
      assert TaskPass(w, k, f) == ScaleDownRow(w, w.tasks[k], f);
    }
  }
}
