/** The life of a task: the states it can go through, how many steps it takes, what it waits for, why it stays in the
    store until it has finished, and why it gets one job. */
module TaskProgress {
  import opened Reconciling
  import opened Cluster
  import opened Workloads
  import opened TaskTable
  import opened TaskRuns

  /* ---- states ---- */

  /** In any event the state of a stored task stays, or a pass of that very task takes it along one edge. */
  lemma StateMovesAlongEdges(s: Sys, e: Event, k: Key)
    requires TasksOk(s.w) && Possible(s, e) && k in s.w.tasks && k in Apply(s, e).w.tasks
    ensures var a := s.w.tasks[k].status.state; var b := Apply(s, e).w.tasks[k].status.state;
      a == b || (Edge(a, b) && e.Pass? && e.task == k)
  {
    if e.Pass? && e.task == k {
      PassSound(s.w, k, e.f);
    } else {
      OtherEventKeepsState(s, e, k);
    }
  }

  lemma OtherEventKeepsState(s: Sys, e: Event, k: Key)
    requires TasksOk(s.w) && Possible(s, e) && k in s.w.tasks && k in Apply(s, e).w.tasks
    requires !(e.Pass? && e.task == k)
    ensures Apply(s, e).w.tasks[k].status == s.w.tasks[k].status
  {
  }

  /* ---- the finalizer ---- */

  predicate AtWork(t: Task) {
    t.status.initialized && !t.Finished()
  }

  /** A task at work is not removed by any event, be it a delete request. */
  lemma AtWorkStays(s: Sys, e: Event, k: Key)
    requires TasksOk(s.w) && Possible(s, e) && k in s.w.tasks && AtWork(s.w.tasks[k])
    ensures s.w.tasks[k].Guarded() && k in Apply(s, e).w.tasks
  {
    assert TaskOk(k, s.w.tasks[k]);
    if e.Pass? && e.task == k {
      PassSound(s.w, k, e.f);
    } else if Touches(e) && e.task == k {
      TouchIsSound(s.w, e);
    } else {
      OtherEventKeepsTask(s, e, k);
    }
  }

  /** Over a run a task at work is still in the store, or it has been seen there Completed or Failed. */
  lemma {:induction false} LeavesOnlyFinished(run: seq<Sys>, es: seq<Event>, i: nat, j: nat, k: Key)
    requires IsRun(run, es) && TasksOk(run[0].w) && i <= j < |run|
    requires k in run[i].w.tasks && AtWork(run[i].w.tasks[k])
    ensures || (k in run[j].w.tasks && AtWork(run[j].w.tasks[k]) && run[j].w.tasks[k].Guarded())
            || exists m :: i < m <= j && k in run[m].w.tasks && run[m].w.tasks[k].Finished()
    decreases j - i
  {
    RunKeepsTasksOk(run, es, i);
    assert TaskOk(k, run[i].w.tasks[k]);
    if i < j {
      AtWorkStays(run[i], es[i], k);
      StateMovesAlongEdges(run[i], es[i], k);
      RunKeepsTasksOk(run, es, i + 1);
      assert TaskOk(k, run[i + 1].w.tasks[k]);
      if !run[i + 1].w.tasks[k].Finished() {
        LeavesOnlyFinished(run, es, i + 1, j, k);
      }
    }
  }

  /* ---- the end ---- */

  /** What a pass may still do to a finished task: drop the operator's finalizer, nothing else. */
  ghost predicate Quiet(t: Task, o: Outcome) {
    && o.scaled == map[] && !o.newJob
    && (o.task.Some? ==> o.task.value == t || o.task.value == t.(finalizers := t.finalizers - {TaskFinalizer}))
  }

  lemma FinishedPassIsQuiet(w: World, k: Key, f: Faults)
    requires UniqueUids(w) && k in w.tasks && TaskOk(k, w.tasks[k]) && w.tasks[k].Finished()
    ensures Quiet(w.tasks[k], TaskPass(w, k, f))
  {
  }

  /** If the event is a pass of the task, then it patches no workload, creates no job and touches at most the
      finalizer. */
  ghost predicate QuietEvent(s: Sys, e: Event, k: Key) {
    e.Pass? && e.task == k && k in s.w.tasks && UniqueUids(s.w) ==> Quiet(s.w.tasks[k], TaskPass(s.w, k, e.f))
  }

  lemma {:induction false} FinishedStaysSettled(run: seq<Sys>, es: seq<Event>, i: nat, j: nat, k: Key)
    requires IsRun(run, es) && TasksOk(run[0].w) && i <= j < |run|
    requires forall n :: i <= n <= j ==> k in run[n].w.tasks
    requires run[i].w.tasks[k].Finished()
    ensures Settled(run[i], run[j], k)
    decreases j - i
  {
    if i < j {
      RunKeepsTasksOk(run, es, i);
      assert k in run[i].w.tasks && k in run[i + 1].w.tasks;
      FinishedStays(run[i], es[i], k);
      FinishedStaysSettled(run, es, i + 1, j, k);
    }
  }

  lemma FinishedEventIsQuiet(run: seq<Sys>, es: seq<Event>, n: nat, k: Key)
    requires IsRun(run, es) && TasksOk(run[0].w) && n < |es|
    requires k in run[n].w.tasks && run[n].w.tasks[k].Finished()
    ensures QuietEvent(run[n], es[n], k)
  {
    RunKeepsTasksOk(run, es, n);
    if es[n].Pass? && es[n].task == k {
      FinishedPassIsQuiet(run[n].w, k, es[n].f);
    }
  }

  /** Completed and Failed are final: as long as the task is stored, its status and its record stay, its job is not
      created again, the operator's finalizer does not come back, and none of its passes patches a workload. */
  lemma FinishedIsFinal(run: seq<Sys>, es: seq<Event>, i: nat, j: nat, k: Key)
    requires IsRun(run, es) && TasksOk(run[0].w) && i <= j < |run|
    requires forall n :: i <= n <= j ==> k in run[n].w.tasks
    requires run[i].w.tasks[k].Finished()
    ensures Settled(run[i], run[j], k)
    ensures forall n :: i <= n < j ==> QuietEvent(run[n], es[n], k)
  {
    FinishedStaysSettled(run, es, i, j, k);
    forall n | i <= n < j
      ensures QuietEvent(run[n], es[n], k)
    {
      FinishedStaysSettled(run, es, i, n, k);
      FinishedEventIsQuiet(run, es, n, k);
    }
  }

  ghost predicate Settled(s: Sys, next: Sys, k: Key)
    requires k in s.w.tasks && k in next.w.tasks
  {
    var t := s.w.tasks[k];
    var u := next.w.tasks[k];
    && u.status == t.status && u.record == t.record && u.spec == t.spec
    && (u.Guarded() ==> t.Guarded())
    && next.created[JobKey(k)] == s.created[JobKey(k)]
  }

  lemma FinishedStays(s: Sys, e: Event, k: Key)
    requires TasksOk(s.w) && Possible(s, e) && k in s.w.tasks && k in Apply(s, e).w.tasks && s.w.tasks[k].Finished()
    ensures Settled(s, Apply(s, e), k)
  {
    if e.Pass? && e.task == k {
      FinishedPassIsQuiet(s.w, k, e.f);
    } else if Touches(e) && e.task == k {
      TouchIsSound(s.w, e);
    } else {
      OtherEventKeepsTask(s, e, k);
    }
    OtherPassLeavesJob(s, e, k);
  }

  lemma JobKeyIsInjective(a: Key, b: Key)
    ensures JobKey(a) == JobKey(b) ==> a == b
  {
    if JobKey(a) == JobKey(b) {
      assert a.name == JobKey(a).name[..|a.name|] && b.name == JobKey(b).name[..|b.name|];
    }
  }

  lemma OtherPassLeavesJob(s: Sys, e: Event, k: Key)
    requires TasksOk(s.w) && Possible(s, e)
    requires e.Pass? && e.task == k ==> !TaskPass(s.w, k, e.f).newJob
    ensures Apply(s, e).created[JobKey(k)] == s.created[JobKey(k)]
  {
    if e.Pass? {
      JobKeyIsInjective(e.task, k);
    }
  }

  /* ---- termination ---- */

  /** How far a task is from its end. */
  function Rank(t: Option<Task>): (r: nat)
    ensures r <= 10
  {
    match t
    case None => 0
    case Some(task) =>
      if task.Finished() then if task.Guarded() then 2 else 1
      else if !task.status.initialized then if task.Guarded() then 9 else 10
      else if task.status.state == ScalingDown then if task.status.scaledDown then 7 else 8
      else if task.status.state == Starting then 6
      else if task.status.state == Running then 5
      else if task.status.scaledUp then 3
      else 4
  }

  /** What a fault-free pass does not get past: somebody else's finalizer or nothing left to do, workloads that are
      still ready, a job template that does not parse, a job that has not ended. */
  predicate Waiting(w: World, k: Key, t: Task) {
    || (!t.Guarded() && (t.Finished() || t.deleting))
    || (t.status.state == ScalingDown && t.spec.stopPods && t.status.scaledDown
        && !NoneReady(w, Found(w, t.spec.pvc, {})))
    || (t.status.state == Starting && !t.spec.templateParses && JobKey(k) !in w.jobs)
    || (t.status.state == Running && JobKey(k) in w.jobs && w.jobs[JobKey(k)].succeeded == 0
        && w.jobs[JobKey(k)].failed == 0)
  }

  /** The job a well-formed task points at is always the one named after it. */
  lemma JobOfIsJobKey(k: Key, t: Task)
    requires TaskOk(k, t)
    ensures JobOf(k, t.status) == JobKey(k)
  {
  }

  /** The rank after a pass: never higher, and without failures lower exactly when the task is not waiting. */
  predicate Progresses(w: World, k: Key, t: Task, f: Faults, o: Outcome) {
    && Rank(o.task) <= Rank(Some(t))
    && (FaultFree(f) ==> (Rank(o.task) < Rank(Some(t)) <==> !Waiting(w, k, t)))
  }

  lemma ScaleRowsProgress(w: World, k: Key, t: Task, f: Faults)
    requires UniqueUids(w) && TaskOk(k, t)
    ensures t.status.state == ScalingDown ==> Progresses(w, k, t, f, ScaleDownRow(w, t, f))
    ensures t.status.state == ScalingUp ==> Progresses(w, k, t, f, ScaleUpRow(w, t, f))
  {
  }

  /** Whatever fails, a pass never takes a task further from its end; without failures it takes it nearer exactly
      when the task is not waiting. */
  lemma PassProgresses(w: World, k: Key, f: Faults)
    requires UniqueUids(w) && k in w.tasks && TaskOk(k, w.tasks[k])
    ensures Rank(TaskPass(w, k, f).task) <= Rank(Some(w.tasks[k]))
    ensures FaultFree(f) ==> (Rank(TaskPass(w, k, f).task) < Rank(Some(w.tasks[k])) <==> !Waiting(w, k, w.tasks[k]))
  {
    JobOfIsJobKey(k, w.tasks[k]);
    if w.tasks[k].status.state == ScalingDown || w.tasks[k].status.state == ScalingUp {
      ScaleRowsProgress(w, k, w.tasks[k], f);
    }
  }

  ghost function RankAt(s: Sys, k: Key): nat {
    Rank(if k in s.w.tasks then Some(s.w.tasks[k]) else None)
  }

  lemma EventKeepsRank(s: Sys, e: Event, k: Key)
    requires TasksOk(s.w) && Possible(s, e) && !(e.CreateTask? && e.task == k)
    ensures RankAt(Apply(s, e), k) <= RankAt(s, k)
  {
    if e.Pass? && e.task == k && k in s.w.tasks {
      PassProgresses(s.w, k, e.f);
    }
  }

  /** A fault-free pass over a stored task that has nothing to wait for. */
  ghost predicate UsefulPass(s: Sys, e: Event, k: Key) {
    e.Pass? && e.task == k && FaultFree(e.f) && k in s.w.tasks && !Waiting(s.w, k, s.w.tasks[k])
  }

  /** How many of the first `n` events are useful passes of task `k`. */
  ghost function UsefulPasses(run: seq<Sys>, es: seq<Event>, k: Key, n: nat): nat
    requires n <= |es| < |run|
  {
    if n == 0 then 0
    else UsefulPasses(run, es, k, n - 1) + if UsefulPass(run[n - 1], es[n - 1], k) then 1 else 0
  }

  /** A task ends within ten useful passes, whatever else happens in between. */
  lemma {:induction false} TasksTerminate(run: seq<Sys>, es: seq<Event>, k: Key, n: nat)
    requires IsRun(run, es) && TasksOk(run[0].w) && n <= |es|
    requires forall i :: 0 <= i < |es| ==> !(es[i].CreateTask? && es[i].task == k)
    ensures UsefulPasses(run, es, k, n) + RankAt(run[n], k) <= RankAt(run[0], k) <= 10
  {
    if n > 0 {
      TasksTerminate(run, es, k, n - 1);
      RunKeepsTasksOk(run, es, n - 1);
      EventKeepsRank(run[n - 1], es[n - 1], k);
      if UsefulPass(run[n - 1], es[n - 1], k) {
        PassProgresses(run[n - 1].w, k, es[n - 1].f);
      }
    }
  }

  /** A pass takes its task off the queue exactly when the task is finished, released and not being deleted: no
      unfinished task is ever forgotten by the queue. */
  lemma ParkedExactlyWhenFinished(w: World, k: Key, f: Faults)
    requires UniqueUids(w) && (k in w.tasks ==> TaskOk(k, w.tasks[k]))
    ensures TaskPass(w, k, f).verdict == Done <==>
      f.getTask && k in w.tasks && w.tasks[k].Finished() && !w.tasks[k].Guarded() && !w.tasks[k].deleting
  {
  }

  /* ---- one job ---- */

  /** A job goes away only when the task it was created for is not Starting. */
  ghost predicate JobsOutlastStarting(s: Sys, e: Event) {
    e.JobMoves? && e.status == None ==>
      forall k :: k in s.w.tasks && JobKey(k) == e.job ==> s.w.tasks[k].status.state != Starting
  }

  /** The reconciler has created the task's job. Only a task past its scale-down has one, and while the task does not
      know about it the job is still there. */
  ghost predicate JobKnown(s: Sys, k: Key)
    requires k in s.w.tasks
  {
    var state := s.w.tasks[k].status.state;
    s.created[JobKey(k)] > 0 ==>
      && state != Unset && state != Pending && state != ScalingDown
      && (state == Starting ==> JobKey(k) in s.w.jobs)
  }

  ghost predicate OneJobEach(s: Sys) {
    && (forall j :: s.created[j] <= 1)
    && (forall k :: k in s.w.tasks ==> JobKnown(s, k))
  }

  /** The job is created by exactly those passes over a Starting task that find its name free. */
  lemma JobIsCreatedExactly(w: World, k: Key, f: Faults)
    requires UniqueUids(w) && k in w.tasks && TaskOk(k, w.tasks[k])
    ensures TaskPass(w, k, f).newJob <==>
      && f.getTask && w.tasks[k].status.state == Starting && JobKey(k) !in w.jobs
      && w.tasks[k].spec.templateParses && f.createJob
  {
    JobOfIsJobKey(k, w.tasks[k]);
  }

  lemma OwnPassKeepsJobKnown(s: Sys, k: Key, o: Outcome)
    requires OneJobEach(s) && k in s.w.tasks && Sound(s.w, k, s.w.tasks[k], o)
    ensures var next := Enacted(s, k, o); next.created[JobKey(k)] <= 1 && (k in next.w.tasks ==> JobKnown(next, k))
  {
    assert JobKnown(s, k);
  }

  lemma OtherEventKeepsJobKnown(s: Sys, e: Event, k: Key)
    requires TasksOk(s.w) && Possible(s, e) && JobsOutlastStarting(s, e) && OneJobEach(s)
    requires k in Apply(s, e).w.tasks && e != Pass(k, if e.Pass? then e.f else NO_FAULTS)
    ensures JobKnown(Apply(s, e), k)
  {
    OtherPassLeavesJob(s, e, k);
    if k in s.w.tasks {
      StateMovesAlongEdges(s, e, k);
      assert JobKnown(s, k);
    }
  }

  lemma EventKeepsOneJob(s: Sys, e: Event)
    requires TasksOk(s.w) && Possible(s, e) && JobsOutlastStarting(s, e) && OneJobEach(s)
    ensures OneJobEach(Apply(s, e))
  {
    if e.Pass? && e.task in s.w.tasks {
      PassSound(s.w, e.task, e.f);
      OwnPassKeepsJobKnown(s, e.task, TaskPass(s.w, e.task, e.f));
    }
    forall k | k in Apply(s, e).w.tasks
      ensures JobKnown(Apply(s, e), k)
    {
      if !(e.Pass? && e.task == k) {
        OtherEventKeepsJobKnown(s, e, k);
      }
    }
  }

  /** Every task gets at most one job, however often the write of its status fails. */
  lemma {:induction false} AtMostOneJob(run: seq<Sys>, es: seq<Event>, i: nat)
    requires IsRun(run, es) && Start(run[0]) && i < |run|
    requires forall n :: 0 <= n < |es| ==> JobsOutlastStarting(run[n], es[n])
    ensures OneJobEach(run[i])
  {
    if i > 0 {
      AtMostOneJob(run, es, i - 1);
      RunKeepsTasksOk(run, es, i - 1);
      EventKeepsOneJob(run[i - 1], es[i - 1]);
    }
  }

  /** The pass that creates a job, but whose status write is refused. */
  ghost predicate CreatesUnstored(s: Sys, k: Key, f: Faults) {
    && UniqueUids(s.w) && k in s.w.tasks && TaskPass(s.w, k, f).newJob && !f.stepWrite
  }

  /** A job that vanishes before its task knows of it is created a second time. */
  lemma VanishedJobIsCreatedAgain(s: Sys, k: Key, f: Faults)
    requires TasksOk(s.w) && CreatesUnstored(s, k, f)
    ensures var s1 := Apply(s, Pass(k, f));
      && UniqueUids(s1.w)
      && var s2 := Apply(s1, JobMoves(JobKey(k), None));
      && !JobsOutlastStarting(s1, JobMoves(JobKey(k), None))
      && Apply(s2, Pass(k, f)).created[JobKey(k)] == s.created[JobKey(k)] + 2
  {
    var t := s.w.tasks[k];
    assert TaskOk(k, t);
    JobIsCreatedExactly(s.w, k, f);
    EventKeepsTasksOk(s, Pass(k, f));
    var s1 := Apply(s, Pass(k, f));
    assert TaskPass(s.w, k, f) == StartRow(s.w, k, t, f);
    assert s1.w.tasks[k] == t;
    var s2 := Apply(s1, JobMoves(JobKey(k), None));
    JobIsCreatedExactly(s2.w, k, f);
  }

  /* ---- a job template that does not parse ---- */

  lemma StaysStarting(s: Sys, e: Event, k: Key)
    requires TasksOk(s.w) && Possible(s, e) && k in s.w.tasks && s.w.tasks[k].status.state == Starting
    requires !s.w.tasks[k].spec.templateParses && JobKey(k) !in s.w.jobs
    ensures var next := Apply(s, e);
      && k in next.w.tasks && next.w.tasks[k].spec == s.w.tasks[k].spec
      && next.w.tasks[k].status == s.w.tasks[k].status && next.w.tasks[k].record == s.w.tasks[k].record
  {
    assert TaskOk(k, s.w.tasks[k]);
    if e.Pass? && e.task == k {
      JobOfIsJobKey(k, s.w.tasks[k]);
      assert TaskPass(s.w, k, e.f) == Broken(s.w.tasks[k]);
    } else if Touches(e) && e.task == k {
      TouchIsSound(s.w, e);
    } else {
      OtherEventKeepsTask(s, e, k);
    }
  }

  /** The code sets such a task to Failed, but returns an error with it, so that this is never stored: as long as no
      job of its name turns up, the task stays Starting and keeps its record, whatever else happens. */
  lemma {:induction false} UnparsableTemplateNeverFails(run: seq<Sys>, es: seq<Event>, i: nat, j: nat, k: Key)
    requires IsRun(run, es) && TasksOk(run[0].w) && i <= j < |run|
    requires k in run[i].w.tasks && run[i].w.tasks[k].status.state == Starting && !run[i].w.tasks[k].spec.templateParses
    requires forall n :: i <= n <= j ==> JobKey(k) !in run[n].w.jobs
    ensures k in run[j].w.tasks && run[j].w.tasks[k].status == run[i].w.tasks[k].status
      && run[j].w.tasks[k].record == run[i].w.tasks[k].record
    decreases j - i
  {
    if i < j {
      RunKeepsTasksOk(run, es, i);
      AtWorkStays(run[i], es[i], k);
      assert JobKey(k) !in run[i].w.jobs;
      StaysStarting(run[i], es[i], k);
      UnparsableTemplateNeverFails(run, es, i + 1, j, k);
    }
  }
}
