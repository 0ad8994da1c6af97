/** Runs of the task system: reconcile passes of any number of tasks, interleaved with everything users,
    the job controller, the pod controllers and the Config reconciler can do in between. */
module TaskRuns {
  import opened Reconciling
  import opened Cluster
  import opened TaskTable
  import opened Workloads

  /** The cluster with three history variables. `created` counts the jobs the reconciler created, by name. `intended` is
      the replica count its user last chose for a workload. `lost` holds the workloads away from that count which were
      remembered only by a task that left the store. */
  datatype Sys = Sys(w: World, created: multiset<Key>, lost: set<Uid>, intended: map<Uid, nat>)

  datatype Event =
    | Pass(task: Key, f: Faults)
    | CreateTask(task: Key, spec: TaskSpec, state: State)
    | UserDeletes(task: Key)
    | FinalizerAdded(task: Key, name: string)
    | FinalizerRemoved(task: Key, name: string)
    | JobMoves(job: Key, status: Option<JobStatus>)
    | PodsMove(pods: seq<Pod>, replicaSets: map<Key, Option<OwnerRef>>)
    | ReadyMoves(workload: WKey, ready: nat)
    | UserScales(workload: WKey, replicas: nat)
    | WorkloadAdded(workload: WKey, added: Workload)
    | WorkloadRemoved(workload: WKey)

  /** The task has the workload on record with the count its user last chose. */
  ghost predicate Remembers(s: Sys, t: Task, u: Uid)
    requires u in s.intended
  {
    t.Holds(u) && t.record.value[u].replicas == s.intended[u]
  }

  /** Some workload of this UID is away from the count its user chose. */
  ghost predicate Away(s: Sys, u: Uid)
    requires u in s.intended
  {
    exists wk :: wk in s.w.workloads && s.w.workloads[wk].uid == u && s.w.workloads[wk].Desired() != s.intended[u]
  }

  /** The workload is away from its count, and task `k` is the only stored one that remembers it. */
  ghost predicate LastKeeper(s: Sys, k: Key, u: Uid)
    requires k in s.w.tasks
  {
    && u in s.intended && Remembers(s, s.w.tasks[k], u) && Away(s, u)
    && forall j :: j in s.w.tasks && j != k ==> !Remembers(s, s.w.tasks[j], u)
  }

  /** The counts that go when only `left` remains of task `k`. */
  ghost function Leaving(s: Sys, k: Key, left: Option<Task>): set<Uid> {
    if k in s.w.tasks && left == None && s.w.tasks[k].record.Some? then
      set u | u in s.w.tasks[k].record.value && LastKeeper(s, k, u)
    else {}
  }

  /** Somebody else changes the task object. */
  predicate Touches(e: Event) {
    e.UserDeletes? || e.FinalizerAdded? || e.FinalizerRemoved?
  }

  /** What is left of the task: a delete request only marks it while it has a finalizer, and with the last finalizer
      of a marked task the task goes. */
  function Touched(t: Task, e: Event): Option<Task>
    requires Touches(e)
  {
    match e
    case UserDeletes(_) => if t.finalizers == {} then None else Some(t.(deleting := true))
    case FinalizerAdded(_, name) => Some(t.(finalizers := t.finalizers + {OtherFinalizer(name)}))
    case FinalizerRemoved(_, name) =>
      var left := t.(finalizers := t.finalizers - {OtherFinalizer(name)});
      if t.deleting && left.finalizers == {} then None else Some(left)
  }

  ghost function Enacted(s: Sys, k: Key, o: Outcome): Sys {
    s.(w := Enact(s.w, k, o),
       created := if o.newJob then s.created + multiset{JobKey(k)} else s.created,
       lost := s.lost + Leaving(s, k, o.task))
  }

  ghost function AfterTouch(s: Sys, e: Event): Sys
    requires Touches(e)
  {
    if e.task in s.w.tasks then Enacted(s, e.task, Outcome(Touched(s.w.tasks[e.task], e), map[], false, Done)) else s
  }

  ghost function Apply(s: Sys, e: Event): Sys
    requires UniqueUids(s.w)
  {
    match e
    case Pass(k, f) => Enacted(s, k, TaskPass(s.w, k, f))
    case CreateTask(k, spec, state) =>
      s.(w := s.w.(tasks := s.w.tasks[k := Task(spec, {}, false, None, FRESH_STATUS.(state := state))]))
    case UserDeletes(_) => AfterTouch(s, e)
    case FinalizerAdded(_, _) => AfterTouch(s, e)
    case FinalizerRemoved(_, _) => AfterTouch(s, e)
    case JobMoves(job, status) =>
      s.(w := s.w.(jobs := if status.Some? then s.w.jobs[job := status.value] else s.w.jobs - {job}))
    case PodsMove(pods, replicaSets) => s.(w := s.w.(pods := pods, replicaSets := replicaSets))
    case ReadyMoves(k, ready) =>
      if k in s.w.workloads then s.(w := s.w.(workloads := s.w.workloads[k := s.w.workloads[k].(ready := ready)]))
      else s
    case UserScales(k, n) =>
      if k in s.w.workloads then
        var u := s.w.workloads[k].uid;
        s.(w := Patched(s.w, k, n), intended := s.intended[u := n], lost := s.lost - {u})
      else s
    case WorkloadAdded(k, wl) =>
      s.(w := s.w.(workloads := s.w.workloads[k := wl]), intended := s.intended[wl.uid := wl.Desired()])
    case WorkloadRemoved(k) => s.(w := s.w.(workloads := s.w.workloads - {k}))
  }

  ghost predicate HeldByAny(w: World, u: Uid) {
    exists k :: k in w.tasks && w.tasks[k].Holds(u)
  }

  /** What can happen at all: task names are not used twice, a task being deleted gets no further finalizer, new
      workloads have new UIDs, and ready replicas move towards the desired count. */
  ghost predicate Possible(s: Sys, e: Event) {
    match e
    case Pass(_, _) => true
    case CreateTask(k, _, state) => k !in s.w.tasks && s.created[JobKey(k)] == 0 && (state == Unset || state == Pending)
    case UserDeletes(_) => true
    case FinalizerAdded(k, _) => k in s.w.tasks ==> !s.w.tasks[k].deleting
    case FinalizerRemoved(_, _) => true
    case JobMoves(_, _) => true
    case PodsMove(_, _) => true
    case ReadyMoves(k, ready) =>
      && k in s.w.workloads
      && (|| s.w.workloads[k].ready <= ready <= s.w.workloads[k].Desired()
          || s.w.workloads[k].Desired() <= ready <= s.w.workloads[k].ready)
    case UserScales(k, _) => k in s.w.workloads
    case WorkloadAdded(k, wl) =>
      && k !in s.w.workloads && wl.uid !in s.lost && !HeldByAny(s.w, wl.uid)
      && forall j :: j in s.w.workloads ==> s.w.workloads[j].uid != wl.uid
    case WorkloadRemoved(_) => true
  }

  /** A system before its first task: every workload is at the count its user chose. */
  ghost predicate Start(s: Sys) {
    && UniqueUids(s.w)
    && s.w.tasks == map[] && s.created == multiset{} && s.lost == {}
    && forall k :: k in s.w.workloads ==>
         s.w.workloads[k].uid in s.intended && s.w.workloads[k].Desired() == s.intended[s.w.workloads[k].uid]
  }

  /** A run: each event is possible and leads to the next state. */
  ghost predicate IsRun(run: seq<Sys>, es: seq<Event>) {
    && |run| == |es| + 1
    && forall i :: 0 <= i < |es| ==>
      UniqueUids(run[i].w) && Possible(run[i], es[i]) && run[i + 1] == Apply(run[i], es[i])
  }

  /** What every stored task looks like, whatever the faults. */
  predicate TaskOk(k: Key, t: Task) {
    var s := t.status;
    && (s.initialized <==> s.state != Unset && s.state != Pending)
    && (!s.initialized ==> t.record == None && !s.scaledDown)
    && (s.initialized && !t.Finished() ==> t.Guarded())
    && (t.deleting ==> t.finalizers != {})
    && (s.jobRef == EMPTY_REF || s.jobRef == JobKey(k))
    && (!t.spec.stopPods ==> t.record == None)
    && (s.state == Completed ==> t.record == None)
    && (s.scaledUp ==> (s.state == ScalingUp || s.state == Completed) && t.record == None)
  }

  ghost predicate TasksOk(w: World) {
    && UniqueUids(w)
    && forall k :: k in w.tasks ==> TaskOk(k, w.tasks[k])
  }

  /** The transitions of the stored state. */
  predicate Edge(a: State, b: State) {
    || ((a == Unset || a == Pending) && b == ScalingDown)
    || (a == ScalingDown && b == Starting)
    || (a == Starting && b == Running)
    || (a == Running && (b == ScalingUp || b == Failed))
    || (a == ScalingUp && b == Completed)
  }

  /** What a pass may do to task `t`: take its state along an edge, or remove it while it has nothing on record or has
      finished; scale workloads it has on record, before or after; create the job, only from Starting and only under
      a free name; and it stores no status when it ends in an error. */
  ghost predicate Sound(w: World, k: Key, t: Task, o: Outcome) {
    && (forall wk :: wk in o.scaled ==> wk in w.workloads && Concerns(t, o, w.workloads[wk].uid))
    && (o.task.Some? ==> SoundTask(k, t, o))
    && (o.task == None ==> t.Finished() || !t.status.initialized)
    && (o.newJob ==> t.status.state == Starting && JobKey(k) !in w.jobs)
  }

  predicate Concerns(t: Task, o: Outcome, u: Uid) {
    t.Holds(u) || (o.task.Some? && o.task.value.Holds(u))
  }

  predicate SoundTask(k: Key, t: Task, o: Outcome)
    requires o.task.Some?
  {
    var next := o.task.value;
    && TaskOk(k, next) && next.spec == t.spec
    && (next.status.state == t.status.state || Edge(t.status.state, next.status.state))
    && (o.verdict == Error ==> next.status == t.status)
  }

  /** Scaling to zero what the task now has on record. */
  lemma RecordingSound(w: World, k: Key, t: Task, f: Faults, found: set<WKey>, o: Outcome)
    requires UniqueUids(w) && TaskOk(k, t) && t.status.state == ScalingDown && t.spec.stopPods
    requires forall wk :: wk in found ==> wk in w.workloads
    requires o.scaled == ToZero(found, f) && !o.newJob
    requires o.task.Some? && SoundTask(k, t, o) && o.task.value.record == Some(Originals(w, found))
    ensures Sound(w, k, t, o)
  {
    OriginalsAre(w, found);
  }

  lemma ScaleDownRowSound(w: World, k: Key, t: Task, f: Faults)
    requires UniqueUids(w) && TaskOk(k, t) && t.status.state == ScalingDown
    ensures Sound(w, k, t, ScaleDownRow(w, t, f))
  {
    var found := Found(w, t.spec.pvc, f.brokenOwners);
    if t.spec.stopPods && f.listPods && !t.status.scaledDown && found != {} && f.objectWrite {
      RecordingSound(w, k, t, f, found, ScaleDownRow(w, t, f));
    } else {
      assert ScaleDownRow(w, t, f).scaled == map[];
    }
  }

  lemma ScaleUpRowSound(w: World, k: Key, t: Task, f: Faults)
    requires TaskOk(k, t) && t.status.state == ScalingUp
    ensures Sound(w, k, t, ScaleUpRow(w, t, f))
  {
  }

  lemma JobRowsSound(w: World, k: Key, t: Task, f: Faults)
    requires TaskOk(k, t)
    ensures t.status.state == Starting ==> Sound(w, k, t, StartRow(w, k, t, f))
    ensures t.status.state == Running ==> Sound(w, k, t, RunningRow(w, k, t, f))
  {
    assert JobOf(k, t.status) == JobKey(k);
  }

  lemma IdlePassSound(w: World, k: Key, f: Faults)
    requires UniqueUids(w) && k in w.tasks && TaskOk(k, w.tasks[k])
    requires !f.getTask || !w.tasks[k].status.initialized || w.tasks[k].Finished()
    ensures Sound(w, k, w.tasks[k], TaskPass(w, k, f))
  {
  }

  lemma PassSound(w: World, k: Key, f: Faults)
    requires UniqueUids(w) && k in w.tasks && TaskOk(k, w.tasks[k])
    ensures Sound(w, k, w.tasks[k], TaskPass(w, k, f))
  {
    var t := w.tasks[k];
    if !f.getTask || !t.status.initialized || t.Finished() {
      IdlePassSound(w, k, f);
    } else {
      assert TaskPass(w, k, f) == TaskRow(w, k, t, f);
      if t.status.state == ScalingDown {
        ScaleDownRowSound(w, k, t, f);
      } else if t.status.state == ScalingUp {
        ScaleUpRowSound(w, k, t, f);
      } else {
        JobRowsSound(w, k, t, f);
      }
    }
  }

  lemma EnactKeepsTasksOk(w: World, k: Key, t: Task, o: Outcome)
    requires TasksOk(w) && Sound(w, k, t, o)
    ensures TasksOk(Enact(w, k, o))
  {
    var next := Enact(w, k, o);
    assert forall wk :: wk in next.workloads ==> wk in w.workloads && next.workloads[wk].uid == w.workloads[wk].uid;
  }

  /** Others change nothing but finalizers and the mark of deletion, and remove no task at work. */
  lemma TouchIsSound(w: World, e: Event)
    requires Touches(e) && e.task in w.tasks && TaskOk(e.task, w.tasks[e.task])
    ensures var t := w.tasks[e.task]; var left := Touched(t, e);
      && Sound(w, e.task, t, Outcome(left, map[], false, Done))
      && (left.Some? ==>
            left.value.status == t.status && left.value.record == t.record && left.value.spec == t.spec
            && left.value.Guarded() == t.Guarded())
  {
  }

  lemma EventKeepsTasksOk(s: Sys, e: Event)
    requires TasksOk(s.w) && Possible(s, e)
    ensures TasksOk(Apply(s, e).w)
  {
    if e.Pass? {
      if e.task in s.w.tasks {
        PassSound(s.w, e.task, e.f);
        EnactKeepsTasksOk(s.w, e.task, s.w.tasks[e.task], TaskPass(s.w, e.task, e.f));
      } else {
        MissingTaskPass(s, e.task, e.f);
      }
    } else if Touches(e) {
      if e.task in s.w.tasks {
        TouchIsSound(s.w, e);
        EnactKeepsTasksOk(s.w, e.task, s.w.tasks[e.task], Outcome(Touched(s.w.tasks[e.task], e), map[], false, Done));
      }
    }
  }

  /** Only its own passes and those who touch it change a stored task. */
  lemma OtherEventKeepsTask(s: Sys, e: Event, k: Key)
    requires UniqueUids(s.w) && Possible(s, e) && k in s.w.tasks
    requires !((e.Pass? || Touches(e)) && e.task == k)
    ensures k in Apply(s, e).w.tasks && Apply(s, e).w.tasks[k] == s.w.tasks[k]
  {
  }

  lemma MissingTaskPass(s: Sys, k: Key, f: Faults)
    requires UniqueUids(s.w) && k !in s.w.tasks
    ensures Apply(s, Pass(k, f)) == s
  {
    var next := Apply(s, Pass(k, f));
    assert next.w.tasks == s.w.tasks;
    assert next.w.workloads == s.w.workloads;
  }

  lemma {:induction false} RunKeepsTasksOk(run: seq<Sys>, es: seq<Event>, i: nat)
    requires IsRun(run, es) && TasksOk(run[0].w) && i < |run|
    ensures TasksOk(run[i].w)
  {
    if i > 0 {
      RunKeepsTasksOk(run, es, i - 1);
      EventKeepsTasksOk(run[i - 1], es[i - 1]);
    }
  }
}
