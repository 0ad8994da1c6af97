/** Inputs at which the failing sides of the exactness results occur: one workload of three replicas behind one claim,
    and one or two tasks over it. */
module TaskWitnesses {
  import opened Reconciling
  import opened Cluster
  import opened Workloads
  import opened TaskTable
  import opened TaskRuns
  import opened TaskAccounts
  import opened TaskConservation
  import opened TaskWindow
  import opened TaskOverlap

  const CLAIM := Key("n", "data")
  const APP := WKey(StatefulSet, Key("n", "app"))
  const POD := Pod(Key("n", "app-0"), [Some("data")], Some(OwnerRef(StatefulSetOwner, "app")))
  const FIRST := Key("n", "first")
  const SECOND := Key("n", "second")

  function Recorded3(): Option<Record> {
    Some(map["u" := Info(StatefulSet, "app", 3)])
  }

  function Recorded0(): Option<Record> {
    Some(map["u" := Info(StatefulSet, "app", 0)])
  }

  /** A task over the claim in some state of its life. */
  function TaskIn(state: State, scaledDown: bool, scaledUp: bool, record: Option<Record>, jobRef: Key,
                  jobStatus: JobStatus): Task
  {
    Task(TaskSpec(true, CLAIM, true), {TaskFinalizer}, false, record,
         Status(state, jobRef, jobStatus, true, scaledDown, scaledUp, ""))
  }

  function Plain(state: State, scaledDown: bool, record: Option<Record>): Task {
    TaskIn(state, scaledDown, false, record, EMPTY_REF, NO_JOB_STATUS)
  }

  /** The cluster with these tasks, the workload with these replica counts, and these pods and jobs. */
  predicate Shop(s: Sys, tasks: map<Key, Task>, replicas: nat, ready: nat, pods: seq<Pod>, jobs: map<Key, JobStatus>) {
    && s.w == World(tasks, map[APP := Workload("u", Some(replicas), ready)], map[], pods, jobs)
    && s.lost == {} && s.intended == map["u" := 3]
  }

  lemma AppIsFound(s: Sys, tasks: map<Key, Task>, replicas: nat, ready: nat, jobs: map<Key, JobStatus>)
    requires Shop(s, tasks, replicas, ready, [POD], jobs)
    ensures UniqueUids(s.w) && Found(s.w, CLAIM, {}) == {APP}
    ensures Originals(s.w, {APP}) == map["u" := Info(StatefulSet, "app", replicas)]
  {
    assert POD in s.w.pods && POD.volumes[0] == Some("data");
    assert Leads(s.w, POD, CLAIM, {}, APP);
    assert APP in Found(s.w, CLAIM, {});
    OriginalsAre(s.w, {APP});
  }

  /** The pass puts the task into this state and sets the workload to this count. */
  lemma PassTo(s: Sys, tasks: map<Key, Task>, replicas: nat, ready: nat, pods: seq<Pod>, jobs: map<Key, JobStatus>,
               k: Key, f: Faults, t: Task, count: nat)
    requires Shop(s, tasks, replicas, ready, pods, jobs) && UniqueUids(s.w) && k in tasks
    requires var o := TaskPass(s.w, k, f);
      o.task == Some(t) && count == if APP in o.scaled then o.scaled[APP] else replicas
    ensures Shop(Apply(s, Pass(k, f)), tasks[k := t], count, ready, pods, JobsAfter(s.w, k, TaskPass(s.w, k, f)))
  {
    var next := Apply(s, Pass(k, f));
    assert next.w.workloads == map[APP := Workload("u", Some(count), ready)];
  }

  /** The workload is at zero, and only the first task has it on record. */
  lemma FirstRemembers(s: Sys, ready: nat)
    requires TasksOk(s.w) && s.w.workloads == map[APP := Workload("u", Some(0), ready)]
    requires s.lost == {} && s.intended == map["u" := 3]
    requires FIRST in s.w.tasks && s.w.tasks[FIRST].record == Recorded3() && s.w.tasks[FIRST].spec.pvc == CLAIM
    requires !Unscaled(s.w.tasks[FIRST])
    requires forall k :: k in s.w.tasks && k != FIRST ==> s.w.tasks[k].record == None
    ensures Inv(s)
  {
    assert Remembers(s, s.w.tasks[FIRST], "u");
    assert CountKept(s, s.w.workloads[APP]);
  }

  /* ---- a workload behind a ReplicaSet ---- */

  const WEB := WKey(Deployment, Key("n", "web"))
  const WEB_POD := Pod(Key("n", "web-1-a"), [None, Some("data")], Some(OwnerRef(ReplicaSetOwner, "web-1")))

  /** A task is about to scale down; its claim is mounted by a pod of the first ReplicaSet of a Deployment, which leaves
      its count out. */
  function BehindReplicaSet(): World {
    World(map[FIRST := Plain(ScalingDown, false, None)], map[WEB := Workload("w", None, 1)],
          map[Key("n", "web-1") := Some(OwnerRef(DeploymentOwner, "web"))], [WEB_POD], map[])
  }

  lemma WebIsFound()
    ensures var w := BehindReplicaSet();
      UniqueUids(w) && Found(w, CLAIM, {}) == {WEB} && Originals(w, {WEB}) == map["w" := Info(Deployment, "web", 1)]
  {
    var w := BehindReplicaSet();
    assert WEB_POD in w.pods && WEB_POD.volumes[1] == Some("data");
    FoundExactly(w, CLAIM, {}, WEB);
    assert Found(w, CLAIM, {}) == {WEB};
    OriginalsAre(w, {WEB});
  }

  /** The Deployment is found, its count recorded, and it is taken to zero. */
  lemma DeploymentIsScaledDown()
    ensures UniqueUids(BehindReplicaSet())
    ensures var o := TaskPass(BehindReplicaSet(), FIRST, NO_FAULTS);
      && o.task == Some(Plain(ScalingDown, true, Some(map["w" := Info(Deployment, "web", 1)])))
      && o.scaled == map[WEB := 0]
  {
    WebIsFound();
    WebIsScaledDown(BehindReplicaSet());
  }

  lemma WebIsScaledDown(w: World)
    requires UniqueUids(w) && w.tasks == map[FIRST := Plain(ScalingDown, false, None)]
    requires Found(w, CLAIM, {}) == {WEB} && Originals(w, {WEB}) == map["w" := Info(Deployment, "web", 1)]
    ensures var o := TaskPass(w, FIRST, NO_FAULTS);
      && o.task == Some(Plain(ScalingDown, true, Some(map["w" := Info(Deployment, "web", 1)])))
      && o.scaled == map[WEB := 0]
  {
    assert TaskPass(w, FIRST, NO_FAULTS) == ScaleDownRow(w, w.tasks[FIRST], NO_FAULTS);
  }

  /* ---- a scale-down whose status write is refused ---- */

  /** The only task is about to scale down. */
  function BeforeScaleDown(): Sys {
    Sys(World(map[FIRST := Plain(ScalingDown, false, None)], map[APP := Workload("u", Some(3), 3)], map[], [POD],
      map[]),
        multiset{}, {}, map["u" := 3])
  }

  const NOT_STORED := NO_FAULTS.(stepWrite := false)

  /** Its scale-down is not stored, the retry records the zero, and the three replicas are forgotten. */
  lemma UnstoredScaleDownForgets()
    ensures var s := BeforeScaleDown();
      && Inv(s) && ScalesDown(s.w, FIRST, NOT_STORED) && Exclusive(s, FIRST, NOT_STORED)
      && UniqueUids(Apply(s, Pass(FIRST, NOT_STORED)).w)
      && !Conserved(Apply(Apply(s, Pass(FIRST, NOT_STORED)), Pass(FIRST, Retry(NOT_STORED))))
  {
    var s := BeforeScaleDown();
    BeforeScaleDownIsKept();
    AppIsFound(s, s.w.tasks, 3, 3, map[]);
    NothingStoredOrKept();
    ScaleDownConservesExactly(s, FIRST, NOT_STORED);
  }

  lemma NothingStoredOrKept()
    ensures UniqueUids(BeforeScaleDown().w) && !StoredOrKept(BeforeScaleDown(), FIRST, NOT_STORED)
  {
    var s := BeforeScaleDown();
    AppIsFound(s, s.w.tasks, 3, 3, map[]);
    assert NOT_STORED.brokenOwners == {} && APP in Found(s.w, CLAIM, {}) - NOT_STORED.refused;
    assert !KeptByOthers(s, FIRST, "u");
  }

  lemma BeforeScaleDownIsKept()
    ensures Inv(BeforeScaleDown())
  {
    var s := BeforeScaleDown();
    assert TasksOk(s.w);
    assert CountKept(s, s.w.workloads[APP]);
    assert !exists u :: s.w.tasks[FIRST].Holds(u);
  }

  /* ---- an outdated record ---- */

  /** The first task failed with three replicas on record. Its user has chosen five since; the second task has these on
      record and is about to restore them. */
  function Outdated(): Sys {
    Sys(World(map[FIRST := Plain(State.Failed, true, Recorded3()).(finalizers := {}),
                  SECOND := Plain(ScalingUp, true, Recorded5())],
              map[APP := Workload("u", Some(0), 0)], map[], [POD], map[]),
        multiset{}, {}, map["u" := 5])
  }

  function Recorded5(): Option<Record> {
    Some(map["u" := Info(StatefulSet, "app", 5)])
  }

  const PATCH_REFUSED := NO_FAULTS.(refused := {APP})

  lemma OutdatedTasksAreOk()
    ensures TasksOk(Outdated().w)
  {
  }

  lemma OutdatedIsKept()
    ensures Inv(Outdated())
  {
    OutdatedTasksAreOk();
    SecondRemembers(Outdated());
  }

  /** The workload is at zero, and of the tasks at work only the second one has it on record. */
  lemma SecondRemembers(s: Sys)
    requires TasksOk(s.w) && s.w.workloads == map[APP := Workload("u", Some(0), 0)] && s.intended == map["u" := 5]
    requires SECOND in s.w.tasks && s.w.tasks[SECOND] == Plain(ScalingUp, true, Recorded5())
    requires forall k :: k in s.w.tasks && k != SECOND ==> s.w.tasks[k].Finished()
    ensures Inv(s)
  {
    assert Remembers(s, s.w.tasks[SECOND], "u");
    assert CountKept(s, s.w.workloads[APP]);
  }

  lemma FirstIsDeleted()
    ensures UniqueUids(Outdated().w)
    ensures var s := Apply(Outdated(), UserDeletes(FIRST));
      && s.w.tasks == map[SECOND := Plain(ScalingUp, true, Recorded5())]
      && s.w.workloads == map[APP := Workload("u", Some(0), 0)] && s.lost == {} && s.intended == map["u" := 5]
  {
    assert !LastKeeper(Outdated(), FIRST, "u");
  }

  /** The first task takes nothing along that anybody still wants. Nothing excuses the second one when it lets go of the
      workload without its patch. */
  lemma OutdatedRecordExcusesNothing()
    ensures var s := Outdated();
      && Inv(s) && Possible(s, UserDeletes(FIRST)) && Careful(s, UserDeletes(FIRST))
    ensures var s := Apply(Outdated(), UserDeletes(FIRST));
      && FIRST !in s.w.tasks && s.lost == {} && Conserved(s) && TasksOk(s.w)
      && !Accounts(s, Pass(SECOND, PATCH_REFUSED)) && !Careful(s, Pass(SECOND, PATCH_REFUSED))
      && !Conserved(Apply(s, Pass(SECOND, PATCH_REFUSED)))
  {
    OutdatedIsKept();
    FirstIsDeleted();
    EventKeepsTasksOk(Outdated(), UserDeletes(FIRST));
    LetsGoUnpatched(Apply(Outdated(), UserDeletes(FIRST)));
  }

  lemma LetsGoUnpatched(s: Sys)
    requires TasksOk(s.w) && s.lost == {} && s.intended == map["u" := 5]
    requires s.w.tasks == map[SECOND := Plain(ScalingUp, true, Recorded5())]
    requires s.w.workloads == map[APP := Workload("u", Some(0), 0)]
    ensures !Accounts(s, Pass(SECOND, PATCH_REFUSED)) && !Careful(s, Pass(SECOND, PATCH_REFUSED))
    ensures Conserved(s) && !Conserved(Apply(s, Pass(SECOND, PATCH_REFUSED)))
  {
    SecondRemembers(s);
    MissesItsPatch(s);
    ConservesExactly(s, Pass(SECOND, PATCH_REFUSED));
  }

  lemma MissesItsPatch(s: Sys)
    requires UniqueUids(s.w) && s.lost == {} && s.intended == map["u" := 5]
    requires s.w.tasks == map[SECOND := Plain(ScalingUp, true, Recorded5())]
    requires s.w.workloads == map[APP := Workload("u", Some(0), 0)]
    ensures !Accounts(s, Pass(SECOND, PATCH_REFUSED)) && !Careful(s, Pass(SECOND, PATCH_REFUSED))
  {
    assert APP in s.w.workloads && s.w.tasks[SECOND].Holds("u") && !KeptByOthers(s, SECOND, "u");
    assert !Forgettable(s, SECOND, APP);
    assert APP !in Restorable(s.w, CLAIM.ns, s.w.tasks[SECOND].record.value, PATCH_REFUSED);
  }

  /* ---- a start while a recorded workload is ready ---- */

  /** The only task has scaled down; the workload still reports a ready replica, but its pod is no longer listed. */
  function PodGone(): Sys {
    Sys(World(map[FIRST := Plain(ScalingDown, true, Recorded3())], map[APP := Workload("u", Some(0), 1)], map[], [],
      map[]),
        multiset{}, {}, map["u" := 3])
  }

  lemma PodGoneIsKept()
    ensures Inv(PodGone()) && AllDown(PodGone())
  {
    var s := PodGone();
    assert TasksOk(s.w);
    FirstRemembers(s, 1);
  }

  /** The task starts, and its workload is not down. */
  lemma StartsWhileReady()
    ensures var s := PodGone();
      && Inv(s) && AllDown(s) && AwaitsDown(s.w.tasks[FIRST])
      && TaskPass(s.w, FIRST, NO_FAULTS).task == Some(Plain(Starting, true, Recorded3()))
      && !HeldDown(Apply(s, Pass(FIRST, NO_FAULTS)))
  {
    var s := PodGone();
    PodGoneIsKept();
    assert Found(s.w, CLAIM, {}) == {};
    assert TaskPass(s.w, FIRST, NO_FAULTS) == ScaleDownRow(s.w, s.w.tasks[FIRST], NO_FAULTS);
    assert !Backed(s.w, FIRST, NO_FAULTS) by {
      assert s.w.tasks[FIRST].Holds(s.w.workloads[APP].uid);
    }
    StartIsSafeExactly(s, FIRST, NO_FAULTS);
  }

  /* ---- an overlap that loses the count ---- */

  /** The first task has scaled down, done its work and is about to scale up; the second is about to scale down. */
  function BeforeOverlap(): Sys {
    Sys(World(map[FIRST := Plain(ScalingUp, true, Recorded3()), SECOND := Plain(ScalingDown, false, None)],
              map[APP := Workload("u", Some(0), 0)], map[], [POD], map[]),
        multiset{}, {}, map["u" := 3])
  }

  const SUCCEEDED := JobStatus(0, 1, 0)

  /** The two tasks during the run that follows. */
  function Both(first: Task, second: Task): map<Key, Task> {
    map[FIRST := first, SECOND := second]
  }

  const FIRST_DONE := TaskIn(ScalingUp, true, true, None, EMPTY_REF, NO_JOB_STATUS)

  lemma SecondScalesDown(s: Sys)
    requires Shop(s, Both(Plain(ScalingUp, true, Recorded3()), Plain(ScalingDown, false, None)), 0, 0, [POD], map[])
    ensures UniqueUids(s.w)
    ensures Shop(Apply(s, Pass(SECOND, NO_FAULTS)),
                 Both(Plain(ScalingUp, true, Recorded3()), Plain(ScalingDown, true, Recorded0())), 0, 0, [POD], map[])
  {
    AppIsFound(s, s.w.tasks, 0, 0, map[]);
    assert TaskPass(s.w, SECOND, NO_FAULTS) == ScaleDownRow(s.w, s.w.tasks[SECOND], NO_FAULTS);
    PassTo(s, s.w.tasks, 0, 0, [POD], map[], SECOND, NO_FAULTS, Plain(ScalingDown, true, Recorded0()), 0);
  }

  lemma AppIsRestorable(s: Sys, tasks: map<Key, Task>, replicas: nat, jobs: map<Key, JobStatus>, record: Record)
    requires Shop(s, tasks, replicas, 0, [POD], jobs) && "u" in record
      && record["u"] == Info(StatefulSet, "app", record["u"].replicas)
    ensures UniqueUids(s.w) && Restorable(s.w, "n", record, NO_FAULTS) == {APP}
    ensures APP in RestoredCounts(s.w, "n", record, NO_FAULTS)
    ensures RestoredCounts(s.w, "n", record, NO_FAULTS)[APP] == record["u"].replicas
  {
    assert APP in Restorable(s.w, "n", record, NO_FAULTS);
  }

  lemma FirstScalesUp(s: Sys)
    requires Shop(s, Both(Plain(ScalingUp, true, Recorded3()), Plain(ScalingDown, true, Recorded0())), 0, 0, [POD],
      map[])
    ensures UniqueUids(s.w)
    ensures Shop(Apply(s, Pass(FIRST, NO_FAULTS)), Both(FIRST_DONE, Plain(ScalingDown, true, Recorded0())), 3, 0,
      [POD], map[])
  {
    AppIsRestorable(s, s.w.tasks, 0, map[], Recorded3().value);
    assert TaskPass(s.w, FIRST, NO_FAULTS) == ScaleUpRow(s.w, s.w.tasks[FIRST], NO_FAULTS);
    PassTo(s, s.w.tasks, 0, 0, [POD], map[], FIRST, NO_FAULTS, FIRST_DONE, 3);
  }

  lemma SecondStarts(s: Sys)
    requires Shop(s, Both(FIRST_DONE, Plain(ScalingDown, true, Recorded0())), 3, 0, [POD], map[])
    ensures UniqueUids(s.w)
    ensures Shop(Apply(s, Pass(SECOND, NO_FAULTS)), Both(FIRST_DONE, Plain(Starting, true, Recorded0())), 3, 0, [POD],
      map[])
  {
    AppIsFound(s, s.w.tasks, 3, 0, map[]);
    assert TaskPass(s.w, SECOND, NO_FAULTS) == ScaleDownRow(s.w, s.w.tasks[SECOND], NO_FAULTS);
    PassTo(s, s.w.tasks, 3, 0, [POD], map[], SECOND, NO_FAULTS, Plain(Starting, true, Recorded0()), 3);
  }

  /** The second task with its job. */
  function AtJob(state: State, jobStatus: JobStatus): Task {
    TaskIn(state, true, false, Recorded0(), JobKey(SECOND), jobStatus)
  }

  lemma SecondRuns(s: Sys)
    requires Shop(s, Both(FIRST_DONE, Plain(Starting, true, Recorded0())), 3, 0, [POD], map[])
    ensures UniqueUids(s.w)
    ensures Shop(Apply(s, Pass(SECOND, NO_FAULTS)), Both(FIRST_DONE, AtJob(Running, NO_JOB_STATUS)), 3, 0, [POD],
                 map[JobKey(SECOND) := NO_JOB_STATUS])
  {
    assert TaskPass(s.w, SECOND, NO_FAULTS) == StartRow(s.w, SECOND, s.w.tasks[SECOND], NO_FAULTS);
    PassTo(s, s.w.tasks, 3, 0, [POD], map[], SECOND, NO_FAULTS, AtJob(Running, NO_JOB_STATUS), 3);
  }

  lemma JobSucceeds(s: Sys)
    requires Shop(s, Both(FIRST_DONE, AtJob(Running, NO_JOB_STATUS)), 3, 0, [POD], map[JobKey(SECOND) := NO_JOB_STATUS])
    ensures UniqueUids(s.w)
    ensures Shop(Apply(s, JobMoves(JobKey(SECOND), Some(SUCCEEDED))), Both(FIRST_DONE, AtJob(Running, NO_JOB_STATUS)),
                 3, 0, [POD], map[JobKey(SECOND) := SUCCEEDED])
  {
  }

  lemma SecondFinishesWork(s: Sys)
    requires Shop(s, Both(FIRST_DONE, AtJob(Running, NO_JOB_STATUS)), 3, 0, [POD], map[JobKey(SECOND) := SUCCEEDED])
    ensures UniqueUids(s.w)
    ensures Shop(Apply(s, Pass(SECOND, NO_FAULTS)), Both(FIRST_DONE, AtJob(ScalingUp, SUCCEEDED)), 3, 0, [POD],
                 map[JobKey(SECOND) := SUCCEEDED])
  {
    assert TaskPass(s.w, SECOND, NO_FAULTS) == RunningRow(s.w, SECOND, s.w.tasks[SECOND], NO_FAULTS);
    PassTo(s, s.w.tasks, 3, 0, [POD], s.w.jobs, SECOND, NO_FAULTS, AtJob(ScalingUp, SUCCEEDED), 3);
  }

  lemma SecondScalesUp(s: Sys)
    requires Shop(s, Both(FIRST_DONE, AtJob(ScalingUp, SUCCEEDED)), 3, 0, [POD], map[JobKey(SECOND) := SUCCEEDED])
    ensures UniqueUids(s.w)
    ensures !Conserved(Apply(s, Pass(SECOND, NO_FAULTS)))
  {
    AppIsRestorable(s, s.w.tasks, 3, s.w.jobs, Recorded0().value);
    assert TaskPass(s.w, SECOND, NO_FAULTS) == ScaleUpRow(s.w, s.w.tasks[SECOND], NO_FAULTS);
    var done := TaskIn(ScalingUp, true, true, None, JobKey(SECOND), SUCCEEDED);
    PassTo(s, s.w.tasks, 3, 0, [POD], s.w.jobs, SECOND, NO_FAULTS, done, 0);
    var next := Apply(s, Pass(SECOND, NO_FAULTS));
    assert !CountKept(next, next.w.workloads[APP]);
  }

  /** A run goes on with one more event. */
  lemma RunGrows(run: seq<Sys>, es: seq<Event>, e: Event)
    requires IsRun(run, es) && UniqueUids(run[|es|].w) && Possible(run[|es|], e)
    ensures IsRun(run + [Apply(run[|es|], e)], es + [e])
  {
    var next, events := run + [Apply(run[|es|], e)], es + [e];
    forall i | 0 <= i < |events|
      ensures UniqueUids(next[i].w) && Possible(next[i], events[i]) && next[i + 1] == Apply(next[i], events[i])
    {
      if i < |es| {
        assert next[i] == run[i] && next[i + 1] == run[i + 1] && events[i] == es[i];
      }
    }
  }

  /** One more pass without failures. */
  lemma PassAfter(run: seq<Sys>, es: seq<Event>, k: Key) returns (longer: seq<Sys>, events: seq<Event>)
    requires IsRun(run, es) && UniqueUids(run[|es|].w)
    ensures IsRun(longer, events) && longer[0] == run[0] && events == es + [Pass(k, NO_FAULTS)]
    ensures longer[|events|] == Apply(run[|es|], Pass(k, NO_FAULTS))
  {
    RunGrows(run, es, Pass(k, NO_FAULTS));
    longer, events := run + [Apply(run[|es|], Pass(k, NO_FAULTS))], es + [Pass(k, NO_FAULTS)];
  }

  lemma FirstTwoSteps(s: Sys) returns (run: seq<Sys>, es: seq<Event>)
    requires Shop(s, Both(Plain(ScalingUp, true, Recorded3()), Plain(ScalingDown, false, None)), 0, 0, [POD], map[])
    ensures IsRun(run, es) && run[0] == s
    ensures es == [Pass(SECOND, NO_FAULTS), Pass(FIRST, NO_FAULTS)]
    ensures Shop(run[2], Both(FIRST_DONE, Plain(ScalingDown, true, Recorded0())), 3, 0, [POD], map[])
  {
    run, es := [s], [];
    SecondScalesDown(run[|es|]);
    run, es := PassAfter(run, es, SECOND);
    FirstScalesUp(run[|es|]);
    run, es := PassAfter(run, es, FIRST);
  }

  lemma NextThreeSteps(run: seq<Sys>, es: seq<Event>) returns (longer: seq<Sys>, events: seq<Event>)
    requires IsRun(run, es)
    requires Shop(run[|es|], Both(FIRST_DONE, Plain(ScalingDown, true, Recorded0())), 3, 0, [POD], map[])
    ensures IsRun(longer, events) && longer[0] == run[0]
    ensures events == es + [Pass(SECOND, NO_FAULTS), Pass(SECOND, NO_FAULTS), JobMoves(JobKey(SECOND), Some(SUCCEEDED))]
    ensures Shop(longer[|events|], Both(FIRST_DONE, AtJob(Running, NO_JOB_STATUS)), 3, 0, [POD],
      map[JobKey(SECOND) := SUCCEEDED])
  {
    SecondStarts(run[|es|]);
    longer, events := PassAfter(run, es, SECOND);
    SecondRuns(longer[|events|]);
    longer, events := PassAfter(longer, events, SECOND);
    JobSucceeds(longer[|events|]);
    RunGrows(longer, events, JobMoves(JobKey(SECOND), Some(SUCCEEDED)));
    longer := longer + [Apply(longer[|events|], JobMoves(JobKey(SECOND), Some(SUCCEEDED)))];
    events := events + [JobMoves(JobKey(SECOND), Some(SUCCEEDED))];
  }

  /** Nothing fails in this run: the second task scales down while the first is about to scale up, does its work and
      scales up last, and the three replicas are forgotten. */
  lemma OverlapForgets() returns (run: seq<Sys>, es: seq<Event>)
    ensures IsRun(run, es) && run[0] == BeforeOverlap() && Inv(run[0])
    ensures es == [Pass(SECOND, NO_FAULTS), Pass(FIRST, NO_FAULTS), Pass(SECOND, NO_FAULTS), Pass(SECOND, NO_FAULTS),
                   JobMoves(JobKey(SECOND), Some(SUCCEEDED)), Pass(SECOND, NO_FAULTS), Pass(SECOND, NO_FAULTS)]
    ensures Overlaps(run[0], es[0], FIRST, SECOND, APP) && !Conserved(run[7])
  {
    BeforeOverlapIsKept();
    OverlapBegins();
    run, es := FirstTwoSteps(BeforeOverlap());
    run, es := NextThreeSteps(run, es);
    run, es := LastTwoSteps(run, es);
  }

  lemma LastTwoSteps(run: seq<Sys>, es: seq<Event>) returns (longer: seq<Sys>, events: seq<Event>)
    requires IsRun(run, es)
    requires Shop(run[|es|], Both(FIRST_DONE, AtJob(Running, NO_JOB_STATUS)), 3, 0, [POD],
      map[JobKey(SECOND) := SUCCEEDED])
    ensures IsRun(longer, events) && longer[0] == run[0]
    ensures events == es + [Pass(SECOND, NO_FAULTS), Pass(SECOND, NO_FAULTS)]
    ensures !Conserved(longer[|events|])
  {
    SecondFinishesWork(run[|es|]);
    longer, events := PassAfter(run, es, SECOND);
    SecondScalesUp(longer[|events|]);
    longer, events := PassAfter(longer, events, SECOND);
  }

  lemma BeforeOverlapIsKept()
    ensures Inv(BeforeOverlap())
  {
    var s := BeforeOverlap();
    assert TasksOk(s.w);
    FirstRemembers(s, 0);
  }

  lemma OverlapBegins()
    ensures Overlaps(BeforeOverlap(), Pass(SECOND, NO_FAULTS), FIRST, SECOND, APP)
  {
    var s := BeforeOverlap();
    AppIsFound(s, s.w.tasks, 0, 0, map[]);
  }
}
