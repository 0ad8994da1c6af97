/** What one pass of the Config reconciler does to the config, to the claims it manages and to the task list. */
module ConfigTable {
  import opened Reconciling
  import opened Schedule
  import opened Annotations
  import opened PvcSelection
  import opened RepositoryStatus
  import ResticArgs

  datatype ConfigSpec = ConfigSpec(
    repos: seq<RepoSpec>,
    selectors: seq<Selector>,
    autoRestore: bool,
    stopPods: bool)

  /** `guarded` says that the config has the operator's finalizer. */
  datatype Config = Config(
    spec: ConfigSpec,
    guarded: bool,
    deleting: bool,
    annotations: Annotations,
    initialized: bool,
    repos: seq<RepoStatus>)

  datatype TaskKind = BackupScheduled | BackupManual | RestoreManual | RestoreAutomated

  datatype NewTask = NewTask(kind: TaskKind, pvc: string, stopPods: bool, args: seq<string>)

  /** What the API server, restic and the clock answer during one pass. Claims are named by UID, repositories by
      target. */
  datatype Answers = Answers(
    getConfig: bool,
    objectWrite: bool,            // the object update a stage issues itself
    stepWrite: bool,              // the write issued when the stage's answer is handled
    listFails: bool,
    unreachable: set<string>,     // repositories that can be neither checked nor initialized
    createFails: set<string>,
    updateFails: set<string>,
    busy: set<string>,            // claims with an active scheduled backup
    forgetFails: bool,
    name: string -> string,       // the unique name generated for a claim's task
    now: Time)

  ghost predicate AllAccepted(f: Answers) {
    && f.getConfig && f.objectWrite && f.stepWrite && !f.listFails
    && f.unreachable == {} && f.createFails == {} && f.updateFails == {}
  }

  /** A scheduled operation on a repository. */
  datatype Operation = Backup | Forget
  datatype Service = Service(op: Operation, target: string)

  /** The effect of a pass; `served` is the scheduled operation it ran, if any. */
  datatype Outcome = Outcome(
    config: Config,
    pvcs: seq<Pvc>,
    created: seq<NewTask>,
    served: Option<Service>,
    verdict: Verdict)

  function Repos(specs: seq<RepoSpec>): (repos: seq<ResticArgs.Repo>)
    ensures |repos| == |specs| && forall i :: 0 <= i < |specs| ==> repos[i] == specs[i].repo
  {
    seq(|specs|, i requires 0 <= i < |specs| => specs[i].repo)
  }

  function ArgParams(repos: seq<ResticArgs.Repo>, pvc: Pvc, annotation: string, f: Answers): ResticArgs.Params {
    ResticArgs.Params(repos, pvc.ns, pvc.name, annotation, f.name(pvc.uid))
  }

  function RestoreTask(c: Config, kind: TaskKind, pvc: Pvc, annotation: string, f: Answers): NewTask
    requires c.spec.repos != []
  {
    NewTask(kind, pvc.uid, c.spec.stopPods, ResticArgs.RestoreArgs(ArgParams(Repos(c.spec.repos), pvc, annotation, f)))
  }

  function BackupTask(c: Config, kind: TaskKind, repos: seq<RepoSpec>, pvc: Pvc, annotation: string,
                      f: Answers): NewTask
    requires repos != []
  {
    NewTask(kind, pvc.uid, c.spec.stopPods, ResticArgs.BackupArgs(ArgParams(Repos(repos), pvc, annotation, f)))
  }

  /** The claims with an annotation of one of them set or, with the empty value, removed. */
  function Annotated(pvcs: seq<Pvc>, uid: string, key: AnnKey, value: string): seq<Pvc> {
    seq(|pvcs|, i requires 0 <= i < |pvcs| =>
      if pvcs[i].uid == uid then pvcs[i].(annotations := With(pvcs[i].annotations, key, value)) else pvcs[i])
  }

  /* ---- the stages that make tasks ---- */

  /** The claims with the mark of auto-restore on every one of `done`. */
  function Marked(pvcs: seq<Pvc>, done: seq<Pvc>): seq<Pvc> {
    seq(|pvcs|, i requires 0 <= i < |pvcs| =>
      if HasUid(done, pvcs[i].uid) then pvcs[i].(annotations := With(pvcs[i].annotations, AnnAutoRestored, "true"))
      else pvcs[i])
  }

  function AutoTask(c: Config, pvc: Pvc, f: Answers): NewTask
    requires c.spec.repos != []
  {
    RestoreTask(c, RestoreAutomated, pvc, ValueOf(pvc.annotations, AnnRestore), f)
  }

  function AutoTasks(c: Config, todo: seq<Pvc>, f: Answers): seq<NewTask>
    requires c.spec.repos != []
  {
    seq(|todo|, i requires 0 <= i < |todo| => AutoTask(c, todo[i], f))
  }

  /** How many claims, from the first on, have their task created and their mark stored. */
  function Served(todo: seq<Pvc>, f: Answers): (n: nat)
    ensures n <= |todo|
    ensures forall i :: 0 <= i < n ==> todo[i].uid !in f.createFails && todo[i].uid !in f.updateFails
    ensures n < |todo| ==> todo[n].uid in f.createFails || todo[n].uid in f.updateFails
  {
    if todo == [] || todo[0].uid in f.createFails || todo[0].uid in f.updateFails then 0
    else 1 + Served(todo[1..], f)
  }

  /** Auto-restore did not stop between creating a claim's task and marking the claim. */
  predicate MarkStored(todo: seq<Pvc>, f: Answers) {
    var n := Served(todo, f);
    n == |todo| || todo[n].uid in f.createFails
  }

  /** The claims of the list whose task an auto-restore creates. */
  function Tasked(todo: seq<Pvc>, f: Answers): seq<Pvc> {
    if MarkStored(todo, f) then todo[..Served(todo, f)] else todo[..Served(todo, f) + 1]
  }

  /** Auto-restore creates a task and then marks the claim, one claim after the other, until either fails; a claim whose
      mark is refused has its task all the same. */
  function AutoRestored(c: Config, pvcs: seq<Pvc>, todo: seq<Pvc>, f: Answers): (seq<Pvc>, seq<NewTask>, Verdict)
    requires c.spec.repos != []
  {
    var n := Served(todo, f);
    (Marked(pvcs, todo[..n]),
     AutoTasks(c, Tasked(todo, f), f),
     if n == |todo| then RequeueAfter(DEFAULT) else if todo[n].uid in f.createFails then RequeueAfter(QUICK) else Error)
  }

  /** One task for each claim whose task can be created, in order. */
  function ConfigTasks(c: Config, restore: bool, managed: seq<Pvc>, f: Answers): seq<NewTask>
    requires c.spec.repos != [] || managed == []
  {
    if managed == [] then []
    else
      var n := |managed| - 1;
      var front := ConfigTasks(c, restore, managed[..n], f);
      if managed[n].uid in f.createFails then front
      else front + [if restore then RestoreTask(c, RestoreManual, managed[n], ValueOf(c.annotations, AnnRestore), f)
                    else BackupTask(c, BackupManual, c.spec.repos, managed[n], ValueOf(c.annotations, AnnBackup), f)]
  }

  predicate Triggered(pvc: Pvc) {
    ValueOf(pvc.annotations, AnnRestore) != "" || ValueOf(pvc.annotations, AnnBackup) != ""
  }

  ghost predicate IsFirstTriggered(managed: seq<Pvc>, pvc: Pvc) {
    && Triggered(pvc)
    && exists i :: 0 <= i < |managed| && managed[i] == pvc && forall j :: 0 <= j < i ==> !Triggered(managed[j])
  }

  lemma NoneTriggeredBefore(managed: seq<Pvc>, pvc: Pvc)
    requires managed != [] && !Triggered(managed[0]) && IsFirstTriggered(managed[1..], pvc)
    ensures IsFirstTriggered(managed, pvc)
  {
    var rest := managed[1..];
    var i :| 0 <= i < |rest| && rest[i] == pvc && forall j :: 0 <= j < i ==> !Triggered(rest[j]);
    assert managed[i + 1] == pvc;
    assert forall j :: 0 < j < i + 1 ==> managed[j] == rest[j - 1];
  }

  /** The first claim with a trigger annotation. */
  function FirstTriggered(managed: seq<Pvc>): (r: Option<Pvc>)
    ensures r.Some? ==> r.value in managed && IsFirstTriggered(managed, r.value)
    ensures r == None ==> forall p :: p in managed ==> !Triggered(p)
  {
    if managed == [] then None
    else if Triggered(managed[0]) then Some(managed[0])
    else
      var r := FirstTriggered(managed[1..]);
      assert managed == [managed[0]] + managed[1..];
      assert r.Some? ==> IsFirstTriggered(managed, r.value) by {
        if r.Some? {
          NoneTriggeredBefore(managed, r.value);
        }
      }
      r
  }

  /** One trigger of a claim is answered with a task, and cleared even if no task is created. */
  function TriggerHandled(c: Config, pvcs: seq<Pvc>, pvc: Pvc, restore: bool, f: Answers): (seq<Pvc>, seq<NewTask>)
    requires c.spec.repos != []
  {
    var key := if restore then AnnRestore else AnnBackup;
    var task := if restore then RestoreTask(c, RestoreManual, pvc, ValueOf(pvc.annotations, key), f)
                else BackupTask(c, BackupManual, c.spec.repos, pvc, ValueOf(pvc.annotations, key), f);
    (if pvc.uid in f.updateFails then pvcs else Annotated(pvcs, pvc.uid, key, ""),
     if pvc.uid in f.createFails then [] else [task])
  }

  /** The restore trigger of a claim is taken before its backup trigger. */
  function PvcHandled(c: Config, pvcs: seq<Pvc>, pvc: Pvc, f: Answers): (seq<Pvc>, seq<NewTask>)
    requires c.spec.repos != []
  {
    TriggerHandled(c, pvcs, pvc, ValueOf(pvc.annotations, AnnRestore) != "", f)
  }

  /* ---- the scheduled stages ---- */

  predicate BackupDue(spec: RepoSpec, st: RepoStatus, parse: Parser, now: Time) {
    ShouldPerformScheduledOperation(parse, spec.backupSchedule, st.lastBackup, st.initialized, now)
  }

  predicate ForgetDue(spec: RepoSpec, st: RepoStatus, parse: Parser, now: Time) {
    ShouldPerformScheduledOperation(parse, spec.forgetSchedule, st.lastForget, st.initialized, now)
  }

  /** The first repository with a due backup, from index `i` on. */
  function FirstBackupDue(specs: seq<RepoSpec>, sts: seq<RepoStatus>, i: nat, parse: Parser,
                          now: Time): (r: Option<nat>)
    requires |sts| == |specs| && i <= |specs|
    ensures r.Some? ==> i <= r.value < |specs| && BackupDue(specs[r.value], sts[r.value], parse, now)
    ensures r == None ==> forall j :: i <= j < |specs| ==> !BackupDue(specs[j], sts[j], parse, now)
    decreases |specs| - i
  {
    if i == |specs| then None
    else if BackupDue(specs[i], sts[i], parse, now) then Some(i)
    else FirstBackupDue(specs, sts, i + 1, parse, now)
  }

  function FirstForgetDue(specs: seq<RepoSpec>, sts: seq<RepoStatus>, i: nat, parse: Parser,
                          now: Time): (r: Option<nat>)
    requires |sts| == |specs| && i <= |specs|
    ensures r.Some? ==> i <= r.value < |specs| && ForgetDue(specs[r.value], sts[r.value], parse, now)
    ensures r == None ==> forall j :: i <= j < |specs| ==> !ForgetDue(specs[j], sts[j], parse, now)
    decreases |specs| - i
  {
    if i == |specs| then None
    else if ForgetDue(specs[i], sts[i], parse, now) then Some(i)
    else FirstForgetDue(specs, sts, i + 1, parse, now)
  }

  /** One backup task of a repository for each claim that has none active. */
  function ScheduledTasks(c: Config, spec: RepoSpec, managed: seq<Pvc>, f: Answers): seq<NewTask> {
    if managed == [] then []
    else
      var n := |managed| - 1;
      var front := ScheduledTasks(c, spec, managed[..n], f);
      if managed[n].uid in f.busy || managed[n].uid in f.createFails then front
      else front + [BackupTask(c, BackupScheduled, [spec], managed[n], "now", f)]
  }

  /* ---- the pass ---- */

  /** The claims a pass may work on: those the config manages, or none if a list request fails. */
  ghost predicate PassList(selectors: seq<Selector>, pvcs: seq<Pvc>, managed: seq<Pvc>, f: Answers) {
    if f.listFails then managed == [] else IsManagedList(selectors, pvcs, managed)
  }

  function Still(c: Config, pvcs: seq<Pvc>, verdict: Verdict): Outcome {
    Outcome(c, pvcs, [], None, verdict)
  }

  /** A pass that ends in a write of the config. */
  function Written(c: Config, next: Config, pvcs: seq<Pvc>, created: seq<NewTask>, period: int, f: Answers): Outcome {
    if f.stepWrite then Outcome(next, pvcs, created, None, RequeueAfter(period))
    else Outcome(c, pvcs, created, None, Error)
  }

  predicate AllInitialized(sts: seq<RepoStatus>) {
    forall i :: 0 <= i < |sts| ==> sts[i].initialized
  }

  /** All repositories that wait for it are initialized in one pass, or none is. */
  function Initialized(sts: seq<RepoStatus>): seq<RepoStatus> {
    seq(|sts|, i requires 0 <= i < |sts| => sts[i].(initialized := true))
  }

  predicate Reachable(sts: seq<RepoStatus>, f: Answers) {
    forall i :: 0 <= i < |sts| ==> sts[i].initialized || sts[i].target !in f.unreachable
  }

  function BackupStamped(c: Config, i: nat, now: Time): Config
    requires i < |c.repos|
  {
    c.(repos := c.repos[i := c.repos[i].(lastBackup := Some(Stored(now)))])
  }

  function ForgetStamped(c: Config, i: nat, now: Time): Config
    requires i < |c.repos|
  {
    c.(repos := c.repos[i := c.repos[i].(lastForget := Some(Stored(now)))])
  }

  function Scheduling(c: Config, pvcs: seq<Pvc>, managed: seq<Pvc>, parse: Parser, f: Answers): Outcome
    requires Mirrors(c.spec.repos, c.repos)
  {
    var backup := FirstBackupDue(c.spec.repos, c.repos, 0, parse, f.now);
    var forget := FirstForgetDue(c.spec.repos, c.repos, 0, parse, f.now);
    if backup.Some? then
      var i := backup.value;
      Written(c, BackupStamped(c, i, f.now), pvcs,
              ScheduledTasks(c, c.spec.repos[i], managed, f), LONGER, f)
        .(served := Some(Service(Backup, c.spec.repos[i].Target())))
    else if forget.Some? then
      var i := forget.value;
      Written(c, ForgetStamped(c, i, f.now), pvcs, [], if f.forgetFails then DEFAULT else LONGER, f)
        .(served := Some(Service(Forget, c.spec.repos[i].Target())))
    else Still(c, pvcs, RequeueAfter(DEFAULT))
  }

  /** A trigger annotation is set on the config or on a managed claim. */
  predicate Requested(c: Config, managed: seq<Pvc>) {
    ValueOf(c.annotations, AnnRestore) != "" || ValueOf(c.annotations, AnnBackup) != "" || FirstTriggered(managed).Some?
  }

  /** One kind of trigger is consumed in a pass: the config's restore, its backup, or one trigger of one claim. */
  function Consumed(c: Config, pvcs: seq<Pvc>, managed: seq<Pvc>, f: Answers): Outcome
    requires (c.spec.repos != [] || managed == []) && Requested(c, managed)
  {
    if ValueOf(c.annotations, AnnRestore) != "" then
      Written(c, c.(annotations := With(c.annotations, AnnRestore, "")), pvcs, ConfigTasks(c, true, managed, f),
              LONGER, f)
    else if ValueOf(c.annotations, AnnBackup) != "" then
      Written(c, c.(annotations := With(c.annotations, AnnBackup, "")), pvcs, ConfigTasks(c, false, managed, f),
              LONGER, f)
    else
      var r := PvcHandled(c, pvcs, FirstTriggered(managed).value, f);
      Written(c, c, r.0, r.1, LONGER, f)
  }

  /** There is a claim to make a task for. */
  predicate NeedsRepository(c: Config, managed: seq<Pvc>, now: Time) {
    (NewUnclaimed(managed, now) != [] && c.spec.autoRestore) || (Requested(c, managed) && managed != [])
  }

  /** The first repository of the list is read without a check whenever a task is made; an empty list ends the pass
      there, before anything is written. */
  function Working(c: Config, pvcs: seq<Pvc>, managed: seq<Pvc>, parse: Parser, f: Answers): Outcome
    requires Mirrors(c.spec.repos, c.repos)
  {
    var unclaimed := NewUnclaimed(managed, f.now);
    if c.spec.repos == [] && NeedsRepository(c, managed, f.now) then Still(c, pvcs, Crash)
    else if unclaimed != [] && c.spec.autoRestore then
      var r := AutoRestored(c, pvcs, unclaimed, f);
      Outcome(c, r.0, r.1, None, r.2)
    else if Requested(c, managed) then Consumed(c, pvcs, managed, f)
    else Scheduling(c, pvcs, managed, parse, f)
  }

  function ConfigPass(c: Config, pvcs: seq<Pvc>, managed: seq<Pvc>, parse: Parser, f: Answers): Outcome {
    if !f.getConfig then Still(c, pvcs, Error)
    else if c.deleting && !c.guarded then Still(c, pvcs, if f.stepWrite then RequeueAfter(IMMEDIATE) else Error)
    else if !c.initialized && !c.guarded then
      if !f.objectWrite then Still(c, pvcs, Error)
      else Still(c.(guarded := true), pvcs, if f.stepWrite then RequeueAfter(IMMEDIATE) else Error)
    else if !c.initialized then Written(c, c.(initialized := true), pvcs, [], IMMEDIATE, f)
    else if !Mirrors(c.spec.repos, c.repos) then
      Written(c, c.(repos := Synced(c.spec.repos, c.repos)), pvcs, [], IMMEDIATE, f)
    else if !AllInitialized(c.repos) then
      if !Reachable(c.repos, f) then Still(c, pvcs, Error)
      else Written(c, c.(repos := Initialized(c.repos)), pvcs, [], IMMEDIATE, f)
    else Working(c, pvcs, managed, parse, f)
  }
}
