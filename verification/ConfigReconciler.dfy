/** The Config reconciler: a chain of stages over one config object that is changed in place. `Reconcile` is proved to
    compute the table `ConfigPass`. */
module ConfigReconciler {
  import opened Reconciling
  import opened Schedule
  import opened Annotations
  import opened PvcSelection
  import opened RepositoryStatus
  import opened ConfigTable
  import ResticArgs

  /** The API server's copy of one config, all claims, the tasks created so far, and the targets on which restic has
      been called to forget snapshots. */
  class ConfigServer {
    var config: Config
    var pvcs: seq<Pvc>
    var tasks: seq<NewTask>
    var forgotten: seq<string>

    method Forget(target: string, fails: bool) returns (err: bool)
      modifies this`forgotten
      ensures err <==> fails
      ensures forgotten == old(forgotten) + [target]
    {
      forgotten := forgotten + [target];
      err := fails;
    }

    method Create(task: NewTask, accepted: bool) returns (err: bool)
      modifies this`tasks
      ensures err <==> !accepted
      ensures tasks == old(tasks) + if accepted then [task] else []
    {
      if accepted {
        tasks := tasks + [task];
      }
      err := !accepted;
    }

    method UpdatePvc(uid: string, key: AnnKey, value: string, accepted: bool) returns (err: bool)
      modifies this`pvcs
      ensures err <==> !accepted
      ensures pvcs == if accepted then Annotated(old(pvcs), uid, key, value) else old(pvcs)
    {
      if accepted {
        pvcs := Annotated(pvcs, uid, key, value);
      }
      err := !accepted;
    }

    /** Deleting what is already being deleted changes nothing. */
    method Delete(accepted: bool) returns (err: bool)
      ensures err <==> !accepted
    {
      err := !accepted;
    }

    /** An object update carries metadata, a status update the status. */
    method Update(guarded: bool, annotations: Annotations, accepted: bool) returns (err: bool)
      modifies this`config
      ensures err <==> !accepted
      ensures config == if accepted then old(config).(guarded := guarded, annotations := annotations) else old(config)
    {
      if accepted {
        config := config.(guarded := guarded, annotations := annotations);
      }
      err := !accepted;
    }

    method UpdateStatus(initialized: bool, repos: seq<RepoStatus>, accepted: bool) returns (err: bool)
      modifies this`config
      ensures err <==> !accepted
      ensures config == if accepted then old(config).(initialized := initialized, repos := repos) else old(config)
    {
      if accepted {
        config := config.(initialized := initialized, repos := repos);
      }
      err := !accepted;
    }
  }

  /** The config in the reconciler's memory. */
  class ConfigObject {
    const spec: ConfigSpec
    const deleting: bool
    var guarded: bool
    var annotations: Annotations
    var initialized: bool
    var repos: seq<RepoStatus>

    constructor (c: Config)
      ensures Value() == c
    {
      spec, deleting := c.spec, c.deleting;
      guarded, annotations, initialized, repos := c.guarded, c.annotations, c.initialized, c.repos;
    }

    function Value(): Config
      reads this
    {
      Config(spec, guarded, deleting, annotations, initialized, repos)
    }
  }

  /** The entries before the first one that is blocked are initialized, in memory only. */
  predicate StoppedAt(before: seq<RepoStatus>, now: seq<RepoStatus>, f: Answers) {
    exists n :: 0 <= n < |before|
      && !before[n].initialized && before[n].target in f.unreachable
      && Reachable(before[..n], f)
      && now == Initialized(before[..n]) + before[n..]
  }

  method InitRepositories(config: ConfigObject, f: Answers) returns (a: Answer)
    requires Mirrors(config.spec.repos, config.repos)
    modifies config`repos
    ensures !Reachable(old(config.repos), f) ==>
      a == Answer(true, DEFAULT, true) && StoppedAt(old(config.repos), config.repos, f)
    ensures Reachable(old(config.repos), f) ==>
      a == Answer(!AllInitialized(old(config.repos)), IMMEDIATE, false)
        && config.repos == Initialized(old(config.repos))
  {
    ghost var before := config.repos;
    var reconcile := false;
    for i := 0 to |config.repos|
      invariant |config.repos| == |before|
      invariant forall j :: 0 <= j < i ==> config.repos[j] == before[j].(initialized := true)
      invariant forall j :: i <= j < |before| ==> config.repos[j] == before[j]
      invariant forall j :: 0 <= j < i ==> before[j].initialized || before[j].target !in f.unreachable
      invariant reconcile <==> exists j :: 0 <= j < i && !before[j].initialized
    {
      var repository := config.repos[i];
      if !repository.initialized {
        var specRepo := FindRepositorySpec(config.spec.repos, repository.target);
        assert config.spec.repos[i].Target() == repository.target;
        assert specRepo.Some?;  // its environment is read without a check
        reconcile := true;
        if repository.target in f.unreachable {
          assert config.repos == Initialized(before[..i]) + before[i..];
          return Answer(true, DEFAULT, true);
        }
        config.repos := config.repos[i := repository.(initialized := true)];
      }
    }
    assert config.repos == Initialized(before);
    return Answer(reconcile, IMMEDIATE, false);
  }

  method BuildRestoreTask(config: ConfigObject, kind: TaskKind, pvc: Pvc, annotation: string, f: Answers)
    returns (task: Attempt<NewTask>)
    ensures task ==
      if config.spec.repos == [] then Panicked else Returned(RestoreTask(config.Value(), kind, pvc, annotation, f))
  {
    if config.spec.repos == [] {
      return Panicked;
    }
    var args := ResticArgs.MakeRestoreArgs(ArgParams(Repos(config.spec.repos), pvc, annotation, f));
    return Returned(NewTask(kind, pvc.uid, config.spec.stopPods, args));
  }

  method BuildBackupTask(config: ConfigObject, kind: TaskKind, repos: seq<RepoSpec>, pvc: Pvc, annotation: string,
                         f: Answers)
    returns (task: Attempt<NewTask>)
    ensures task ==
      if repos == [] then Panicked else Returned(BackupTask(config.Value(), kind, repos, pvc, annotation, f))
  {
    if repos == [] {
      return Panicked;
    }
    var args := ResticArgs.MakeBackupArgs(ArgParams(Repos(repos), pvc, annotation, f));
    return Returned(NewTask(kind, pvc.uid, config.spec.stopPods, args));
  }

  lemma NoneMarked(pvcs: seq<Pvc>)
    ensures Marked(pvcs, []) == pvcs
  {
  }

  lemma OneMoreMarked(pvcs: seq<Pvc>, done: seq<Pvc>, pvc: Pvc)
    ensures Annotated(Marked(pvcs, done), pvc.uid, AnnAutoRestored, "true") == Marked(pvcs, done + [pvc])
  {
    forall i | 0 <= i < |pvcs|
      ensures Annotated(Marked(pvcs, done), pvc.uid, AnnAutoRestored, "true")[i] == Marked(pvcs, done + [pvc])[i]
    {
      assert HasUid(done + [pvc], pvcs[i].uid) <==> HasUid(done, pvcs[i].uid) || pvcs[i].uid == pvc.uid by {
        assert pvc in done + [pvc];
      }
      var annotations := With(pvcs[i].annotations, AnnAutoRestored, "true");
      assert With(annotations, AnnAutoRestored, "true") == annotations;
    }
  }

  lemma OneMoreTask(c: Config, done: seq<Pvc>, pvc: Pvc, f: Answers)
    requires c.spec.repos != []
    ensures AutoTasks(c, done + [pvc], f) == AutoTasks(c, done, f) + [AutoTask(c, pvc, f)]
  {
  }

  /** Creates the task of one claim, then marks the claim; answers only if one of the two fails. */
  method RestoreOne(server: ConfigServer, config: ConfigObject, pvc: Pvc, f: Answers)
    returns (a: Attempt<Option<Answer>>)
    modifies server`pvcs, server`tasks
    ensures
      if config.spec.repos == [] then
        a == Panicked && server.pvcs == old(server.pvcs) && server.tasks == old(server.tasks)
      else if pvc.uid in f.createFails then
        a == Returned(Some(Answer(true, QUICK, false))) && server.pvcs == old(server.pvcs)
          && server.tasks == old(server.tasks)
      else
        && server.tasks == old(server.tasks) + [AutoTask(config.Value(), pvc, f)]
        && (if pvc.uid in f.updateFails then
              a == Returned(Some(Answer(true, QUICK, true))) && server.pvcs == old(server.pvcs)
            else
              a == Returned(None) && server.pvcs == Annotated(old(server.pvcs), pvc.uid, AnnAutoRestored, "true"))
  {
    var task :- BuildRestoreTask(config, RestoreAutomated, pvc, ValueOf(pvc.annotations, AnnRestore), f);
    var createErr := server.Create(task, pvc.uid !in f.createFails);
    if createErr {
      return Returned(Some(Answer(true, QUICK, false)));
    }
    var updateErr := server.UpdatePvc(pvc.uid, AnnAutoRestored, "true", pvc.uid !in f.updateFails);
    if updateErr {
      return Returned(Some(Answer(true, QUICK, true)));
    }
    return Returned(None);
  }

  /** Goes through the unclaimed claims until a call fails. */
  method RestoreEach(server: ConfigServer, config: ConfigObject, unclaimed: seq<Pvc>, f: Answers)
    returns (a: Attempt<Answer>)
    requires unclaimed != []
    modifies server`pvcs, server`tasks
    ensures config.spec.repos == [] ==>
      a == Panicked && server.pvcs == old(server.pvcs) && server.tasks == old(server.tasks)
    ensures config.spec.repos != [] ==>
      var n := Served(unclaimed, f);
      && server.pvcs == Marked(old(server.pvcs), unclaimed[..n])
      && server.tasks == old(server.tasks) + AutoTasks(config.Value(), Tasked(unclaimed, f), f)
      && a == Returned(if n == |unclaimed| then Answer(true, DEFAULT, false)
                       else Answer(true, QUICK, unclaimed[n].uid !in f.createFails))
  {
    ghost var c := config.Value();
    ghost var n := Served(unclaimed, f);
    assert unclaimed[..|unclaimed|] == unclaimed;
    NoneMarked(server.pvcs);
    ghost var made := [];
    for i := 0 to |unclaimed|
      invariant i <= n && config.Value() == c
      invariant server.pvcs == Marked(old(server.pvcs), unclaimed[..i])
      invariant server.tasks == old(server.tasks) + made
      invariant if c.spec.repos == [] then i == 0 && made == [] else made == AutoTasks(c, unclaimed[..i], f)
    {
      assert unclaimed[..i + 1] == unclaimed[..i] + [unclaimed[i]];
      var ended :- RestoreOne(server, config, unclaimed[i], f);
      OneMoreTask(c, unclaimed[..i], unclaimed[i], f);
      if ended.Some? {
        assert n == i;
        return Returned(ended.value);
      }
      made := made + [AutoTask(c, unclaimed[i], f)];
      OneMoreMarked(old(server.pvcs), unclaimed[..i], unclaimed[i]);
    }
    return Returned(Answer(true, DEFAULT, false));
  }

  method AutoRestore(server: ConfigServer, config: ConfigObject, unclaimed: seq<Pvc>, f: Answers)
    returns (a: Attempt<Answer>)
    modifies server`pvcs, server`tasks
    ensures unclaimed == [] || !config.spec.autoRestore ==>
      a == Returned(PASS_ON) && server.pvcs == old(server.pvcs) && server.tasks == old(server.tasks)
    ensures unclaimed != [] && config.spec.autoRestore && config.spec.repos == [] ==>
      a == Panicked && server.pvcs == old(server.pvcs) && server.tasks == old(server.tasks)
    ensures unclaimed != [] && config.spec.autoRestore && config.spec.repos != [] ==>
      var r := AutoRestored(config.Value(), old(server.pvcs), unclaimed, f);
      && a.Returned? && a.value.reconcile && a.value.period != NO_REQUEUE
      && r.2 == (if a.value.err then Error else RequeueAfter(a.value.period))
      && server.pvcs == r.0 && server.tasks == old(server.tasks) + r.1
  {
    if |unclaimed| == 0 {
      return Returned(PASS_ON);
    }
    if !config.spec.autoRestore {
      return Returned(PASS_ON);
    }
    a := RestoreEach(server, config, unclaimed, f);
  }

  method ConfigRestore(server: ConfigServer, config: ConfigObject, managed: seq<Pvc>, f: Answers)
    returns (a: Attempt<Answer>)
    modifies server`tasks, config`annotations
    ensures var c := old(config.Value());
      if ValueOf(c.annotations, AnnRestore) == "" then
        a == Returned(PASS_ON) && server.tasks == old(server.tasks) && config.Value() == c
      else if c.spec.repos == [] && managed != [] then
        a == Panicked && server.tasks == old(server.tasks) && config.Value() == c
      else
        && a == Returned(Answer(true, LONGER, false))
        && server.tasks == old(server.tasks) + ConfigTasks(c, true, managed, f)
        && config.Value() == c.(annotations := With(c.annotations, AnnRestore, ""))
  {
    var annotation := ValueOf(config.annotations, AnnRestore);
    if annotation == "" {
      return Returned(PASS_ON);
    }
    ghost var c := config.Value();
    for i := 0 to |managed|
      invariant config.Value() == c && (i > 0 ==> c.spec.repos != [])
      invariant server.tasks == old(server.tasks) + ConfigTasks(c, true, managed[..i], f)
    {
      assert managed[..i + 1][..i] == managed[..i];
      var task :- BuildRestoreTask(config, RestoreManual, managed[i], annotation, f);
      var _ := server.Create(task, managed[i].uid !in f.createFails);
    }
    assert managed[..|managed|] == managed;
    config.annotations := SetAnnotation(config.annotations, AnnRestore, "");
    return Returned(Answer(true, LONGER, false));
  }

  method ConfigBackup(server: ConfigServer, config: ConfigObject, managed: seq<Pvc>, f: Answers)
    returns (a: Attempt<Answer>)
    modifies server`tasks, config`annotations
    ensures var c := old(config.Value());
      if ValueOf(c.annotations, AnnBackup) == "" then
        a == Returned(PASS_ON) && server.tasks == old(server.tasks) && config.Value() == c
      else if c.spec.repos == [] && managed != [] then
        a == Panicked && server.tasks == old(server.tasks) && config.Value() == c
      else
        && a == Returned(Answer(true, LONGER, false))
        && server.tasks == old(server.tasks) + ConfigTasks(c, false, managed, f)
        && config.Value() == c.(annotations := With(c.annotations, AnnBackup, ""))
  {
    var annotation := ValueOf(config.annotations, AnnBackup);
    if annotation == "" {
      return Returned(PASS_ON);
    }
    ghost var c := config.Value();
    for i := 0 to |managed|
      invariant config.Value() == c && (i > 0 ==> c.spec.repos != [])
      invariant server.tasks == old(server.tasks) + ConfigTasks(c, false, managed[..i], f)
    {
      assert managed[..i + 1][..i] == managed[..i];
      var task :- BuildBackupTask(config, BackupManual, config.spec.repos, managed[i], annotation, f);
      var _ := server.Create(task, managed[i].uid !in f.createFails);
    }
    assert managed[..|managed|] == managed;
    config.annotations := SetAnnotation(config.annotations, AnnBackup, "");
    return Returned(Answer(true, LONGER, false));
  }

  method PVCRestore(server: ConfigServer, config: ConfigObject, pvc: Pvc, f: Answers)
    returns (a: Attempt<Answer>)
    modifies server`pvcs, server`tasks
    ensures
      if ValueOf(pvc.annotations, AnnRestore) == "" then
        a == Returned(PASS_ON) && server.pvcs == old(server.pvcs) && server.tasks == old(server.tasks)
      else if config.spec.repos == [] then
        a == Panicked && server.pvcs == old(server.pvcs) && server.tasks == old(server.tasks)
      else
        && a == Returned(Answer(true, LONGER, false))
        && server.pvcs == TriggerHandled(config.Value(), old(server.pvcs), pvc, true, f).0
        && server.tasks == old(server.tasks) + TriggerHandled(config.Value(), old(server.pvcs), pvc, true, f).1
  {
    var annotation := ValueOf(pvc.annotations, AnnRestore);
    if annotation == "" {
      return Returned(PASS_ON);
    }
    var task :- BuildRestoreTask(config, RestoreManual, pvc, annotation, f);
    var _ := server.Create(task, pvc.uid !in f.createFails);
    var _ := server.UpdatePvc(pvc.uid, AnnRestore, "", pvc.uid !in f.updateFails);
    return Returned(Answer(true, LONGER, false));
  }

  method PVCBackup(server: ConfigServer, config: ConfigObject, pvc: Pvc, f: Answers)
    returns (a: Attempt<Answer>)
    modifies server`pvcs, server`tasks
    ensures
      if ValueOf(pvc.annotations, AnnBackup) == "" then
        a == Returned(PASS_ON) && server.pvcs == old(server.pvcs) && server.tasks == old(server.tasks)
      else if config.spec.repos == [] then
        a == Panicked && server.pvcs == old(server.pvcs) && server.tasks == old(server.tasks)
      else
        && a == Returned(Answer(true, LONGER, false))
        && server.pvcs == TriggerHandled(config.Value(), old(server.pvcs), pvc, false, f).0
        && server.tasks == old(server.tasks) + TriggerHandled(config.Value(), old(server.pvcs), pvc, false, f).1
  {
    var annotation := ValueOf(pvc.annotations, AnnBackup);
    if annotation == "" {
      return Returned(PASS_ON);
    }
    var task :- BuildBackupTask(config, BackupManual, config.spec.repos, pvc, annotation, f);
    var _ := server.Create(task, pvc.uid !in f.createFails);
    var _ := server.UpdatePvc(pvc.uid, AnnBackup, "", pvc.uid !in f.updateFails);
    return Returned(Answer(true, LONGER, false));
  }

  method CreateScheduledTasks(server: ConfigServer, config: ConfigObject, ghost c: Config, spec: RepoSpec,
                              managed: seq<Pvc>, f: Answers)
    requires config.spec == c.spec
    modifies server`tasks
    ensures server.tasks == old(server.tasks) + ScheduledTasks(c, spec, managed, f)
  {
    for j := 0 to |managed|
      invariant server.tasks == old(server.tasks) + ScheduledTasks(c, spec, managed[..j], f)
    {
      assert managed[..j + 1][..j] == managed[..j];
      if managed[j].uid in f.busy {
        continue;
      }
      var task := BuildBackupTask(config, BackupScheduled, [spec], managed[j], "now", f);
      var _ := server.Create(task.value, managed[j].uid !in f.createFails);
    }
    assert managed[..|managed|] == managed;
  }

  method ScheduleBackupRepositories(server: ConfigServer, config: ConfigObject, managed: seq<Pvc>, parse: Parser,
                                    f: Answers)
    returns (a: Answer)
    requires Mirrors(config.spec.repos, config.repos)
    modifies server`tasks, config`repos
    ensures var c := old(config.Value());
      match FirstBackupDue(c.spec.repos, c.repos, 0, parse, f.now)
      case None => a == PASS_ON && server.tasks == old(server.tasks) && config.Value() == c
      case Some(i) =>
        && a == Answer(true, LONGER, false)
        && server.tasks == old(server.tasks) + ScheduledTasks(c, c.spec.repos[i], managed, f)
        && config.Value() == BackupStamped(c, i, f.now)
  {
    ghost var c := config.Value();
    for i := 0 to |config.spec.repos|
      invariant config.Value() == c && server.tasks == old(server.tasks)
      invariant FirstBackupDue(c.spec.repos, c.repos, 0, parse, f.now) ==
        FirstBackupDue(c.spec.repos, c.repos, i, parse, f.now)
    {
      var spec, repository := config.spec.repos[i], config.repos[i];
      if !ShouldPerformScheduledOperation(parse, spec.backupSchedule, repository.lastBackup, repository.initialized,
                                           f.now) {
        continue;
      }
      config.repos := config.repos[i := repository.(lastBackup := Some(Stored(f.now)))];
      CreateScheduledTasks(server, config, c, spec, managed, f);
      return Answer(true, LONGER, false);
    }
    return PASS_ON;
  }

  method ScheduleForgetRepositories(server: ConfigServer, config: ConfigObject, parse: Parser, f: Answers)
    returns (a: Answer)
    requires Mirrors(config.spec.repos, config.repos)
    modifies server`forgotten, config`repos
    ensures var c := old(config.Value());
      match FirstForgetDue(c.spec.repos, c.repos, 0, parse, f.now)
      case None => a == PASS_ON && config.Value() == c && server.forgotten == old(server.forgotten)
      case Some(i) =>
        && a == Answer(true, if f.forgetFails then DEFAULT else LONGER, f.forgetFails)
        && config.Value() == ForgetStamped(c, i, f.now)
        && server.forgotten == old(server.forgotten) + [c.spec.repos[i].Target()]
  {
    ghost var c := config.Value();
    for i := 0 to |config.spec.repos|
      invariant config.Value() == c && server.forgotten == old(server.forgotten)
      invariant FirstForgetDue(c.spec.repos, c.repos, 0, parse, f.now) ==
        FirstForgetDue(c.spec.repos, c.repos, i, parse, f.now)
    {
      var spec, repository := config.spec.repos[i], config.repos[i];
      if !ShouldPerformScheduledOperation(parse, spec.forgetSchedule, repository.lastForget, repository.initialized,
                                           f.now) {
        continue;
      }
      config.repos := config.repos[i := repository.(lastForget := Some(Stored(f.now)))];
      var err := server.Forget(spec.Target(), f.forgetFails);
      if err {
        return Answer(true, DEFAULT, true);
      }
      return Answer(true, LONGER, false);
    }
    return PASS_ON;
  }

  /* ---- the chain ---- */

  method CheckDeleteResource(config: ConfigObject) returns (a: Answer)
    ensures a == if config.deleting && !config.guarded then Answer(true, IMMEDIATE, false) else PASS_ON
  {
    if !config.deleting || config.guarded {
      return PASS_ON;
    }
    return Answer(true, IMMEDIATE, false);
  }

  method AddFinalizerIfNew(server: ConfigServer, config: ConfigObject, f: Answers) returns (a: Answer)
    requires server.config == config.Value()
    modifies server`config, config`guarded
    ensures var c := old(server.config);
      if c.initialized || c.guarded then a == PASS_ON && server.config == c && config.Value() == c
      else
        && a == Answer(true, IMMEDIATE, !f.objectWrite)
        && config.Value() == c.(guarded := true)
        && server.config == if f.objectWrite then config.Value() else c
  {
    if config.initialized || config.guarded {
      return PASS_ON;
    }
    config.guarded := true;
    var err := server.Update(config.guarded, config.annotations, f.objectWrite);
    return Answer(true, IMMEDIATE, err);
  }

  method Init(config: ConfigObject) returns (a: Answer)
    modifies config`initialized
    ensures config.initialized
    ensures a == if old(config.initialized) then PASS_ON else Answer(true, IMMEDIATE, false)
  {
    if config.initialized {
      return PASS_ON;
    }
    config.initialized := true;
    return Answer(true, IMMEDIATE, false);
  }

  method AlignRepositories(config: ConfigObject) returns (a: Answer)
    modifies config`repos
    ensures config.repos == Synced(config.spec.repos, old(config.repos))
    ensures a == if Mirrors(config.spec.repos, old(config.repos)) then PASS_ON else Answer(true, IMMEDIATE, false)
  {
    var changed, synced := SyncRepositories(config.spec.repos, config.repos);
    if !changed {
      return PASS_ON;
    }
    config.repos := synced;
    return Answer(true, IMMEDIATE, false);
  }

  /** Handles a stage's answer with a status update, an object update, or no write at all. */
  method StepStatus(server: ConfigServer, config: ConfigObject, a: Answer, f: Answers)
    returns (handled: Option<Verdict>)
    modifies server`config
    ensures handled == Step(a, !f.stepWrite)
    ensures server.config == if a.Writes() && f.stepWrite
                             then old(server.config).(initialized := config.initialized, repos := config.repos)
                             else old(server.config)
  {
    var err := false;
    if a.Writes() {
      err := server.UpdateStatus(config.initialized, config.repos, f.stepWrite);
    }
    return Step(a, err);
  }

  method StepObject(server: ConfigServer, config: ConfigObject, a: Answer, f: Answers)
    returns (handled: Option<Verdict>)
    modifies server`config
    ensures handled == Step(a, !f.stepWrite)
    ensures server.config == if a.Writes() && f.stepWrite
                             then old(server.config).(guarded := config.guarded, annotations := config.annotations)
                             else old(server.config)
  {
    var err := false;
    if a.Writes() {
      err := server.Update(config.guarded, config.annotations, f.stepWrite);
    }
    return Step(a, err);
  }

  /** Nothing is left to prepare: the work stages may run. */
  predicate Prepared(c: Config) {
    && (c.deleting ==> c.guarded)
    && c.initialized
    && Mirrors(c.spec.repos, c.repos)
    && AllInitialized(c.repos)
  }

  method Prepare(server: ConfigServer, config: ConfigObject, ghost managed: seq<Pvc>, ghost parse: Parser, f: Answers)
    returns (handled: Option<Verdict>)
    requires server.config == config.Value() && f.getConfig
    modifies server`config, config
    ensures handled == None <==> Prepared(old(server.config))
    ensures handled == None ==> server.config == old(server.config) == config.Value()
    ensures handled.Some? ==>
      var o := ConfigPass(old(server.config), server.pvcs, managed, parse, f);
      && Some(o.verdict) == handled && o.config == server.config && o.pvcs == server.pvcs && o.created == []
      && o.served == None
  {
    var a := CheckDeleteResource(config);
    if a.reconcile {
      var err := server.Delete(f.stepWrite);
      return Step(a, err);
    }
    a := AddFinalizerIfNew(server, config, f);
    handled := StepObject(server, config, a, f);
    if handled.Some? {
      return;
    }
    a := Init(config);
    handled := StepStatus(server, config, a, f);
    if handled.Some? {
      return;
    }
    a := AlignRepositories(config);
    handled := StepStatus(server, config, a, f);
    if handled.Some? {
      return;
    }
    assert Initialized(config.repos) == config.repos <==> AllInitialized(config.repos);
    a := InitRepositories(config, f);
    handled := StepStatus(server, config, a, f);
  }

  /** The claims the pass works on, and those of them auto-restore is about. */
  method ListPVCsForConfig(server: ConfigServer, config: ConfigObject, f: Answers)
    returns (managed: seq<Pvc>, unclaimed: seq<Pvc>)
    requires UniqueUids(server.pvcs)
    ensures PassList(config.spec.selectors, server.pvcs, managed, f)
    ensures unclaimed == NewUnclaimed(managed, f.now)
  {
    managed := GetPVCsForConfig(config.spec.selectors, server.pvcs, f.listFails);
    var newPvcs := FilterNewPVCs(managed, f.now);
    unclaimed := FilterUnclaimedPVCs(newPvcs);
    NewThenUnclaimed(managed, f.now);
  }

  /** The restore trigger of a claim comes before its backup trigger. */
  method HandlePvc(server: ConfigServer, config: ConfigObject, pvc: Pvc, f: Answers) returns (handled: Option<Verdict>)
    requires server.config == config.Value()
    modifies server`config, server`pvcs, server`tasks
    ensures server.config == old(server.config)
    ensures
      if !Triggered(pvc) then
        handled == None && server.pvcs == old(server.pvcs) && server.tasks == old(server.tasks)
      else if config.spec.repos == [] then
        handled == Some(Crash) && server.pvcs == old(server.pvcs) && server.tasks == old(server.tasks)
      else
        && handled == Some(if f.stepWrite then RequeueAfter(LONGER) else Error)
        && server.pvcs == PvcHandled(old(server.config), old(server.pvcs), pvc, f).0
        && server.tasks == old(server.tasks) + PvcHandled(old(server.config), old(server.pvcs), pvc, f).1
  {
    var restore := PVCRestore(server, config, pvc, f);
    if restore.Panicked? {
      return Some(Crash);
    }
    handled := StepObject(server, config, restore.value, f);
    if handled.Some? {
      return;
    }
    var backup := PVCBackup(server, config, pvc, f);
    if backup.Panicked? {
      return Some(Crash);
    }
    handled := StepObject(server, config, backup.value, f);
  }

  /** Goes through the claims until one has a trigger. */
  method HandlePvcs(server: ConfigServer, config: ConfigObject, managed: seq<Pvc>, f: Answers)
    returns (handled: Option<Verdict>)
    requires server.config == config.Value()
    modifies server`config, server`pvcs, server`tasks
    ensures server.config == old(server.config)
    ensures match FirstTriggered(managed)
      case None => handled == None && server.pvcs == old(server.pvcs) && server.tasks == old(server.tasks)
      case Some(pvc) =>
        if config.spec.repos == [] then
          handled == Some(Crash) && server.pvcs == old(server.pvcs) && server.tasks == old(server.tasks)
        else
          && handled == Some(if f.stepWrite then RequeueAfter(LONGER) else Error)
          && server.pvcs == PvcHandled(old(server.config), old(server.pvcs), pvc, f).0
          && server.tasks == old(server.tasks) + PvcHandled(old(server.config), old(server.pvcs), pvc, f).1
  {
    assert managed[0..] == managed;
    for i := 0 to |managed|
      invariant server.config == old(server.config) && server.pvcs == old(server.pvcs)
        && server.tasks == old(server.tasks)
      invariant FirstTriggered(managed) == FirstTriggered(managed[i..])
    {
      assert managed[i..][1..] == managed[i + 1..];
      handled := HandlePvc(server, config, managed[i], f);
      if handled.Some? {
        return;
      }
    }
    return None;
  }

  /** Of the two annotations of the config the restore comes first. */
  method HandleConfig(server: ConfigServer, config: ConfigObject, managed: seq<Pvc>, f: Answers)
    returns (handled: Option<Verdict>)
    requires server.config == config.Value()
    modifies server`config, server`tasks, config`annotations
    ensures var c := old(server.config);
      if ValueOf(c.annotations, AnnRestore) == "" && ValueOf(c.annotations, AnnBackup) == "" then
        handled == None && server.config == c == config.Value() && server.tasks == old(server.tasks)
      else if c.spec.repos == [] && managed != [] then
        handled == Some(Crash) && server.config == c && server.tasks == old(server.tasks)
      else
        var o := Consumed(c, server.pvcs, managed, f);
        && handled == Some(o.verdict) && server.config == o.config && server.pvcs == o.pvcs
        && server.tasks == old(server.tasks) + o.created && o.served == None
  {
    var restore := ConfigRestore(server, config, managed, f);
    if restore.Panicked? {
      return Some(Crash);
    }
    handled := StepObject(server, config, restore.value, f);
    if handled.Some? {
      return;
    }
    var backup := ConfigBackup(server, config, managed, f);
    if backup.Panicked? {
      return Some(Crash);
    }
    handled := StepObject(server, config, backup.value, f);
  }

  /** The annotations of the config come first, then those of the claims. */
  method Consume(server: ConfigServer, config: ConfigObject, managed: seq<Pvc>, f: Answers)
    returns (handled: Option<Verdict>)
    requires server.config == config.Value()
    modifies server`config, server`pvcs, server`tasks, config`annotations
    ensures var c := old(server.config);
      if !Requested(c, managed) then
        && handled == None && server.config == c == config.Value() && server.pvcs == old(server.pvcs)
        && server.tasks == old(server.tasks)
      else if c.spec.repos == [] && managed != [] then
        && handled == Some(Crash) && server.config == c && server.pvcs == old(server.pvcs)
        && server.tasks == old(server.tasks)
      else
        var o := Consumed(c, old(server.pvcs), managed, f);
        && handled == Some(o.verdict) && server.config == o.config && server.pvcs == o.pvcs
        && server.tasks == old(server.tasks) + o.created && o.served == None
  {
    handled := HandleConfig(server, config, managed, f);
    if handled.Some? {
      return;
    }
    handled := HandlePvcs(server, config, managed, f);
  }

  /** The target whose snapshots the pass makes restic forget. */
  function Forgotten(o: Outcome): seq<string> {
    if o.served.Some? && o.served.value.op == Forget then [o.served.value.target] else []
  }

  method RunForgets(server: ConfigServer, config: ConfigObject, ghost managed: seq<Pvc>, parse: Parser, f: Answers)
    returns (verdict: Verdict)
    requires Mirrors(config.spec.repos, config.repos) && server.config == config.Value()
    requires FirstBackupDue(config.spec.repos, config.repos, 0, parse, f.now) == None
    modifies server`config, server`forgotten, config`repos
    ensures var o := Scheduling(old(server.config), server.pvcs, managed, parse, f);
      && verdict == o.verdict && server.config == o.config && server.pvcs == o.pvcs && o.created == []
      && server.forgotten == old(server.forgotten) + Forgotten(o)
  {
    ghost var c := server.config;
    ghost var forget := FirstForgetDue(c.spec.repos, c.repos, 0, parse, f.now);
    var a := ScheduleForgetRepositories(server, config, parse, f);
    // The stage's own error is dropped, so that the stamp is stored even if the run failed.
    var handled := StepStatus(server, config, a.(err := false), f);
    if handled.Some? {
      assert forget.Some?;
      return handled.value;
    }
    assert forget == None && server.config == c;
    return RequeueAfter(DEFAULT);
  }

  method RunSchedules(server: ConfigServer, config: ConfigObject, managed: seq<Pvc>, parse: Parser, f: Answers)
    returns (verdict: Verdict)
    requires Mirrors(config.spec.repos, config.repos) && server.config == config.Value()
    modifies server`config, server`tasks, server`forgotten, config`repos
    ensures var o := Scheduling(old(server.config), server.pvcs, managed, parse, f);
      && verdict == o.verdict && server.config == o.config && server.pvcs == o.pvcs
      && server.tasks == old(server.tasks) + o.created && server.forgotten == old(server.forgotten) + Forgotten(o)
  {
    ghost var c := server.config;
    ghost var backup := FirstBackupDue(c.spec.repos, c.repos, 0, parse, f.now);
    var a := ScheduleBackupRepositories(server, config, managed, parse, f);
    var handled := StepStatus(server, config, a, f);
    if handled.Some? {
      assert backup.Some?;
      return handled.value;
    }
    assert backup == None && server.config == c;
    verdict := RunForgets(server, config, managed, parse, f);
  }

  /** One pass over a config. */
  method Reconcile(server: ConfigServer, parse: Parser, f: Answers) returns (verdict: Verdict, ghost managed: seq<Pvc>)
    requires UniqueUids(server.pvcs)
    modifies server
    ensures f.getConfig && Prepared(old(server.config)) ==>
      PassList(old(server.config).spec.selectors, old(server.pvcs), managed, f)
    ensures var o := ConfigPass(old(server.config), old(server.pvcs), managed, parse, f);
      && verdict == o.verdict && server.config == o.config && server.pvcs == o.pvcs
      && server.tasks == old(server.tasks) + o.created && server.forgotten == old(server.forgotten) + Forgotten(o)
  {
    var config := new ConfigObject(server.config);
    managed := [];
    if !f.getConfig {
      return Error, managed;
    }
    var handled := Prepare(server, config, managed, parse, f);
    if handled.Some? {
      return handled.value, managed;
    }
    var matched, unclaimed := ListPVCsForConfig(server, config, f);
    managed := matched;
    var a := AutoRestore(server, config, unclaimed, f);
    if a.Panicked? {
      return Crash, managed;
    }
    handled := Step(a.value, false);
    if handled.Some? {
      return handled.value, managed;
    }
    handled := Consume(server, config, matched, f);
    if handled.Some? {
      return handled.value, managed;
    }
    verdict := RunSchedules(server, config, matched, parse, f);
  }
}
