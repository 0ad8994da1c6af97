/** What the tasks of a pass are to do: each is for one managed claim, with the restic arguments that follow from what
    asked for it, and a restore asked for with the words of a backup finds that backup. */
module RequestedTasks {
  import opened Schedule
  import opened Annotations
  import opened PvcSelection
  import opened ConfigTable
  import opened ConfigRuns
  import opened ScheduledRuns
  import ResticArgs

  /** The annotation that asks for a task of the claim: that of the config, if it is set, or else the claim's own. */
  function Request(c: Config, p: Pvc, key: AnnKey): string {
    if key in c.annotations && c.annotations[key] != "" then c.annotations[key]
    else if key in p.annotations then p.annotations[key]
    else ""
  }

  /** What restic is told about the claim and what is asked for it. */
  function ParamsOf(c: Config, p: Pvc, annotation: string, f: Answers): ResticArgs.Params {
    ResticArgs.Params(seq(|c.spec.repos|, i requires 0 <= i < |c.spec.repos| => c.spec.repos[i].repo), p.ns, p.name,
                      annotation, f.name(p.uid))
  }

  /** The task does what it was asked for: a manual one works by the annotation that requested it, an automatic restore
      takes the latest snapshot for a claim that is new and unclaimed, and a scheduled backup goes to one repository. */
  ghost predicate AsRequested(c: Config, p: Pvc, f: Answers, task: NewTask)
    requires c.spec.repos != []
  {
    && task.pvc == p.uid && p.uid !in f.createFails && task.stopPods == c.spec.stopPods
    && match task.kind
       case RestoreManual =>
         && Request(c, p, AnnRestore) != ""
         && task.args == ResticArgs.RestoreArgs(ParamsOf(c, p, Request(c, p, AnnRestore), f))
       case BackupManual =>
         && Request(c, p, AnnBackup) != ""
         && task.args == ResticArgs.BackupArgs(ParamsOf(c, p, Request(c, p, AnnBackup), f))
       case RestoreAutomated =>
         && c.spec.autoRestore && f.now <= p.created + 900 * SECOND && IsUnclaimed(p)
         && task.args == ResticArgs.RestoreArgs(ParamsOf(c, p, "", f))
       case BackupScheduled =>
         exists spec :: spec in c.spec.repos
           && task.args == ResticArgs.BackupArgs(ResticArgs.Params([spec.repo], p.ns, p.name, "now", f.name(p.uid)))
  }

  /** The task a request on the config makes for one claim. */
  function ConfigTask(c: Config, restore: bool, p: Pvc, f: Answers): NewTask
    requires c.spec.repos != []
  {
    if restore then RestoreTask(c, RestoreManual, p, ValueOf(c.annotations, AnnRestore), f)
    else BackupTask(c, BackupManual, c.spec.repos, p, ValueOf(c.annotations, AnnBackup), f)
  }

  lemma ConfigTaskIs(c: Config, restore: bool, p: Pvc, f: Answers)
    requires c.spec.repos != [] && p.uid !in f.createFails
    requires ValueOf(c.annotations, if restore then AnnRestore else AnnBackup) != ""
    ensures AsRequested(c, p, f, ConfigTask(c, restore, p, f))
  {
    assert Repos(c.spec.repos) == ParamsOf(c, p, "", f).repos;
  }

  lemma {:induction false} ConfigTasksAre(c: Config, restore: bool, managed: seq<Pvc>, f: Answers, task: NewTask)
      returns (p: Pvc)
    requires c.spec.repos != [] && task in ConfigTasks(c, restore, managed, f)
    ensures p in managed && p.uid !in f.createFails && task == ConfigTask(c, restore, p, f)
  {
    var n := |managed| - 1;
    assert managed == managed[..n] + [managed[n]];
    if task in ConfigTasks(c, restore, managed[..n], f) {
      p := ConfigTasksAre(c, restore, managed[..n], f, task);
    } else {
      p := managed[n];
    }
  }

  lemma ClaimTaskIs(c: Config, pvcs: seq<Pvc>, p: Pvc, f: Answers, task: NewTask)
    requires c.spec.repos != [] && Triggered(p) && task in PvcHandled(c, pvcs, p, f).1
    requires ValueOf(c.annotations, AnnRestore) == "" && ValueOf(c.annotations, AnnBackup) == ""
    ensures AsRequested(c, p, f, task)
  {
    assert Repos(c.spec.repos) == ParamsOf(c, p, "", f).repos;
  }

  lemma AutoTaskIs(c: Config, p: Pvc, f: Answers)
    requires c.spec.repos != [] && c.spec.autoRestore && IsNew(p, f.now) && IsUnclaimed(p) && p.uid !in f.createFails
    ensures AsRequested(c, p, f, AutoTask(c, p, f))
  {
    assert Repos(c.spec.repos) == ParamsOf(c, p, "", f).repos;
  }

  lemma AutoTasksAre(c: Config, todo: seq<Pvc>, f: Answers, task: NewTask) returns (p: Pvc)
    requires c.spec.repos != [] && task in AutoTasks(c, Tasked(todo, f), f)
    ensures p in todo && p.uid !in f.createFails && task == AutoTask(c, p, f)
  {
    var i :| 0 <= i < |Tasked(todo, f)| && AutoTasks(c, Tasked(todo, f), f)[i] == task;
    p := Tasked(todo, f)[i];
    assert p == todo[i];
  }

  lemma RestoringTasksAre(c: Config, pvcs: seq<Pvc>, managed: seq<Pvc>, parse: Parser, f: Answers, task: NewTask)
      returns (p: Pvc)
    requires Restoring(c, managed, f) != [] && task in ConfigPass(c, pvcs, managed, parse, f).created
    ensures c.spec.repos != [] && p in managed && AsRequested(c, p, f, task)
  {
    RestoringPass(c, pvcs, managed, parse, f);
    p := AutoTasksAre(c, NewUnclaimed(managed, f.now), f, task);
    AutoTaskIs(c, p, f);
  }

  /** The stage that answers requests. */
  lemma ConsumedTasksAre(c: Config, pvcs: seq<Pvc>, managed: seq<Pvc>, f: Answers, task: NewTask)
      returns (p: Pvc)
    requires c.spec.repos != [] && Requested(c, managed) && task in Consumed(c, pvcs, managed, f).created
    ensures p in managed && AsRequested(c, p, f, task)
  {
    if ValueOf(c.annotations, AnnRestore) != "" {
      p := ConfigTasksAre(c, true, managed, f, task);
      ConfigTaskIs(c, true, p, f);
    } else if ValueOf(c.annotations, AnnBackup) != "" {
      p := ConfigTasksAre(c, false, managed, f, task);
      ConfigTaskIs(c, false, p, f);
    } else {
      p := FirstTriggered(managed).value;
      ClaimTaskIs(c, pvcs, p, f, task);
    }
  }

  lemma ScheduledTaskIs(c: Config, pvcs: seq<Pvc>, managed: seq<Pvc>, parse: Parser, f: Answers, task: NewTask)
      returns (p: Pvc)
    requires task in ConfigPass(c, pvcs, managed, parse, f).created && task.kind == BackupScheduled
    ensures c.spec.repos != [] && p in managed && AsRequested(c, p, f, task)
  {
    var spec;
    spec, p := ScheduledTasksServe(c, pvcs, managed, parse, f, task);
  }

  /** Every task a pass creates is for a claim that a selector lists and that is not being deleted, and is what was
      asked for. */
  lemma TasksAreAsRequested(c: Config, pvcs: seq<Pvc>, managed: seq<Pvc>, parse: Parser, f: Answers, task: NewTask)
      returns (p: Pvc)
    requires PassList(c.spec.selectors, pvcs, managed, f) && task in ConfigPass(c, pvcs, managed, parse, f).created
    ensures p in pvcs && p in managed && !p.deleting && exists sel :: sel in c.spec.selectors && Lists(sel, p)
    ensures c.spec.repos != [] && AsRequested(c, p, f, task)
  {
    var o := ConfigPass(c, pvcs, managed, parse, f);
    if Restoring(c, managed, f) != [] {
      p := RestoringTasksAre(c, pvcs, managed, parse, f, task);
    } else if task.kind == BackupScheduled {
      p := ScheduledTaskIs(c, pvcs, managed, parse, f, task);
    } else {
      OtherTasksAreConsumed(c, pvcs, managed, parse, f, task);
      p := ConsumedTasksAre(c, pvcs, managed, f, task);
    }
    assert Manages(c.spec.selectors, p);
  }

  lemma OtherTasksAreConsumed(c: Config, pvcs: seq<Pvc>, managed: seq<Pvc>, parse: Parser, f: Answers, task: NewTask)
    requires Restoring(c, managed, f) == [] && task in ConfigPass(c, pvcs, managed, parse, f).created
    requires task.kind != BackupScheduled
    ensures c.spec.repos != [] && Requested(c, managed) && task in Consumed(c, pvcs, managed, f).created
  {
    var o := ConfigPass(c, pvcs, managed, parse, f);
    assert o == Working(c, pvcs, managed, parse, f);
    if !Requested(c, managed) {
      assert o == Scheduling(c, pvcs, managed, parse, f);
      var due := FirstBackupDue(c.spec.repos, c.repos, 0, parse, f.now);
      ScheduledTasksAre(c, c.spec.repos[due.value], managed, f);
    }
  }

  /** A manual restore, asked for with the same words as a manual backup of the same claim, selects the snapshot of that
      backup if and only if these have a pipe and their last part is no word for the latest snapshot. */
  lemma ManualBackupIsFoundExactly(c: Config, pvcs: seq<Pvc>, managed: seq<Pvc>, parse: Parser, f: Answers,
                                   backup: NewTask,
                                   d: Config, claims: seq<Pvc>, listed: seq<Pvc>, g: Answers, restore: NewTask)
      returns (p: Pvc, q: Pvc)
    requires PassList(c.spec.selectors, pvcs, managed, f) && PassList(d.spec.selectors, claims, listed, g)
    requires backup in ConfigPass(c, pvcs, managed, parse, f).created && backup.kind == BackupManual
    requires restore in ConfigPass(d, claims, listed, parse, g).created && restore.kind == RestoreManual
    requires Repos(d.spec.repos) == Repos(c.spec.repos)
    ensures p in managed && q in listed && backup.pvc == p.uid && restore.pvc == q.uid && |backup.args| == 6
    ensures p.ns == q.ns && p.name == q.name && Request(c, p, AnnBackup) == Request(d, q, AnnRestore) ==>
      var parts := ResticArgs.Split(Request(c, p, AnnBackup));
      restore.args == ResticArgs.Undoes(backup.args) <==> |parts| > 1 && !ResticArgs.MeansLatest(parts[|parts| - 1])
  {
    p := TasksAreAsRequested(c, pvcs, managed, parse, f, backup);
    q := TasksAreAsRequested(d, claims, listed, parse, g, restore);
    SameWordsFind(c, p, f, backup, d, q, g, restore);
  }

  lemma SameWordsFind(c: Config, p: Pvc, f: Answers, backup: NewTask, d: Config, q: Pvc, g: Answers, restore: NewTask)
    requires c.spec.repos != [] && AsRequested(c, p, f, backup) && backup.kind == BackupManual
    requires d.spec.repos != [] && AsRequested(d, q, g, restore) && restore.kind == RestoreManual
    requires Repos(d.spec.repos) == Repos(c.spec.repos)
    ensures |backup.args| == 6
    ensures p.ns == q.ns && p.name == q.name && Request(c, p, AnnBackup) == Request(d, q, AnnRestore) ==>
      var parts := ResticArgs.Split(Request(c, p, AnnBackup));
      restore.args == ResticArgs.Undoes(backup.args) <==> |parts| > 1 && !ResticArgs.MeansLatest(parts[|parts| - 1])
  {
    var words := ParamsOf(c, p, Request(c, p, AnnBackup), f);
    if p.ns == q.ns && p.name == q.name && Request(c, p, AnnBackup) == Request(d, q, AnnRestore) {
      assert Repos(c.spec.repos) == words.repos && Repos(d.spec.repos) == ParamsOf(d, q, "", g).repos;
      assert ParamsOf(d, q, Request(d, q, AnnRestore), g) == words.(taskName := g.name(q.uid));
      NameOfRestoreIsFree(words, g.name(q.uid));
    }
  }

  /** A restore does not depend on the name of its own task. */
  lemma NameOfRestoreIsFree(params: ResticArgs.Params, name: string)
    requires params.repos != []
    ensures var parts := ResticArgs.Split(params.annotation);
      ResticArgs.RestoreArgs(params.(taskName := name)) == ResticArgs.Undoes(ResticArgs.BackupArgs(params)) <==>
        |parts| > 1 && !ResticArgs.MeansLatest(parts[|parts| - 1])
  {
    ResticArgs.SameAnnotationFindsExactly(params);
  }
}
