/** What becomes of the trigger annotations: a request for a backup or a restore is answered with one task per claim it
    is about, when it is cleared. */
module ManualRequests {
  import opened Schedule
  import opened Annotations
  import opened PvcSelection
  import opened RepositoryStatus
  import opened ConfigTable
  import opened ConfigRuns

  /** How many tasks of a kind there are for a claim. */
  function Count(tasks: seq<NewTask>, kind: TaskKind, uid: string): nat {
    if tasks == [] then 0
    else
      var n := |tasks| - 1;
      Count(tasks[..n], kind, uid) + if tasks[n].kind == kind && tasks[n].pvc == uid then 1 else 0
  }

  /** The annotation that requests tasks of a manual kind. */
  function TriggerOf(kind: TaskKind): AnnKey {
    if kind == RestoreManual then AnnRestore else AnnBackup
  }

  function ManualKind(restore: bool): TaskKind {
    if restore then RestoreManual else BackupManual
  }

  function Cleared(before: Annotations, after: Annotations, key: AnnKey): nat {
    if ValueOf(before, key) != "" && ValueOf(after, key) == "" then 1 else 0
  }

  lemma {:induction false} NoneOfKind(tasks: seq<NewTask>, kind: TaskKind, uid: string)
    requires forall t :: t in tasks ==> t.kind != kind
    ensures Count(tasks, kind, uid) == 0
  {
    if tasks != [] {
      NoneOfKind(tasks[..|tasks| - 1], kind, uid);
    }
  }

  lemma CountOfOneMore(tasks: seq<NewTask>, task: NewTask, kind: TaskKind, uid: string)
    ensures Count(tasks + [task], kind, uid) ==
      Count(tasks, kind, uid) + if task.kind == kind && task.pvc == uid then 1 else 0
  {
    assert (tasks + [task])[..|tasks|] == tasks;
  }

  lemma CountOfOne(tasks: seq<NewTask>, kind: TaskKind, uid: string)
    requires |tasks| == 1
    ensures Count(tasks, kind, uid) == if tasks[0].kind == kind && tasks[0].pvc == uid then 1 else 0
  {
    assert tasks[..0] == [];
  }

  lemma OneMoreConfigTask(c: Config, restore: bool, managed: seq<Pvc>, f: Answers, kind: TaskKind, uid: string)
    requires c.spec.repos != [] && managed != []
    ensures var p := managed[|managed| - 1];
      Count(ConfigTasks(c, restore, managed, f), kind, uid) ==
      Count(ConfigTasks(c, restore, managed[..|managed| - 1], f), kind, uid)
      + if kind == ManualKind(restore) && p.uid == uid && uid !in f.createFails then 1 else 0
  {
    var n := |managed| - 1;
    var front, all := ConfigTasks(c, restore, managed[..n], f), ConfigTasks(c, restore, managed, f);
    if managed[n].uid !in f.createFails {
      CountOfOneMore(front, all[|all| - 1], kind, uid);
    }
  }

  /** A request on the config makes one task for every managed claim whose create is accepted. */
  lemma {:induction false} ConfigTasksCount(c: Config, restore: bool, managed: seq<Pvc>, f: Answers, kind: TaskKind,
                                            uid: string)
    requires (c.spec.repos != [] || managed == []) && UniqueUids(managed)
    ensures Count(ConfigTasks(c, restore, managed, f), kind, uid) ==
      if kind == ManualKind(restore) && HasUid(managed, uid) && uid !in f.createFails then 1 else 0
  {
    if managed != [] {
      var n := |managed| - 1;
      ConfigTasksCount(c, restore, managed[..n], f, kind, uid);
      OneMoreConfigTask(c, restore, managed, f, kind, uid);
      HasUidGrows(managed, uid);
    }
  }

  lemma HasUidGrows(pvcs: seq<Pvc>, uid: string)
    requires UniqueUids(pvcs) && pvcs != []
    ensures HasUid(pvcs, uid) <==> HasUid(pvcs[..|pvcs| - 1], uid) || pvcs[|pvcs| - 1].uid == uid
    ensures !(HasUid(pvcs[..|pvcs| - 1], uid) && pvcs[|pvcs| - 1].uid == uid)
  {
    var n := |pvcs| - 1;
    assert pvcs == pvcs[..n] + [pvcs[n]];
    if HasUid(pvcs[..n], uid) {
      var i :| 0 <= i < n && pvcs[i].uid == uid;
    }
  }

  /** As many tasks of the kind for the claim as requests for it went, on the config and on the claim. */
  predicate Answered(c: Config, pvcs: seq<Pvc>, o: Outcome, i: nat, kind: TaskKind)
    requires i < |pvcs|
  {
    && |o.pvcs| == |pvcs| && o.pvcs[i].uid == pvcs[i].uid
    && Count(o.created, kind, pvcs[i].uid) ==
       Cleared(c.annotations, o.config.annotations, TriggerOf(kind))
       + Cleared(pvcs[i].annotations, o.pvcs[i].annotations, TriggerOf(kind))
  }

  lemma ConfigRequestIsAnswered(c: Config, pvcs: seq<Pvc>, managed: seq<Pvc>, f: Answers, i: nat, kind: TaskKind)
    requires c.spec.repos != [] && UniqueUids(managed) && AllAccepted(f)
    requires ValueOf(c.annotations, AnnRestore) != "" || ValueOf(c.annotations, AnnBackup) != ""
    requires i < |pvcs| && pvcs[i] in managed && (kind == RestoreManual || kind == BackupManual)
    ensures Answered(c, pvcs, Consumed(c, pvcs, managed, f), i, kind)
  {
    ConfigTasksCount(c, ValueOf(c.annotations, AnnRestore) != "", managed, f, kind, pvcs[i].uid);
  }

  lemma ClaimRequestIsAnswered(c: Config, pvcs: seq<Pvc>, p: Pvc, f: Answers, i: nat, kind: TaskKind)
    requires c.spec.repos != [] && AllAccepted(f) && Triggered(p)
    requires i < |pvcs| && (p.uid == pvcs[i].uid ==> p == pvcs[i]) && (kind == RestoreManual || kind == BackupManual)
    ensures var handled := PvcHandled(c, pvcs, p, f);
      && |handled.0| == |pvcs| && handled.0[i].uid == pvcs[i].uid
      && Count(handled.1, kind, pvcs[i].uid) == Cleared(pvcs[i].annotations, handled.0[i].annotations, TriggerOf(kind))
  {
    var tasks := PvcHandled(c, pvcs, p, f).1;
    CountOfOne(tasks, kind, pvcs[i].uid);
  }

  /** The stage in which requests are answered. */
  lemma RequestsAreAnsweredInPlace(c: Config, pvcs: seq<Pvc>, managed: seq<Pvc>, f: Answers, i: nat, kind: TaskKind)
    requires c.spec.repos != [] && Requested(c, managed) && UniqueUids(pvcs) && AllAccepted(f)
    requires IsManagedList(c.spec.selectors, pvcs, managed)
    requires i < |pvcs| && pvcs[i] in managed && (kind == RestoreManual || kind == BackupManual)
    ensures Answered(c, pvcs, Consumed(c, pvcs, managed, f), i, kind)
  {
    if ValueOf(c.annotations, AnnRestore) != "" || ValueOf(c.annotations, AnnBackup) != "" {
      ConfigRequestIsAnswered(c, pvcs, managed, f, i, kind);
    } else {
      var p := FirstTriggered(managed).value;
      var j :| 0 <= j < |pvcs| && pvcs[j] == p;
      ClaimRequestIsAnswered(c, pvcs, p, f, i, kind);
    }
  }

  /** Outside that stage no manual task is created and no request is cleared. */
  lemma OtherPassesAnswerNothing(c: Config, pvcs: seq<Pvc>, managed: seq<Pvc>, parse: Parser, f: Answers, i: nat,
                                 kind: TaskKind)
    requires i < |pvcs| && (kind == RestoreManual || kind == BackupManual)
    requires var o := ConfigPass(c, pvcs, managed, parse, f);
      || o == Still(c, pvcs, o.verdict)
      || (o.created == [] && o.config.annotations == c.annotations && o.pvcs == pvcs)
      || (Mirrors(c.spec.repos, c.repos) && o == Scheduling(c, pvcs, managed, parse, f))
    ensures Answered(c, pvcs, ConfigPass(c, pvcs, managed, parse, f), i, kind)
  {
    var o := ConfigPass(c, pvcs, managed, parse, f);
    if o.created != [] {
      ScheduledTasksAre(c, c.spec.repos[FirstBackupDue(c.spec.repos, c.repos, 0, parse, f.now).value], managed, f);
    }
    NoneOfKind(o.created, kind, pvcs[i].uid);
  }

  lemma AutoRestoreAnswersNothing(c: Config, pvcs: seq<Pvc>, managed: seq<Pvc>, parse: Parser, f: Answers, i: nat,
                                  kind: TaskKind)
    requires i < |pvcs| && (kind == RestoreManual || kind == BackupManual)
    requires Restoring(c, managed, f) != []
    ensures Answered(c, pvcs, ConfigPass(c, pvcs, managed, parse, f), i, kind)
  {
    RestoringPass(c, pvcs, managed, parse, f);
    NoneOfKind(ConfigPass(c, pvcs, managed, parse, f).created, kind, pvcs[i].uid);
  }

  /** No request is lost and none is answered twice: for every managed claim and either kind, an accepted pass creates
      exactly as many tasks as it clears requests. */
  lemma RequestsAreAnsweredOnce(c: Config, pvcs: seq<Pvc>, managed: seq<Pvc>, parse: Parser, f: Answers, i: nat,
                                kind: TaskKind)
    requires UniqueUids(pvcs) && AllAccepted(f)
    requires IsManagedList(c.spec.selectors, pvcs, managed)
    requires i < |pvcs| && Manages(c.spec.selectors, pvcs[i]) && (kind == RestoreManual || kind == BackupManual)
    ensures Answered(c, pvcs, ConfigPass(c, pvcs, managed, parse, f), i, kind)
  {
    var working :=
      c.initialized && !(c.deleting && !c.guarded) && Mirrors(c.spec.repos, c.repos) && AllInitialized(c.repos);
    if Restoring(c, managed, f) != [] {
      AutoRestoreAnswersNothing(c, pvcs, managed, parse, f, i, kind);
    } else if working && Requested(c, managed) && c.spec.repos != [] {
      assert ConfigPass(c, pvcs, managed, parse, f) == Consumed(c, pvcs, managed, f);
      RequestsAreAnsweredInPlace(c, pvcs, managed, f, i, kind);
    } else {
      OtherPassesAnswerNothing(c, pvcs, managed, parse, f, i, kind);
    }
  }

  /** With refusals the balance of a request on the config is kept, for each claim, exactly when its task is created
      if and only if the config is written: a refused create loses the request for this claim, a refused write repeats
      it. The balance of the other kind is kept in any case. */
  lemma ConfigRequestIsAnsweredExactly(c: Config, pvcs: seq<Pvc>, managed: seq<Pvc>, f: Answers, i: nat, kind: TaskKind)
    requires c.spec.repos != [] && UniqueUids(managed)
    requires ValueOf(c.annotations, AnnRestore) != "" || ValueOf(c.annotations, AnnBackup) != ""
    requires i < |pvcs| && pvcs[i] in managed && (kind == RestoreManual || kind == BackupManual)
    ensures Answered(c, pvcs, Consumed(c, pvcs, managed, f), i, kind) <==>
      (kind == ManualKind(ValueOf(c.annotations, AnnRestore) != "") ==>
        (pvcs[i].uid !in f.createFails <==> f.stepWrite))
  {
    ConfigTasksCount(c, ValueOf(c.annotations, AnnRestore) != "", managed, f, kind, pvcs[i].uid);
  }

  /** With refusals the balance of a claim's own request is kept exactly when its task and its clearing are refused or
      accepted together: a refused create loses the request, a refused clearing repeats it. */
  lemma ClaimRequestIsAnsweredExactly(c: Config, pvcs: seq<Pvc>, i: nat, f: Answers, kind: TaskKind)
    requires c.spec.repos != [] && i < |pvcs| && Triggered(pvcs[i])
    requires kind == ManualKind(ValueOf(pvcs[i].annotations, AnnRestore) != "")
    ensures var handled := PvcHandled(c, pvcs, pvcs[i], f);
      && |handled.0| == |pvcs|
      && (Count(handled.1, kind, pvcs[i].uid) == Cleared(pvcs[i].annotations, handled.0[i].annotations, TriggerOf(kind))
          <==> (pvcs[i].uid in f.createFails <==> pvcs[i].uid in f.updateFails))
  {
    var tasks := PvcHandled(c, pvcs, pvcs[i], f).1;
    if tasks != [] {
      CountOfOne(tasks, kind, pvcs[i].uid);
    }
  }
}
