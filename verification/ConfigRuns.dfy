/** Runs of any number of configs over the same claims, with users editing both in between: no claim is restored
    automatically twice. */
module ConfigRuns {
  import opened Reconciling
  import opened Schedule
  import opened Annotations
  import opened PvcSelection
  import opened RepositoryStatus
  import opened ConfigTable

  /** A scheduled run: the config, what it did to which target, and the second it is stamped with. */
  datatype Run = Run(config: string, service: Service, at: Time)

  /** All configs by UID, all claims, and everything done so far. */
  datatype Fleet = Fleet(configs: map<string, Config>, pvcs: seq<Pvc>, tasks: seq<NewTask>, services: seq<Run>)

  datatype Event =
    | Pass(id: string, managed: seq<Pvc>, f: Answers)
    | ConfigAdded(id: string, config: Config)
    | SpecEdited(id: string, spec: ConfigSpec)
    | ConfigAnnotated(id: string, annotations: Annotations)
    | ConfigDeleted(id: string)
    | ConfigRemoved(id: string)
    | ClaimAdded(pvc: Pvc)
    | ClaimEdited(pvc: Pvc)
    | ClaimRemoved(uid: string)

  function Replaced(pvcs: seq<Pvc>, pvc: Pvc): seq<Pvc> {
    seq(|pvcs|, i requires 0 <= i < |pvcs| => if pvcs[i].uid == pvc.uid then pvc else pvcs[i])
  }

  function Without(pvcs: seq<Pvc>, uid: string): seq<Pvc> {
    if pvcs == [] then []
    else
      var n := |pvcs| - 1;
      if pvcs[n].uid == uid then Without(pvcs[..n], uid) else Without(pvcs[..n], uid) + [pvcs[n]]
  }

  function AfterPass(s: Fleet, id: string, o: Outcome, now: Time): Fleet {
    Fleet(s.configs[id := o.config], o.pvcs, s.tasks + o.created,
          s.services + if o.served.Some? then [Run(id, o.served.value, Stored(now))] else [])
  }

  function Apply(s: Fleet, e: Event, parse: Parser): Fleet
    requires e.Pass? ==> e.id in s.configs
    requires (e.SpecEdited? || e.ConfigAnnotated? || e.ConfigDeleted?) ==> e.id in s.configs
  {
    match e
    case Pass(id, managed, f) => AfterPass(s, id, ConfigPass(s.configs[id], s.pvcs, managed, parse, f), f.now)
    case ConfigAdded(id, config) => s.(configs := s.configs[id := config])
    case SpecEdited(id, spec) => s.(configs := s.configs[id := s.configs[id].(spec := spec)])
    case ConfigAnnotated(id, annotations) => s.(configs := s.configs[id := s.configs[id].(annotations := annotations)])
    case ConfigDeleted(id) => s.(configs := s.configs[id := s.configs[id].(deleting := true)])
    case ConfigRemoved(id) => s.(configs := s.configs - {id})
    case ClaimAdded(pvc) => s.(pvcs := s.pvcs + [pvc])
    case ClaimEdited(pvc) => s.(pvcs := Replaced(s.pvcs, pvc))
    case ClaimRemoved(uid) => s.(pvcs := Without(s.pvcs, uid))
  }

  /** How many automatic restores of a claim there are among these tasks. */
  function Restores(tasks: seq<NewTask>, uid: string): nat {
    if tasks == [] then 0
    else
      var n := |tasks| - 1;
      Restores(tasks[..n], uid) + if tasks[n].kind == RestoreAutomated && tasks[n].pvc == uid then 1 else 0
  }

  /** The stamps of the scheduled runs of one operation on one target of one config, in order. */
  function Stamps(services: seq<Run>, id: string, service: Service): seq<Time> {
    if services == [] then []
    else
      var n := |services| - 1;
      var front := Stamps(services[..n], id, service);
      if services[n].config == id && services[n].service == service then front + [services[n].at] else front
  }

  /** What can happen: a pass works on a list of the managed claims, new objects have new UIDs, and a new config has an
      empty status. */
  ghost predicate Possible(s: Fleet, e: Event) {
    match e
    case Pass(id, managed, f) =>
      && id in s.configs
      && PassList(s.configs[id].spec.selectors, s.pvcs, managed, f)
    case ConfigAdded(id, config) =>
      && id !in s.configs && (forall x :: x in s.services ==> x.config != id)
      && !config.initialized && config.repos == []
    case SpecEdited(id, _) => id in s.configs
    case ConfigAnnotated(id, _) => id in s.configs
    case ConfigDeleted(id) => id in s.configs
    case ConfigRemoved(_) => true
    case ClaimAdded(pvc) => !HasUid(s.pvcs, pvc.uid) && Restores(s.tasks, pvc.uid) == 0
    case ClaimEdited(_) => true
    case ClaimRemoved(_) => true
  }

  predicate Start(s: Fleet) {
    s == Fleet(map[], [], [], [])
  }

  ghost predicate IsRun(run: seq<Fleet>, es: seq<Event>, parse: Parser) {
    && |run| == |es| + 1
    && Start(run[0])
    && forall i :: 0 <= i < |es| ==> Possible(run[i], es[i]) && run[i + 1] == Apply(run[i], es[i], parse)
  }

  /* ---- one automatic restore per claim ---- */

  /** No mark is lost, neither to a refused write after a create nor to a user. */
  ghost predicate KeepsMarks(s: Fleet, e: Event) {
    match e
    case Pass(_, managed, f) => MarkStored(NewUnclaimed(managed, f.now), f)
    case ClaimEdited(pvc) => forall p :: p in s.pvcs && p.uid == pvc.uid && Processed(p) ==> Processed(pvc)
    case _ => true
  }

  ghost predicate RestoredOnce(s: Fleet) {
    && UniqueUids(s.pvcs)
    && (forall u :: Restores(s.tasks, u) <= 1)
    && (forall i :: 0 <= i < |s.pvcs| && Restores(s.tasks, s.pvcs[i].uid) > 0 ==> Processed(s.pvcs[i]))
  }

  lemma {:induction false} RestoresAppend(a: seq<NewTask>, b: seq<NewTask>, uid: string)
    ensures Restores(a + b, uid) == Restores(a, uid) + Restores(b, uid)
  {
    if b == [] {
      assert a + b == a;
    } else {
      var n := |b| - 1;
      assert (a + b)[..|a + b| - 1] == a + b[..n];
      RestoresAppend(a, b[..n], uid);
    }
  }

  lemma {:induction false} NoRestores(tasks: seq<NewTask>, uid: string)
    requires forall t :: t in tasks ==> t.kind != RestoreAutomated
    ensures Restores(tasks, uid) == 0
  {
    if tasks != [] {
      NoRestores(tasks[..|tasks| - 1], uid);
    }
  }

  lemma {:induction false} ConfigTasksKind(c: Config, restore: bool, managed: seq<Pvc>, f: Answers)
    requires c.spec.repos != [] || managed == []
    ensures forall t :: t in ConfigTasks(c, restore, managed, f) ==>
      t.kind == if restore then RestoreManual else BackupManual
  {
    if managed != [] {
      ConfigTasksKind(c, restore, managed[..|managed| - 1], f);
    }
  }

  lemma {:induction false} UnclaimedAreUnique(managed: seq<Pvc>, now: Time)
    requires UniqueUids(managed)
    ensures UniqueUids(NewUnclaimed(managed, now))
  {
    if managed != [] {
      var n := |managed| - 1;
      UnclaimedAreUnique(managed[..n], now);
      var rest := NewUnclaimed(managed[..n], now);
      forall i | 0 <= i < |rest|
        ensures rest[i].uid != managed[n].uid
      {
        assert rest[i] in rest;
        var j :| 0 <= j < n && managed[j] == rest[i];
      }
    }
  }

  /** One automatic restore for each claim of the list, in order. */
  predicate RestoresOf(tasks: seq<NewTask>, todo: seq<Pvc>) {
    && |tasks| == |todo|
    && forall i :: 0 <= i < |todo| ==> tasks[i].kind == RestoreAutomated && tasks[i].pvc == todo[i].uid
  }

  lemma {:induction false} EachRestoredOnce(tasks: seq<NewTask>, todo: seq<Pvc>, uid: string)
    requires UniqueUids(todo) && RestoresOf(tasks, todo)
    ensures Restores(tasks, uid) == if HasUid(todo, uid) then 1 else 0
  {
    if todo != [] {
      var n := |todo| - 1;
      EachRestoredOnce(tasks[..n], todo[..n], uid);
      assert todo == todo[..n] + [todo[n]];
      if HasUid(todo[..n], uid) {
        var i :| 0 <= i < n && todo[i].uid == uid;
      }
    }
  }

  /** The claims a pass restores automatically: none if it never gets there. */
  function Restoring(c: Config, managed: seq<Pvc>, f: Answers): seq<Pvc> {
    if f.getConfig && c.initialized && !(c.deleting && !c.guarded) && Mirrors(c.spec.repos, c.repos)
      && AllInitialized(c.repos)
      && c.spec.autoRestore && c.spec.repos != []
    then NewUnclaimed(managed, f.now)
    else []
  }

  lemma OtherPassesDoNotRestore(c: Config, pvcs: seq<Pvc>, managed: seq<Pvc>, parse: Parser, f: Answers, uid: string)
    requires Restoring(c, managed, f) == []
    ensures Restores(ConfigPass(c, pvcs, managed, parse, f).created, uid) == 0
  {
    var o := ConfigPass(c, pvcs, managed, parse, f);
    if o.created != [] {
      assert o == Working(c, pvcs, managed, parse, f);
      if Requested(c, managed) {
        ConfigTasksKind(c, true, managed, f);
        ConfigTasksKind(c, false, managed, f);
      } else {
        assert o == Scheduling(c, pvcs, managed, parse, f);
        var i := FirstBackupDue(c.spec.repos, c.repos, 0, parse, f.now).value;
        ScheduledTasksAre(c, c.spec.repos[i], managed, f);
      }
      NoRestores(o.created, uid);
    }
  }

  lemma OtherPassesKeepMarks(c: Config, pvcs: seq<Pvc>, managed: seq<Pvc>, parse: Parser, f: Answers)
    requires Restoring(c, managed, f) == []
    ensures var o := ConfigPass(c, pvcs, managed, parse, f);
      && |o.pvcs| == |pvcs|
      && forall i :: 0 <= i < |pvcs| ==> o.pvcs[i].uid == pvcs[i].uid && (Processed(o.pvcs[i]) <==> Processed(pvcs[i]))
  {
    var o := ConfigPass(c, pvcs, managed, parse, f);
    if o.pvcs != pvcs {
      assert o == Working(c, pvcs, managed, parse, f);
      assert o == Consumed(c, pvcs, managed, f);
      ConsumingKeepsMarks(c, pvcs, managed, f);
    }
  }

  lemma ConsumingKeepsMarks(c: Config, pvcs: seq<Pvc>, managed: seq<Pvc>, f: Answers)
    requires (c.spec.repos != [] || managed == []) && Requested(c, managed)
    ensures var o := Consumed(c, pvcs, managed, f);
      && |o.pvcs| == |pvcs|
      && forall i :: 0 <= i < |pvcs| ==> o.pvcs[i].uid == pvcs[i].uid && (Processed(o.pvcs[i]) <==> Processed(pvcs[i]))
  {
  }

  lemma {:induction false} ScheduledTasksAre(c: Config, spec: RepoSpec, managed: seq<Pvc>, f: Answers)
    ensures forall t :: t in ScheduledTasks(c, spec, managed, f) ==>
      exists p :: p in managed && p.uid !in f.busy && p.uid !in f.createFails
        && t == BackupTask(c, BackupScheduled, [spec], p, "now", f)
  {
    if managed != [] {
      var n := |managed| - 1;
      ScheduledTasksAre(c, spec, managed[..n], f);
      assert managed == managed[..n] + [managed[n]];
    }
  }

  lemma RestoringPass(c: Config, pvcs: seq<Pvc>, managed: seq<Pvc>, parse: Parser, f: Answers)
    requires Restoring(c, managed, f) != []
    ensures var o := ConfigPass(c, pvcs, managed, parse, f);
      var todo := NewUnclaimed(managed, f.now);
      && o.config == c && o.served == None
      && o.pvcs == Marked(pvcs, todo[..Served(todo, f)])
      && RestoresOf(o.created, Tasked(todo, f))
      && c.spec.repos != [] && o.created == AutoTasks(c, Tasked(todo, f), f)
  {
    var todo := NewUnclaimed(managed, f.now);
    var n := Served(todo, f);
    assert todo[..|todo|] == todo;
    var o := ConfigPass(c, pvcs, managed, parse, f);
    assert o == Working(c, pvcs, managed, parse, f);
    assert o.created == AutoTasks(c, Tasked(todo, f), f);
  }

  /** When the create of a task is refused during auto-restore, the pass comes back after five seconds. */
  lemma RefusedRestoreComesBack(c: Config, pvcs: seq<Pvc>, managed: seq<Pvc>, parse: Parser, f: Answers)
    requires Restoring(c, managed, f) != []
    ensures var todo := NewUnclaimed(managed, f.now); var n := Served(todo, f);
      ConfigPass(c, pvcs, managed, parse, f).verdict == RequeueAfter(5) <==> n < |todo| && todo[n].uid in f.createFails
  {
  }

  /** Claims that are not marked yet have not been restored, and are restored now. */
  lemma NewlyRestored(s: Fleet, done: seq<Pvc>, created: seq<NewTask>, u: string)
    requires RestoredOnce(s) && UniqueUids(done) && RestoresOf(created, done)
    requires forall p :: p in done ==> p in s.pvcs && !Processed(p)
    ensures Restores(s.tasks + created, u) == if HasUid(done, u) then 1 else Restores(s.tasks, u)
  {
    RestoresAppend(s.tasks, created, u);
    EachRestoredOnce(created, done, u);
    if HasUid(done, u) {
      var p :| p in done && p.uid == u;
      var i :| 0 <= i < |s.pvcs| && s.pvcs[i] == p;
    }
  }

  lemma MarkingKeepsInvariant(s: Fleet, t: Fleet, done: seq<Pvc>, created: seq<NewTask>)
    requires RestoredOnce(s) && UniqueUids(done) && RestoresOf(created, done)
    requires forall p :: p in done ==> p in s.pvcs && !Processed(p)
    requires t.pvcs == Marked(s.pvcs, done) && t.tasks == s.tasks + created
    ensures RestoredOnce(t)
  {
    forall u
      ensures Restores(t.tasks, u) == if HasUid(done, u) then 1 else Restores(s.tasks, u)
    {
      NewlyRestored(s, done, created, u);
    }
  }

  lemma RestoringKeepsInvariant(s: Fleet, id: string, managed: seq<Pvc>, f: Answers, parse: Parser)
    requires RestoredOnce(s) && id in s.configs
    requires IsManagedList(s.configs[id].spec.selectors, s.pvcs, managed)
    requires Restoring(s.configs[id], managed, f) != [] && MarkStored(NewUnclaimed(managed, f.now), f)
    ensures RestoredOnce(Apply(s, Pass(id, managed, f), parse))
  {
    var todo := NewUnclaimed(managed, f.now);
    var done := todo[..Served(todo, f)];
    RestoringPass(s.configs[id], s.pvcs, managed, parse, f);
    UnclaimedAreUnique(managed, f.now);
    forall p | p in done
      ensures p in s.pvcs && !Processed(p)
    {
      assert p in todo;
    }
    MarkingKeepsInvariant(s, Apply(s, Pass(id, managed, f), parse), done,
                          ConfigPass(s.configs[id], s.pvcs, managed, parse, f).created);
  }

  lemma PassKeepsRestoredOnce(s: Fleet, id: string, managed: seq<Pvc>, f: Answers, parse: Parser)
    requires RestoredOnce(s) && Possible(s, Pass(id, managed, f)) && KeepsMarks(s, Pass(id, managed, f))
    ensures RestoredOnce(Apply(s, Pass(id, managed, f), parse))
  {
    var c := s.configs[id];
    if Restoring(c, managed, f) != [] {
      RestoringKeepsInvariant(s, id, managed, f, parse);
    } else {
      var o := ConfigPass(c, s.pvcs, managed, parse, f);
      OtherPassesKeepMarks(c, s.pvcs, managed, parse, f);
      forall u
        ensures Restores(s.tasks + o.created, u) == Restores(s.tasks, u)
      {
        RestoresAppend(s.tasks, o.created, u);
        OtherPassesDoNotRestore(c, s.pvcs, managed, parse, f, u);
      }
    }
  }

  lemma {:induction false} WithoutIs(pvcs: seq<Pvc>, uid: string)
    requires UniqueUids(pvcs)
    ensures UniqueUids(Without(pvcs, uid))
    ensures forall p :: p in Without(pvcs, uid) <==> p in pvcs && p.uid != uid
  {
    if pvcs != [] {
      var n := |pvcs| - 1;
      WithoutIs(pvcs[..n], uid);
      assert pvcs == pvcs[..n] + [pvcs[n]];
      var rest := Without(pvcs[..n], uid);
      forall i | 0 <= i < |rest|
        ensures rest[i].uid != pvcs[n].uid
      {
        assert rest[i] in rest;
        var j :| 0 <= j < n && pvcs[j] == rest[i];
      }
    }
  }

  lemma EventKeepsRestoredOnce(s: Fleet, e: Event, parse: Parser)
    requires RestoredOnce(s) && Possible(s, e) && KeepsMarks(s, e)
    ensures RestoredOnce(Apply(s, e, parse))
  {
    match e
    case Pass(id, managed, f) => PassKeepsRestoredOnce(s, id, managed, f, parse);
    case ClaimAdded(pvc) =>
      forall i | 0 <= i < |s.pvcs|
        ensures s.pvcs[i].uid != pvc.uid
      {
        assert s.pvcs[i] in s.pvcs;
      }
    case ClaimEdited(pvc) =>
    case ClaimRemoved(uid) =>
      WithoutIs(s.pvcs, uid);
      var left := Without(s.pvcs, uid);
      forall i | 0 <= i < |left| && Restores(s.tasks, left[i].uid) > 0
        ensures Processed(left[i])
      {
        assert left[i] in left;
        var j :| 0 <= j < |s.pvcs| && s.pvcs[j] == left[i];
      }
    case _ =>
  }

  /** Over every run of any number of configs that select the same claims, each claim is restored automatically at most
      once. */
  lemma {:induction false} RestoredAtMostOnce(run: seq<Fleet>, es: seq<Event>, parse: Parser)
    requires IsRun(run, es, parse)
    requires forall i :: 0 <= i < |es| ==> KeepsMarks(run[i], es[i])
    ensures RestoredOnce(run[|es|])
    ensures forall u :: Restores(run[|es|].tasks, u) <= 1
  {
    if es != [] {
      var n := |es| - 1;
      RestoredAtMostOnce(run[..n + 1], es[..n], parse);
      EventKeepsRestoredOnce(run[n], es[n], parse);
    }
  }

  /** A pass over these claims that tasks `p` adds one automatic restore of it. */
  lemma TaskedIsRestored(s: Fleet, id: string, managed: seq<Pvc>, f: Answers, parse: Parser, p: Pvc)
    requires UniqueUids(managed) && id in s.configs
    requires Restoring(s.configs[id], managed, f) != [] && p in Tasked(NewUnclaimed(managed, f.now), f)
    ensures Restores(Apply(s, Pass(id, managed, f), parse).tasks, p.uid) == Restores(s.tasks, p.uid) + 1
  {
    UnclaimedAreUnique(managed, f.now);
    RestoringPass(s.configs[id], s.pvcs, managed, parse, f);
    OneMoreRestore(s.tasks, ConfigPass(s.configs[id], s.pvcs, managed, parse, f).created,
                   Tasked(NewUnclaimed(managed, f.now), f), p);
  }

  lemma OneMoreRestore(tasks: seq<NewTask>, created: seq<NewTask>, tasked: seq<Pvc>, p: Pvc)
    requires UniqueUids(tasked) && RestoresOf(created, tasked) && p in tasked
    ensures Restores(tasks + created, p.uid) == Restores(tasks, p.uid) + 1
  {
    RestoresAppend(tasks, created, p.uid);
    EachRestoredOnce(created, tasked, p.uid);
  }

  /** The mark is what prevents the second restore: if its write is refused after the task was created, the next pass
      over the claim that is not refused anything creates another one. */
  lemma RefusedMarkRestoresAgain(s: Fleet, id: string, managed: seq<Pvc>, f: Answers, again: seq<Pvc>, g: Answers,
                                 parse: Parser)
    requires id in s.configs
    requires IsManagedList(s.configs[id].spec.selectors, s.pvcs, managed)
    requires Restoring(s.configs[id], managed, f) != [] && !MarkStored(NewUnclaimed(managed, f.now), f)
    requires AllAccepted(g) && g.now == f.now
    requires var t := Apply(s, Pass(id, managed, f), parse);
      IsManagedList(t.configs[id].spec.selectors, t.pvcs, again)
    ensures var t := Apply(s, Pass(id, managed, f), parse);
      var todo := NewUnclaimed(managed, f.now);
      var u := todo[Served(todo, f)].uid;
      Restores(Apply(t, Pass(id, again, g), parse).tasks, u) == Restores(s.tasks, u) + 2
  {
    var todo := NewUnclaimed(managed, f.now);
    var p := todo[Served(todo, f)];
    RefusedMarkIsMissing(s, id, managed, f, parse, p);
    TaskedIsRestored(s, id, managed, f, parse, p);
    ReadyIsRestored(Apply(s, Pass(id, managed, f), parse), id, managed, f, p, again, g, parse);
  }

  /** A claim that is new and unclaimed is restored once more by an accepted pass of a config that is ready for it. */
  lemma ReadyIsRestored(s: Fleet, id: string, managed: seq<Pvc>, f: Answers, p: Pvc, again: seq<Pvc>, g: Answers,
                        parse: Parser)
    requires id in s.configs && AllAccepted(g) && Restoring(s.configs[id], managed, f) != []
    requires IsManagedList(s.configs[id].spec.selectors, s.pvcs, again)
    requires p in s.pvcs && Manages(s.configs[id].spec.selectors, p) && IsNew(p, g.now) && IsUnclaimed(p)
    ensures Restores(Apply(s, Pass(id, again, g), parse).tasks, p.uid) == Restores(s.tasks, p.uid) + 1
  {
    assert p in NewUnclaimed(again, g.now);
    UnclaimedIsRestored(s, id, again, g, parse, p);
  }

  lemma RefusedMarkIsMissing(s: Fleet, id: string, managed: seq<Pvc>, f: Answers, parse: Parser, p: Pvc)
    requires id in s.configs
    requires IsManagedList(s.configs[id].spec.selectors, s.pvcs, managed)
    requires Restoring(s.configs[id], managed, f) != [] && !MarkStored(NewUnclaimed(managed, f.now), f)
    requires p == NewUnclaimed(managed, f.now)[Served(NewUnclaimed(managed, f.now), f)]
    ensures p in Tasked(NewUnclaimed(managed, f.now), f)
    ensures Manages(s.configs[id].spec.selectors, p) && IsNew(p, f.now) && IsUnclaimed(p)
    ensures var t := Apply(s, Pass(id, managed, f), parse); p in t.pvcs && t.configs[id] == s.configs[id]
  {
    var todo := NewUnclaimed(managed, f.now);
    assert p in todo;
    assert Tasked(todo, f)[Served(todo, f)] == p;
    UnclaimedAreUnique(managed, f.now);
    RestoringPass(s.configs[id], s.pvcs, managed, parse, f);
    StillUnclaimed(s.pvcs, todo, Served(todo, f), p);
  }

  lemma StillUnclaimed(pvcs: seq<Pvc>, todo: seq<Pvc>, n: nat, p: Pvc)
    requires UniqueUids(todo) && n < |todo| && todo[n] == p && p in pvcs
    ensures p in Marked(pvcs, todo[..n])
  {
    var i :| 0 <= i < |pvcs| && pvcs[i] == p;
    forall q | q in todo[..n]
      ensures q.uid != p.uid
    {
      var j :| 0 <= j < n && todo[j] == q;
    }
    assert Marked(pvcs, todo[..n])[i] == p;
  }

  lemma {:induction false} AllServed(todo: seq<Pvc>, f: Answers)
    requires f.createFails == {} && f.updateFails == {}
    ensures Served(todo, f) == |todo| && Tasked(todo, f) == todo
  {
    if Served(todo, f) == |todo| {
      assert todo[..|todo|] == todo;
    }
  }

  /** So does a user who removes the mark: a claim that is made new and unclaimed again is restored once more. */
  lemma RemovedMarkRestoresAgain(s: Fleet, id: string, managed: seq<Pvc>, f: Answers, p: Pvc, edited: Pvc,
                                 again: seq<Pvc>, g: Answers, parse: Parser)
    requires id in s.configs && AllAccepted(f) && AllAccepted(g)
    requires IsManagedList(s.configs[id].spec.selectors, s.pvcs, managed)
    requires Restoring(s.configs[id], managed, f) != [] && p in NewUnclaimed(managed, f.now)
    requires edited.uid == p.uid && Manages(s.configs[id].spec.selectors, edited)
    requires IsNew(edited, g.now) && IsUnclaimed(edited)
    requires var t := Apply(Apply(s, Pass(id, managed, f), parse), ClaimEdited(edited), parse);
      IsManagedList(t.configs[id].spec.selectors, t.pvcs, again)
    ensures var t := Apply(Apply(s, Pass(id, managed, f), parse), ClaimEdited(edited), parse);
      Restores(Apply(t, Pass(id, again, g), parse).tasks, p.uid) == Restores(s.tasks, p.uid) + 2
  {
    RestoredAndEdited(s, id, managed, f, p, edited, parse);
    EditedIsRestored(Apply(s, Pass(id, managed, f), parse), id, managed, f, edited, again, g, parse);
  }

  lemma RestoredAndEdited(s: Fleet, id: string, managed: seq<Pvc>, f: Answers, p: Pvc, edited: Pvc, parse: Parser)
    requires id in s.configs && AllAccepted(f) && IsManagedList(s.configs[id].spec.selectors, s.pvcs, managed)
    requires Restoring(s.configs[id], managed, f) != [] && p in NewUnclaimed(managed, f.now) && edited.uid == p.uid
    ensures var t := Apply(s, Pass(id, managed, f), parse);
      && id in t.configs && t.configs[id] == s.configs[id] && edited in Replaced(t.pvcs, edited)
      && Restores(t.tasks, p.uid) == Restores(s.tasks, p.uid) + 1
  {
    var todo := NewUnclaimed(managed, f.now);
    UnclaimedIsRestored(s, id, managed, f, parse, p);
    RestoringPass(s.configs[id], s.pvcs, managed, parse, f);
    EditedIsThere(s.pvcs, todo[..Served(todo, f)], p, edited);
  }

  lemma EditedIsRestored(s: Fleet, id: string, managed: seq<Pvc>, f: Answers, edited: Pvc, again: seq<Pvc>, g: Answers,
                         parse: Parser)
    requires id in s.configs && AllAccepted(g) && Restoring(s.configs[id], managed, f) != []
    requires edited in Replaced(s.pvcs, edited) && Manages(s.configs[id].spec.selectors, edited)
    requires IsNew(edited, g.now) && IsUnclaimed(edited)
    requires var t := Apply(s, ClaimEdited(edited), parse); IsManagedList(t.configs[id].spec.selectors, t.pvcs, again)
    ensures Restores(Apply(Apply(s, ClaimEdited(edited), parse), Pass(id, again, g), parse).tasks, edited.uid) ==
      Restores(s.tasks, edited.uid) + 1
  {
    ReadyIsRestored(Apply(s, ClaimEdited(edited), parse), id, managed, f, edited, again, g, parse);
  }

  lemma UnclaimedIsRestored(s: Fleet, id: string, managed: seq<Pvc>, f: Answers, parse: Parser, p: Pvc)
    requires UniqueUids(managed) && id in s.configs && AllAccepted(f)
    requires Restoring(s.configs[id], managed, f) != [] && p in NewUnclaimed(managed, f.now)
    ensures Restores(Apply(s, Pass(id, managed, f), parse).tasks, p.uid) == Restores(s.tasks, p.uid) + 1
  {
    AllServed(NewUnclaimed(managed, f.now), f);
    TaskedIsRestored(s, id, managed, f, parse, p);
  }

  lemma EditedIsThere(pvcs: seq<Pvc>, done: seq<Pvc>, p: Pvc, edited: Pvc)
    requires p in pvcs && edited.uid == p.uid
    ensures edited in Replaced(Marked(pvcs, done), edited)
  {
    var i :| 0 <= i < |pvcs| && pvcs[i] == p;
    assert Replaced(Marked(pvcs, done), edited)[i] == edited;
  }
}
