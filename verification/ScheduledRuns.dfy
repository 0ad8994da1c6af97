/** How often a target is backed up and pruned on schedule over a whole run, and what these backups can be restored
    with. */
module ScheduledRuns {
  import opened Reconciling
  import opened Schedule
  import opened PvcSelection
  import opened RepositoryStatus
  import opened ConfigTable
  import opened ConfigRuns
  import ResticArgs

  /** The spec names every target once, and that of the service with this schedule for the operation. */
  predicate Watches(spec: seq<RepoSpec>, service: Service, schedule: string) {
    && DistinctSpec(spec)
    && exists i :: 0 <= i < |spec| && spec[i].Target() == service.target && ScheduleOf(spec[i], service.op) == schedule
  }

  function ScheduleOf(spec: RepoSpec, op: Operation): string {
    match op
    case Backup => spec.backupSchedule
    case Forget => spec.forgetSchedule
  }

  function StampOf(st: RepoStatus, op: Operation): Option<Time> {
    match op
    case Backup => st.lastBackup
    case Forget => st.lastForget
  }

  /** When the operation last ran on the target, as far as the status knows. */
  function LastRun(status: seq<RepoStatus>, service: Service): Option<Time> {
    var entry := EntryOf(status, service.target);
    if entry.Some? then StampOf(entry.value, service.op) else None
  }

  /* ---- what a pass does to the stamp of a target ---- */

  lemma EntryAfterUpdate(status: seq<RepoStatus>, i: nat, e: RepoStatus, target: string)
    requires DistinctTargets(status) && i < |status| && e.target == status[i].target
    ensures DistinctTargets(status[i := e])
    ensures EntryOf(status[i := e], target) == if target == e.target then Some(e) else EntryOf(status, target)
  {
    var next := status[i := e];
    EntryOfIs(status, target);
    EntryOfIs(next, target);
    if j :| 0 <= j < |status| && status[j].target == target {
      assert next[j].target == target;
      EntryAt(status, j);
      EntryAt(next, j);
    }
  }

  lemma EntryAfterInit(status: seq<RepoStatus>, service: Service)
    requires DistinctTargets(status)
    ensures DistinctTargets(Initialized(status))
    ensures LastRun(Initialized(status), service) == LastRun(status, service)
  {
    var next := Initialized(status);
    EntryOfIs(status, service.target);
    EntryOfIs(next, service.target);
    if j :| 0 <= j < |status| && status[j].target == service.target {
      assert next[j].target == service.target;
      EntryAt(status, j);
      EntryAt(next, j);
    }
  }

  lemma EntryAfterSync(spec: seq<RepoSpec>, status: seq<RepoStatus>, service: Service, schedule: string)
    requires Watches(spec, service, schedule)
    ensures DistinctTargets(Synced(spec, status))
    ensures LastRun(Synced(spec, status), service) == LastRun(status, service)
  {
    SyncKeepsEntries(spec, status, service.target);
  }

  lemma StampOfOther(c: Config, i: nat, e: RepoStatus, service: Service)
    requires DistinctTargets(c.repos) && i < |c.repos| && e.target == c.repos[i].target
    requires e.target != service.target || StampOf(e, service.op) == StampOf(c.repos[i], service.op)
    ensures DistinctTargets(c.repos[i := e])
    ensures LastRun(c.repos[i := e], service) == LastRun(c.repos, service)
  {
    EntryAfterUpdate(c.repos, i, e, service.target);
    EntryAt(c.repos, i);
  }

  lemma SchedulingKeepsStamp(c: Config, pvcs: seq<Pvc>, managed: seq<Pvc>, parse: Parser, f: Answers, service: Service)
    requires Mirrors(c.spec.repos, c.repos) && DistinctTargets(c.repos)
    requires Scheduling(c, pvcs, managed, parse, f).served != Some(service)
    ensures var o := Scheduling(c, pvcs, managed, parse, f);
      && o.config.spec == c.spec && DistinctTargets(o.config.repos)
      && LastRun(o.config.repos, service) == LastRun(c.repos, service)
  {
    var backup := FirstBackupDue(c.spec.repos, c.repos, 0, parse, f.now);
    var forget := FirstForgetDue(c.spec.repos, c.repos, 0, parse, f.now);
    if backup.Some? {
      StampOfOther(c, backup.value, BackupStamped(c, backup.value, f.now).repos[backup.value], service);
    } else if forget.Some? {
      StampOfOther(c, forget.value, ForgetStamped(c, forget.value, f.now).repos[forget.value], service);
    }
  }

  lemma ConsumingKeepsRepos(c: Config, pvcs: seq<Pvc>, managed: seq<Pvc>, f: Answers)
    requires (c.spec.repos != [] || managed == []) && Requested(c, managed)
    ensures var o := Consumed(c, pvcs, managed, f);
      o.config.spec == c.spec && o.config.repos == c.repos
  {
  }

  lemma WorkingOnRepos(c: Config, pvcs: seq<Pvc>, managed: seq<Pvc>, parse: Parser, f: Answers)
    requires Mirrors(c.spec.repos, c.repos)
    ensures var o := Working(c, pvcs, managed, parse, f);
      o.config.spec == c.spec && (o.config.repos == c.repos || o == Scheduling(c, pvcs, managed, parse, f))
  {
    if Requested(c, managed) && (c.spec.repos != [] || managed == []) {
      ConsumingKeepsRepos(c, pvcs, managed, f);
    }
  }

  /** The four things a pass can do to the status of the repositories. */
  lemma PassOnRepos(c: Config, pvcs: seq<Pvc>, managed: seq<Pvc>, parse: Parser, f: Answers)
    ensures var o := ConfigPass(c, pvcs, managed, parse, f);
      && o.config.spec == c.spec
      && (|| o.config.repos == c.repos
          || o.config.repos == Synced(c.spec.repos, c.repos)
          || o.config.repos == Initialized(c.repos)
          || (Mirrors(c.spec.repos, c.repos) && o == Scheduling(c, pvcs, managed, parse, f)))
  {
    if c.initialized && Mirrors(c.spec.repos, c.repos) && AllInitialized(c.repos) {
      WorkingOnRepos(c, pvcs, managed, parse, f);
    }
  }

  /** A pass that does not serve the target leaves its stamp alone. */
  lemma OtherPassKeepsStamp(c: Config, pvcs: seq<Pvc>, managed: seq<Pvc>, parse: Parser, f: Answers, service: Service,
                            schedule: string)
    requires Watches(c.spec.repos, service, schedule) && DistinctTargets(c.repos)
    requires ConfigPass(c, pvcs, managed, parse, f).served != Some(service)
    ensures var o := ConfigPass(c, pvcs, managed, parse, f);
      && o.config.spec == c.spec && DistinctTargets(o.config.repos)
      && LastRun(o.config.repos, service) == LastRun(c.repos, service)
  {
    PassOnRepos(c, pvcs, managed, parse, f);
    EntryAfterSync(c.spec.repos, c.repos, service, schedule);
    EntryAfterInit(c.repos, service);
    if Mirrors(c.spec.repos, c.repos)
      && ConfigPass(c, pvcs, managed, parse, f) == Scheduling(c, pvcs, managed, parse, f) {
      SchedulingKeepsStamp(c, pvcs, managed, parse, f, service);
    }
  }

  /** A pass that runs the operation on the target found it due, and stores the stamp of this run. */
  lemma ServingPassStamps(c: Config, pvcs: seq<Pvc>, managed: seq<Pvc>, parse: Parser, f: Answers, service: Service,
                          schedule: string)
    requires Watches(c.spec.repos, service, schedule) && DistinctTargets(c.repos)
    requires ConfigPass(c, pvcs, managed, parse, f).served == Some(service) && f.stepWrite
    ensures var o := ConfigPass(c, pvcs, managed, parse, f);
      && o.config.spec == c.spec && DistinctTargets(o.config.repos)
      && LastRun(o.config.repos, service) == Some(Stored(f.now))
      && ShouldPerformScheduledOperation(parse, schedule, LastRun(c.repos, service), true, f.now)
  {
    var o := ConfigPass(c, pvcs, managed, parse, f);
    assert o == Scheduling(c, pvcs, managed, parse, f);
    var i := ServedEntry(c, pvcs, managed, parse, f, service, schedule);
    EntryAt(c.repos, i);
    EntryAfterUpdate(c.repos, i, o.config.repos[i], service.target);
  }

  lemma ServedEntry(c: Config, pvcs: seq<Pvc>, managed: seq<Pvc>, parse: Parser, f: Answers, service: Service,
                    schedule: string)
      returns (i: nat)
    requires Watches(c.spec.repos, service, schedule) && Mirrors(c.spec.repos, c.repos) && f.stepWrite
    requires Scheduling(c, pvcs, managed, parse, f).served == Some(service)
    ensures i < |c.repos| && c.repos[i].target == service.target
    ensures ShouldPerformScheduledOperation(parse, schedule, StampOf(c.repos[i], service.op), c.repos[i].initialized,
      f.now)
    ensures var next := Scheduling(c, pvcs, managed, parse, f).config;
      && next.spec == c.spec && |next.repos| == |c.repos| && next.repos == c.repos[i := next.repos[i]]
      && next.repos[i].target == service.target && StampOf(next.repos[i], service.op) == Some(Stored(f.now))
  {
    i := if service.op == Backup then FirstBackupDue(c.spec.repos, c.repos, 0, parse, f.now).value
         else FirstForgetDue(c.spec.repos, c.repos, 0, parse, f.now).value;
    assert c.spec.repos[i].Target() == service.target;
    assert ScheduleOf(c.spec.repos[i], service.op) == schedule;
  }

  /** With the entries in place a pass stamps a backup, and a forget, only by the schedule of that very operation: it is
      set and parses, and it has fired since the operation last ran, if it ever has. */
  lemma StampsFollowTheirSchedules(c: Config, pvcs: seq<Pvc>, managed: seq<Pvc>, parse: Parser, f: Answers, i: nat)
    requires Mirrors(c.spec.repos, c.repos) && i < |c.repos|
    requires forall s :: parse(s).Some? ==> parse(s).value.Lawful()
    ensures var o := ConfigPass(c, pvcs, managed, parse, f);
      && |o.config.repos| == |c.repos|
      && (o.config.repos[i].lastBackup != c.repos[i].lastBackup ==>
            && o.config.repos[i].lastBackup == Some(Stored(f.now))
            && Fired(parse, c.spec.repos[i].backupSchedule, c.repos[i].lastBackup, f.now))
      && (o.config.repos[i].lastForget != c.repos[i].lastForget ==>
            && o.config.repos[i].lastForget == Some(Stored(f.now))
            && Fired(parse, c.spec.repos[i].forgetSchedule, c.repos[i].lastForget, f.now))
  {
    PassOnRepos(c, pvcs, managed, parse, f);
    SchedulingStamps(c, pvcs, managed, parse, f, i);
    var spec, st := c.spec.repos[i], c.repos[i];
    DueHasFired(parse, spec.backupSchedule, st.lastBackup, st.initialized, f.now);
    DueHasFired(parse, spec.forgetSchedule, st.lastForget, st.initialized, f.now);
  }

  lemma SchedulingStamps(c: Config, pvcs: seq<Pvc>, managed: seq<Pvc>, parse: Parser, f: Answers, i: nat)
    requires Mirrors(c.spec.repos, c.repos) && i < |c.repos|
    ensures var next := Scheduling(c, pvcs, managed, parse, f).config.repos;
      var spec, st := c.spec.repos[i], c.repos[i];
      && |next| == |c.repos|
      && (next[i].lastBackup != st.lastBackup ==>
            && next[i].lastBackup == Some(Stored(f.now))
            && ShouldPerformScheduledOperation(parse, spec.backupSchedule, st.lastBackup, st.initialized, f.now))
      && (next[i].lastForget != st.lastForget ==>
            && next[i].lastForget == Some(Stored(f.now))
            && ShouldPerformScheduledOperation(parse, spec.forgetSchedule, st.lastForget, st.initialized, f.now))
  {
  }

  /** No pass initializes a repository that can be neither checked nor initialized. */
  lemma UnreachableStaysUninitialized(c: Config, pvcs: seq<Pvc>, managed: seq<Pvc>, parse: Parser, f: Answers,
                                      e: RepoStatus)
    requires e in ConfigPass(c, pvcs, managed, parse, f).config.repos && e.initialized && e.target in f.unreachable
    ensures exists was :: was in c.repos && was.target == e.target && was.initialized
  {
    var next := ConfigPass(c, pvcs, managed, parse, f).config.repos;
    PassOnInitialized(c, pvcs, managed, parse, f);
    var i :| 0 <= i < |next| && next[i] == e;
    if next == Synced(c.spec.repos, c.repos) && !Mirrors(c.spec.repos, c.repos) {
      EntryOfIs(c.repos, c.spec.repos[i].Target());
    } else {
      assert c.repos[i] in c.repos && c.repos[i].target == e.target && c.repos[i].initialized;
    }
  }

  predicate SameInitialized(a: seq<RepoStatus>, b: seq<RepoStatus>) {
    && |a| == |b|
    && forall i :: 0 <= i < |a| ==> a[i].target == b[i].target && a[i].initialized == b[i].initialized
  }

  lemma PassOnInitialized(c: Config, pvcs: seq<Pvc>, managed: seq<Pvc>, parse: Parser, f: Answers)
    ensures var next := ConfigPass(c, pvcs, managed, parse, f).config.repos;
      || next == Synced(c.spec.repos, c.repos)
      || (next == Initialized(c.repos) && Reachable(c.repos, f))
      || SameInitialized(c.repos, next)
  {
    if c.initialized && Mirrors(c.spec.repos, c.repos) && AllInitialized(c.repos) {
      WorkingOnRepos(c, pvcs, managed, parse, f);
      SchedulingOnInitialized(c, pvcs, managed, parse, f);
    }
  }

  lemma SchedulingOnInitialized(c: Config, pvcs: seq<Pvc>, managed: seq<Pvc>, parse: Parser, f: Answers)
    requires Mirrors(c.spec.repos, c.repos)
    ensures SameInitialized(c.repos, Scheduling(c, pvcs, managed, parse, f).config.repos)
  {
    var backup := FirstBackupDue(c.spec.repos, c.repos, 0, parse, f.now);
    var forget := FirstForgetDue(c.spec.repos, c.repos, 0, parse, f.now);
    if backup.Some? {
      assert SameInitialized(c.repos, BackupStamped(c, backup.value, f.now).repos);
    } else if forget.Some? {
      assert SameInitialized(c.repos, ForgetStamped(c, forget.value, f.now).repos);
    }
  }

  /** The schedule is set, it parses, and it has fired since, strictly before now. */
  ghost predicate Fired(parse: Parser, schedule: string, last: Option<Time>, now: Time) {
    && schedule != "" && parse(schedule).Some?
    && (last.Some? ==> exists x :: last.value < x < now && parse(schedule).value.Fires(x))
  }

  lemma DueHasFired(parse: Parser, schedule: string, last: Option<Time>, initialized: bool, now: Time)
    requires parse(schedule).Some? ==> parse(schedule).value.Lawful()
    ensures ShouldPerformScheduledOperation(parse, schedule, last, initialized, now) ==>
      Fired(parse, schedule, last, now)
  {
    if ShouldPerformScheduledOperation(parse, schedule, last, initialized, now) && last.Some? {
      DueExactlyAfterAFiring(parse, schedule, last.value, now);
    }
  }

  /* ---- runs ---- */

  /** The target keeps its place in the spec of the config and its schedule, and the status write after each of its runs
      is accepted. The spec may otherwise change in any way. */
  ghost predicate KeepsTarget(s: Fleet, e: Event, parse: Parser, id: string, service: Service, schedule: string)
    requires Possible(s, e)
  {
    match e
    case Pass(i, managed, f) =>
      i == id && ConfigPass(s.configs[id], s.pvcs, managed, parse, f).served == Some(service) ==> f.stepWrite
    case SpecEdited(i, spec) => i == id ==> Watches(spec.repos, service, schedule)
    case ConfigAdded(i, config) => i == id ==> Watches(config.spec.repos, service, schedule)
    case _ => true
  }

  /** The runs so far lie a firing apart, and the last of them is what the status remembers. */
  ghost predicate Tracked(s: Fleet, parse: Parser, id: string, service: Service, schedule: string) {
    var stamps := Stamps(s.services, id, service);
    && (stamps != [] ==> schedule != "" && parse(schedule).Some? && Separated(parse(schedule).value, stamps))
    && (id in s.configs ==>
          && Watches(s.configs[id].spec.repos, service, schedule)
          && DistinctTargets(s.configs[id].repos)
          && (stamps != [] ==> LastRun(s.configs[id].repos, service) == Some(stamps[|stamps| - 1])))
  }

  lemma StampsGrow(services: seq<Run>, x: Run, id: string, service: Service)
    ensures Stamps(services + [x], id, service) ==
      Stamps(services, id, service) + if x.config == id && x.service == service then [x.at] else []
  {
    assert (services + [x])[..|services|] == services;
  }

  lemma {:induction false} NoStamps(services: seq<Run>, id: string, service: Service)
    requires forall x :: x in services ==> x.config != id
    ensures Stamps(services, id, service) == []
  {
    if services != [] {
      NoStamps(services[..|services| - 1], id, service);
    }
  }

  lemma SeparatedGrows(cron: Cron, stamps: seq<Time>, stamp: Time)
    requires Separated(cron, stamps) && stamps != [] && FiresWithin(cron, stamps[|stamps| - 1], stamp)
    ensures Separated(cron, stamps + [stamp])
  {
    var next := stamps + [stamp];
    forall i | 0 <= i < |next| - 1
      ensures FiresWithin(cron, next[i], next[i + 1])
    {
      if i < |stamps| - 1 {
        assert FiresWithin(cron, stamps[i], stamps[i + 1]);
      }
    }
  }

  /** One more run, due by the last stamp and stamped itself. */
  lemma StampingKeepsTracked(s: Fleet, t: Fleet, now: Time, parse: Parser, id: string, service: Service,
                             schedule: string)
    requires Tracked(s, parse, id, service, schedule) && id in s.configs && id in t.configs
    requires parse(schedule).Some? ==> parse(schedule).value.Lawful()
    requires ShouldPerformScheduledOperation(parse, schedule, LastRun(s.configs[id].repos, service), true, now)
    requires t.configs[id].spec == s.configs[id].spec && DistinctTargets(t.configs[id].repos)
    requires LastRun(t.configs[id].repos, service) == Some(Stored(now))
    requires t.services == s.services + [Run(id, service, Stored(now))]
    ensures Tracked(t, parse, id, service, schedule)
  {
    var stamps := Stamps(s.services, id, service);
    StampsGrow(s.services, Run(id, service, Stored(now)), id, service);
    if stamps != [] {
      RunsAreSeparated(parse, schedule, stamps[|stamps| - 1], now);
      SeparatedGrows(parse(schedule).value, stamps, Stored(now));
    }
  }

  lemma ServingKeepsTracked(s: Fleet, managed: seq<Pvc>, f: Answers, parse: Parser, id: string, service: Service,
                            schedule: string)
    requires Tracked(s, parse, id, service, schedule) && Possible(s, Pass(id, managed, f))
    requires parse(schedule).Some? ==> parse(schedule).value.Lawful()
    requires ConfigPass(s.configs[id], s.pvcs, managed, parse, f).served == Some(service) && f.stepWrite
    ensures Tracked(Apply(s, Pass(id, managed, f), parse), parse, id, service, schedule)
  {
    ServingPassStamps(s.configs[id], s.pvcs, managed, parse, f, service, schedule);
    StampingKeepsTracked(s, Apply(s, Pass(id, managed, f), parse), f.now, parse, id, service, schedule);
  }

  lemma PassKeepsTracked(s: Fleet, i: string, managed: seq<Pvc>, f: Answers, parse: Parser, id: string,
                         service: Service, schedule: string)
    requires Tracked(s, parse, id, service, schedule) && Possible(s, Pass(i, managed, f))
    requires parse(schedule).Some? ==> parse(schedule).value.Lawful()
    requires KeepsTarget(s, Pass(i, managed, f), parse, id, service, schedule)
    ensures Tracked(Apply(s, Pass(i, managed, f), parse), parse, id, service, schedule)
  {
    var o := ConfigPass(s.configs[i], s.pvcs, managed, parse, f);
    if i == id && o.served == Some(service) {
      ServingKeepsTracked(s, managed, f, parse, id, service, schedule);
    } else {
      var t := AfterPass(s, i, o, f.now);
      assert Stamps(t.services, id, service) == Stamps(s.services, id, service) by {
        if o.served.Some? {
          StampsGrow(s.services, Run(i, o.served.value, Stored(f.now)), id, service);
        } else {
          assert s.services + [] == s.services;
        }
      }
      if i == id {
        OtherPassKeepsStamp(s.configs[id], s.pvcs, managed, parse, f, service, schedule);
      }
    }
  }

  lemma EventKeepsTracked(s: Fleet, e: Event, parse: Parser, id: string, service: Service, schedule: string)
    requires Tracked(s, parse, id, service, schedule) && Possible(s, e)
    requires parse(schedule).Some? ==> parse(schedule).value.Lawful()
    requires KeepsTarget(s, e, parse, id, service, schedule)
    ensures Tracked(Apply(s, e, parse), parse, id, service, schedule)
  {
    match e
    case Pass(i, managed, f) => PassKeepsTracked(s, i, managed, f, parse, id, service, schedule);
    case ConfigAdded(i, config) =>
      if i == id {
        NoStamps(s.services, id, service);
      }
    case _ =>
  }

  lemma {:induction false} RunKeepsTracked(run: seq<Fleet>, es: seq<Event>, parse: Parser, id: string,
                                           service: Service, schedule: string)
    requires IsRun(run, es, parse)
    requires parse(schedule).Some? ==> parse(schedule).value.Lawful()
    requires forall i :: 0 <= i < |es| ==> KeepsTarget(run[i], es[i], parse, id, service, schedule)
    ensures Tracked(run[|es|], parse, id, service, schedule)
  {
    if es != [] {
      var n := |es| - 1;
      RunKeepsTracked(run[..n + 1], es[..n], parse, id, service, schedule);
      EventKeepsTracked(run[n], es[n], parse, id, service, schedule);
    }
  }

  /* ---- windows ---- */

  /** The stamps that fall into a window. */
  function Within(stamps: seq<Time>, from: Time, upTo: Time): seq<Time> {
    if stamps == [] then []
    else
      var n := |stamps| - 1;
      var front := Within(stamps[..n], from, upTo);
      if from <= stamps[n] <= upTo then front + [stamps[n]] else front
  }

  /** Stamps that lie a firing apart still do when some of them are left out. */
  lemma {:induction false} FarthestApart(cron: Cron, stamps: seq<Time>, i: nat)
    requires Separated(cron, stamps) && i < |stamps| - 1
    ensures FiresWithin(cron, stamps[i], stamps[|stamps| - 1])
  {
    var n := |stamps| - 1;
    assert FiresWithin(cron, stamps[n - 1], stamps[n]);
    if i < n - 1 {
      FrontIsSeparated(cron, stamps);
      FarthestApart(cron, stamps[..n], i);
    }
  }

  lemma FrontIsSeparated(cron: Cron, stamps: seq<Time>)
    requires Separated(cron, stamps) && stamps != []
    ensures Separated(cron, stamps[..|stamps| - 1])
  {
    var front := stamps[..|stamps| - 1];
    forall i | 0 <= i < |front| - 1
      ensures FiresWithin(cron, front[i], front[i + 1])
    {
      assert FiresWithin(cron, stamps[i], stamps[i + 1]);
    }
  }

  lemma {:induction false} WithinIsSeparated(cron: Cron, stamps: seq<Time>, from: Time, upTo: Time)
    requires Separated(cron, stamps)
    ensures Separated(cron, Within(stamps, from, upTo))
    ensures forall x :: x in Within(stamps, from, upTo) ==> x in stamps && from <= x <= upTo
  {
    if stamps != [] {
      var n := |stamps| - 1;
      FrontIsSeparated(cron, stamps);
      WithinIsSeparated(cron, stamps[..n], from, upTo);
      var front := Within(stamps[..n], from, upTo);
      if front != [] && from <= stamps[n] <= upTo {
        assert front[|front| - 1] in stamps[..n];
        var i :| 0 <= i < n && stamps[i] == front[|front| - 1];
        FarthestApart(cron, stamps, i);
        SeparatedGrows(cron, front, stamps[n]);
      }
    }
  }

  /** Over every run, however the spec is reordered and extended meanwhile, the scheduled runs of a target in a window
      are at most the firings of its schedule in that window and one more; without a schedule that parses there are
      none. */
  lemma ScheduledRunsAreFew(run: seq<Fleet>, es: seq<Event>, parse: Parser, id: string, service: Service,
                            schedule: string,
                            from: Time, upTo: Time)
    requires IsRun(run, es, parse)
    requires parse(schedule).Some? ==> parse(schedule).value.Lawful()
    requires forall i :: 0 <= i < |es| ==> KeepsTarget(run[i], es[i], parse, id, service, schedule)
    ensures var stamps := Within(Stamps(run[|es|].services, id, service), from, upTo);
      |stamps| <= if schedule != "" && parse(schedule).Some? then Firings(parse(schedule).value, from, upTo) + 1 else 0
  {
    RunKeepsTracked(run, es, parse, id, service, schedule);
    var all := Stamps(run[|es|].services, id, service);
    if all != [] {
      var cron := parse(schedule).value;
      WithinIsSeparated(cron, all, from, upTo);
      var stamps := Within(all, from, upTo);
      if stamps != [] {
        assert stamps[0] in stamps && stamps[|stamps| - 1] in stamps;
      }
      SeparatedStampsAreFew(cron, stamps, from, upTo);
    }
  }

  /** The pass has nothing to prepare, to restore automatically or to answer. */
  predicate OnlySchedules(c: Config, managed: seq<Pvc>, now: Time) {
    && c.initialized && (c.deleting ==> c.guarded) && Mirrors(c.spec.repos, c.repos) && AllInitialized(c.repos)
    && (NewUnclaimed(managed, now) == [] || !c.spec.autoRestore) && !Requested(c, managed)
  }

  lemma ServingPassOnlySchedules(c: Config, pvcs: seq<Pvc>, managed: seq<Pvc>, parse: Parser, f: Answers)
    requires ConfigPass(c, pvcs, managed, parse, f).served.Some?
    ensures OnlySchedules(c, managed, f.now)
  {
  }

  lemma SchedulingPass(c: Config, pvcs: seq<Pvc>, managed: seq<Pvc>, parse: Parser, f: Answers)
    requires OnlySchedules(c, managed, f.now) && f.getConfig
    ensures ConfigPass(c, pvcs, managed, parse, f) == Scheduling(c, pvcs, managed, parse, f)
  {
  }

  lemma RefusedStampRunsAgain(c: Config, pvcs: seq<Pvc>, managed: seq<Pvc>, parse: Parser, f: Answers, g: Answers)
    requires f.getConfig && ConfigPass(c, pvcs, managed, parse, f).served.Some? && !f.stepWrite
    requires g.getConfig && g.now == f.now
    ensures var o := ConfigPass(c, pvcs, managed, parse, f);
      o.config == c && o.pvcs == pvcs && ConfigPass(c, pvcs, managed, parse, g).served == o.served
  {
    ServingPassOnlySchedules(c, pvcs, managed, parse, f);
    SchedulingPass(c, pvcs, managed, parse, f);
    SchedulingPass(c, pvcs, managed, parse, g);
  }

  lemma ServedRun(s: Fleet, id: string, managed: seq<Pvc>, f: Answers, parse: Parser, service: Service)
    requires id in s.configs && ConfigPass(s.configs[id], s.pvcs, managed, parse, f).served == Some(service)
    ensures var t := Apply(s, Pass(id, managed, f), parse);
      Stamps(t.services, id, service) == Stamps(s.services, id, service) + [Stored(f.now)]
  {
    StampsGrow(s.services, Run(id, service, Stored(f.now)), id, service);
  }

  lemma TwoWithin(stamps: seq<Time>, at: Time)
    ensures |Within(stamps + [at] + [at], at, at)| >= 2
  {
    var all := stamps + [at] + [at];
    assert all[..|all| - 1] == stamps + [at];
    assert (stamps + [at])[..|stamps|] == stamps;
  }

  /** The status write is what counts: after a run whose stamp is refused the target runs again at the same instant, and
      there are more runs than a window without any firing admits. */
  lemma RefusedStampBreaksTheBound(s: Fleet, id: string, managed: seq<Pvc>, parse: Parser, f: Answers, g: Answers,
                                   service: Service, cron: Cron)
    requires id in s.configs && ConfigPass(s.configs[id], s.pvcs, managed, parse, f).served == Some(service)
    requires f.getConfig && !f.stepWrite && g.getConfig && g.now == f.now
    ensures var t := Apply(Apply(s, Pass(id, managed, f), parse), Pass(id, managed, g), parse);
      var at := Stored(f.now);
      |Within(Stamps(t.services, id, service), at, at)| > Firings(cron, at, at) + 1
  {
    var at := Stored(f.now);
    var t1 := Apply(s, Pass(id, managed, f), parse);
    RefusedStampRunsAgain(s.configs[id], s.pvcs, managed, parse, f, g);
    ServedRun(s, id, managed, f, parse, service);
    ServedRun(t1, id, managed, g, parse, service);
    TwoWithin(Stamps(s.services, id, service), at);
    assert (set x | at < x <= at && cron.Fires(x)) == {};
  }

  /** Of two entries with the same target that are due one after the other, the second one runs after the first, at the
      same instant. */
  lemma RepeatedTargetBreaksTheBound(s: Fleet, id: string, managed: seq<Pvc>, parse: Parser, f: Answers, i: nat, j: nat,
                                     cron: Cron)
    requires id in s.configs && OnlySchedules(s.configs[id], managed, f.now) && AllAccepted(f)
    requires var c := s.configs[id];
      && FirstBackupDue(c.spec.repos, c.repos, 0, parse, f.now) == Some(i)
      && FirstBackupDue(c.spec.repos, c.repos, i + 1, parse, f.now) == Some(j)
      && c.spec.repos[j].Target() == c.spec.repos[i].Target()
    ensures var t := Apply(Apply(s, Pass(id, managed, f), parse), Pass(id, managed, f), parse);
      var at := Stored(f.now); var service := Service(Backup, s.configs[id].spec.repos[i].Target());
      |Within(Stamps(t.services, id, service), at, at)| > Firings(cron, at, at) + 1
  {
    var c := s.configs[id];
    var t := Apply(s, Pass(id, managed, f), parse);
    SchedulingPass(c, s.pvcs, managed, parse, f);
    SchedulingPass(t.configs[id], t.pvcs, managed, parse, f);
    FirstDueAfterStamp(c, i, j, parse, f.now);
    ServedTwice(s, t, id, managed, f, parse, Service(Backup, c.spec.repos[i].Target()), cron);
  }

  lemma FirstDueAfterStamp(c: Config, i: nat, j: nat, parse: Parser, now: Time)
    requires Mirrors(c.spec.repos, c.repos)
    requires FirstBackupDue(c.spec.repos, c.repos, 0, parse, now) == Some(i)
    requires FirstBackupDue(c.spec.repos, c.repos, i + 1, parse, now) == Some(j)
    ensures var due := FirstBackupDue(c.spec.repos, BackupStamped(c, i, now).repos, 0, parse, now);
      due == Some(i) || due == Some(j)
  {
    FirstDueIsFirst(c.spec.repos, c.repos, 0, parse, now);
    FirstDueIsFirst(c.spec.repos, c.repos, i + 1, parse, now);
    FirstDueIsFirst(c.spec.repos, BackupStamped(c, i, now).repos, 0, parse, now);
  }

  lemma {:induction false} FirstDueIsFirst(specs: seq<RepoSpec>, sts: seq<RepoStatus>, i: nat, parse: Parser, now: Time)
    requires |sts| == |specs| && i <= |specs|
    ensures var due := FirstBackupDue(specs, sts, i, parse, now);
      due.Some? ==> forall k :: i <= k < due.value ==> !BackupDue(specs[k], sts[k], parse, now)
    decreases |specs| - i
  {
    if i < |specs| {
      FirstDueIsFirst(specs, sts, i + 1, parse, now);
    }
  }

  /** Two runs at the same instant, with nothing of that target in between. */
  lemma ServedTwice(s: Fleet, t: Fleet, id: string, managed: seq<Pvc>, f: Answers, parse: Parser, service: Service,
                    cron: Cron)
    requires id in s.configs && ConfigPass(s.configs[id], s.pvcs, managed, parse, f).served == Some(service)
    requires id in t.configs && ConfigPass(t.configs[id], t.pvcs, managed, parse, f).served == Some(service)
    requires t.services == Apply(s, Pass(id, managed, f), parse).services
    ensures var at := Stored(f.now);
      |Within(Stamps(Apply(t, Pass(id, managed, f), parse).services, id, service), at, at)| > Firings(cron, at, at) + 1
  {
    var at := Stored(f.now);
    ServedRun(s, id, managed, f, parse, service);
    ServedRun(t, id, managed, f, parse, service);
    TwoWithin(Stamps(s.services, id, service), at);
    assert (set x | at < x <= at && cron.Fires(x)) == {};
  }

  function Dropped(specs: seq<RepoSpec>, i: nat): seq<RepoSpec>
    requires i < |specs|
  {
    specs[..i] + specs[i + 1..]
  }

  /** An edit of the spec and the pass after it. */
  function EditedAndPassed(s: Fleet, id: string, spec: ConfigSpec, managed: seq<Pvc>, f: Answers, parse: Parser): Fleet
    requires id in s.configs
  {
    Apply(Apply(s, SpecEdited(id, spec), parse), Pass(id, managed, f), parse)
  }

  /** A pass; then repository `i` leaves the spec and comes back, with a pass after each edit; then one more pass. */
  function Readded(s: Fleet, id: string, managed: seq<Pvc>, f: Answers, parse: Parser, i: nat): Fleet
    requires id in s.configs && i < |s.configs[id].spec.repos|
  {
    var spec := s.configs[id].spec;
    var served := Apply(s, Pass(id, managed, f), parse);
    var without := EditedAndPassed(served, id, spec.(repos := Dropped(spec.repos, i)), managed, f, parse);
    Apply(EditedAndPassed(without, id, spec, managed, f, parse), Pass(id, managed, f), parse)
  }

  lemma SyncingPass(s: Fleet, id: string, spec: ConfigSpec, managed: seq<Pvc>, f: Answers, parse: Parser)
    requires id in s.configs && AllAccepted(f)
    requires var c := s.configs[id]; c.initialized && (c.deleting ==> c.guarded) && !Mirrors(spec.repos, c.repos)
    ensures EditedAndPassed(s, id, spec, managed, f, parse) ==
      s.(configs := s.configs[id := s.configs[id].(spec := spec, repos := Synced(spec.repos, s.configs[id].repos))])
  {
    assert s.tasks + [] == s.tasks && s.services + [] == s.services;
  }

  lemma InitializingPass(s: Fleet, id: string, managed: seq<Pvc>, f: Answers, parse: Parser)
    requires id in s.configs && AllAccepted(f)
    requires var c := s.configs[id];
      c.initialized && (c.deleting ==> c.guarded) && Mirrors(c.spec.repos, c.repos) && !AllInitialized(c.repos)
    ensures Apply(s, Pass(id, managed, f), parse) ==
      s.(configs := s.configs[id := s.configs[id].(repos := Initialized(s.configs[id].repos))])
  {
    assert s.tasks + [] == s.tasks && s.services + [] == s.services;
  }

  /** Its entry is a new one when it comes back; those of the others are what they were. */
  lemma ReaddedEntries(specs: seq<RepoSpec>, sts: seq<RepoStatus>, i: nat)
    requires DistinctSpec(specs) && Mirrors(specs, sts) && i < |specs|
    ensures var synced := Synced(Dropped(specs, i), sts);
      && !Mirrors(Dropped(specs, i), sts) && !Mirrors(specs, synced)
      && Synced(specs, synced) == sts[i := FreshStatus(specs[i].Target())]
  {
    var synced := Synced(Dropped(specs, i), sts);
    forall k | 0 <= k < |specs|
      ensures KeptOrFresh(synced, specs[k].Target()) == if k == i then FreshStatus(specs[k].Target()) else sts[k]
    {
      ReaddedEntry(specs, sts, i, k);
    }
    ReaddedEntry(specs, sts, i, i);
    EntryOfIs(synced, specs[i].Target());
  }

  lemma ReaddedEntry(specs: seq<RepoSpec>, sts: seq<RepoStatus>, i: nat, k: nat)
    requires DistinctSpec(specs) && Mirrors(specs, sts) && i < |specs| && k < |specs|
    ensures var synced := Synced(Dropped(specs, i), sts);
      EntryOf(synced, specs[k].Target()) == if k == i then None else Some(sts[k])
  {
    DroppedHas(specs, i, k);
    SyncKeepsEntries(Dropped(specs, i), sts, specs[k].Target());
    EntryAt(sts, k);
  }

  lemma DroppedHas(specs: seq<RepoSpec>, i: nat, k: nat)
    requires DistinctSpec(specs) && i < |specs| && k < |specs|
    ensures DistinctSpec(Dropped(specs, i))
    ensures SpecHas(Dropped(specs, i), specs[k].Target()) <==> k != i
  {
    var dropped := Dropped(specs, i);
    if k != i {
      assert dropped[if k < i then k else k - 1] == specs[k];
    }
  }

  lemma FreshIsDue(c: Config, i: nat, parse: Parser, now: Time)
    requires Mirrors(c.spec.repos, c.repos) && AllInitialized(c.repos)
    requires FirstBackupDue(c.spec.repos, c.repos, 0, parse, now) == Some(i)
    ensures var sts := Initialized(BackupStamped(c, i, now).repos[i := FreshStatus(c.spec.repos[i].Target())]);
      FirstBackupDue(c.spec.repos, sts, 0, parse, now) == Some(i)
  {
    var sts := Initialized(BackupStamped(c, i, now).repos[i := FreshStatus(c.spec.repos[i].Target())]);
    FirstDueIsFirst(c.spec.repos, c.repos, 0, parse, now);
    FirstDueIsFirst(c.spec.repos, sts, 0, parse, now);
    assert forall k :: 0 <= k < i ==> sts[k] == c.repos[k];
    assert BackupDue(c.spec.repos[i], sts[i], parse, now);
  }

  lemma ReaddedFleet(s: Fleet, id: string, managed: seq<Pvc>, parse: Parser, f: Answers, i: nat)
    requires id in s.configs && OnlySchedules(s.configs[id], managed, f.now) && AllAccepted(f)
    requires var c := s.configs[id];
      DistinctSpec(c.spec.repos) && FirstBackupDue(c.spec.repos, c.repos, 0, parse, f.now) == Some(i)
    ensures var c := s.configs[id];
      var served := Apply(s, Pass(id, managed, f), parse);
      var sts := BackupStamped(c, i, f.now).repos[i := FreshStatus(c.spec.repos[i].Target())];
      Readded(s, id, managed, f, parse, i) == served.(configs := served.configs[id := c.(repos := Initialized(sts))])
  {
    SchedulingPass(s.configs[id], s.pvcs, managed, parse, f);
    DroppedAndBack(Apply(s, Pass(id, managed, f), parse), id, managed, parse, f, i);
  }

  lemma DroppedAndBack(s: Fleet, id: string, managed: seq<Pvc>, parse: Parser, f: Answers, i: nat)
    requires id in s.configs && AllAccepted(f)
    requires var c := s.configs[id];
      c.initialized && (c.deleting ==> c.guarded) && DistinctSpec(c.spec.repos) && Mirrors(c.spec.repos, c.repos)
    requires i < |s.configs[id].spec.repos|
    ensures var c := s.configs[id];
      var without := EditedAndPassed(s, id, c.spec.(repos := Dropped(c.spec.repos, i)), managed, f, parse);
      && id in without.configs && id in EditedAndPassed(without, id, c.spec, managed, f, parse).configs
      && Apply(EditedAndPassed(without, id, c.spec, managed, f, parse), Pass(id, managed, f), parse) ==
         s.(configs := s.configs[id := c.(repos := Initialized(c.repos[i := FreshStatus(c.spec.repos[i].Target())]))])
  {
    var c := s.configs[id];
    var without := c.spec.(repos := Dropped(c.spec.repos, i));
    ReaddedEntries(c.spec.repos, c.repos, i);
    SyncingPass(s, id, without, managed, f, parse);
    var t := s.(configs := s.configs[id := c.(spec := without, repos := Synced(without.repos, c.repos))]);
    BackAgain(t, id, c, managed, parse, f, i);
    var last := c.(repos := Initialized(c.repos[i := FreshStatus(c.spec.repos[i].Target())]));
    assert t.configs[id := last] == s.configs[id := last];
  }

  lemma BackAgain(s: Fleet, id: string, c: Config, managed: seq<Pvc>, parse: Parser, f: Answers, i: nat)
    requires id in s.configs && AllAccepted(f) && i < |c.spec.repos|
    requires c.initialized && (c.deleting ==> c.guarded) && DistinctSpec(c.spec.repos) && Mirrors(c.spec.repos, c.repos)
    requires var dropped := Dropped(c.spec.repos, i);
      s.configs[id] == c.(spec := c.spec.(repos := dropped), repos := Synced(dropped, c.repos))
    ensures id in EditedAndPassed(s, id, c.spec, managed, f, parse).configs
    ensures Apply(EditedAndPassed(s, id, c.spec, managed, f, parse), Pass(id, managed, f), parse) ==
      s.(configs := s.configs[id := c.(repos := Initialized(c.repos[i := FreshStatus(c.spec.repos[i].Target())]))])
  {
    ReaddedEntries(c.spec.repos, c.repos, i);
    SyncingPass(s, id, c.spec, managed, f, parse);
    var next := c.(repos := c.repos[i := FreshStatus(c.spec.repos[i].Target())]);
    var t := s.(configs := s.configs[id := next]);
    assert EditedAndPassed(s, id, c.spec, managed, f, parse) == t;
    assert !next.repos[i].initialized;
    InitializingPass(t, id, managed, f, parse);
    var last := next.(repos := Initialized(next.repos));
    assert t.configs[id := last] == s.configs[id := last];
  }

  /** A target that leaves the spec and comes back has lost its stamp, and runs again at the same instant. */
  lemma ReaddedTargetBreaksTheBound(s: Fleet, id: string, managed: seq<Pvc>, parse: Parser, f: Answers, i: nat,
                                    cron: Cron)
    requires id in s.configs && OnlySchedules(s.configs[id], managed, f.now) && AllAccepted(f)
    requires var c := s.configs[id];
      DistinctSpec(c.spec.repos) && FirstBackupDue(c.spec.repos, c.repos, 0, parse, f.now) == Some(i)
    ensures id in Readded(s, id, managed, f, parse, i).configs
    ensures var t := Apply(Readded(s, id, managed, f, parse, i), Pass(id, managed, f), parse);
      var at := Stored(f.now); var service := Service(Backup, s.configs[id].spec.repos[i].Target());
      |Within(Stamps(t.services, id, service), at, at)| > Firings(cron, at, at) + 1
  {
    ReaddedFleet(s, id, managed, parse, f, i);
    FreshRunsAgain(s, Readded(s, id, managed, f, parse, i), id, managed, parse, f, i, cron);
  }

  lemma FreshRunsAgain(s: Fleet, t: Fleet, id: string, managed: seq<Pvc>, parse: Parser, f: Answers, i: nat, cron: Cron)
    requires id in s.configs && OnlySchedules(s.configs[id], managed, f.now) && AllAccepted(f)
    requires var c := s.configs[id];
      && FirstBackupDue(c.spec.repos, c.repos, 0, parse, f.now) == Some(i) && id in t.configs
      && t.configs[id] ==
         c.(repos := Initialized(BackupStamped(c, i, f.now).repos[i := FreshStatus(c.spec.repos[i].Target())]))
    requires t.services == Apply(s, Pass(id, managed, f), parse).services
    ensures var at := Stored(f.now); var service := Service(Backup, s.configs[id].spec.repos[i].Target());
      |Within(Stamps(Apply(t, Pass(id, managed, f), parse).services, id, service), at, at)|
        > Firings(cron, at, at) + 1
  {
    var c := s.configs[id];
    FreshIsDue(c, i, parse, f.now);
    SchedulingPass(c, s.pvcs, managed, parse, f);
    SchedulingPass(t.configs[id], t.pvcs, managed, parse, f);
    ServedTwice(s, t, id, managed, f, parse, Service(Backup, c.spec.repos[i].Target()), cron);
  }

  /* ---- what a scheduled backup can be restored with ---- */

  /** Scheduled tasks come from the scheduling stage. */
  lemma ScheduledTasksAreServed(c: Config, pvcs: seq<Pvc>, managed: seq<Pvc>, parse: Parser, f: Answers, task: NewTask)
    requires task in ConfigPass(c, pvcs, managed, parse, f).created && task.kind == BackupScheduled
    ensures Mirrors(c.spec.repos, c.repos)
    ensures ConfigPass(c, pvcs, managed, parse, f) == Scheduling(c, pvcs, managed, parse, f)
  {
    var o := ConfigPass(c, pvcs, managed, parse, f);
    assert o == Working(c, pvcs, managed, parse, f);
    if Requested(c, managed) && (c.spec.repos != [] || managed == []) {
      ConsumingSchedulesNothing(c, pvcs, managed, f);
    }
  }

  lemma ConsumingSchedulesNothing(c: Config, pvcs: seq<Pvc>, managed: seq<Pvc>, f: Answers)
    requires (c.spec.repos != [] || managed == []) && Requested(c, managed)
    ensures forall t :: t in Consumed(c, pvcs, managed, f).created ==> t.kind != BackupScheduled
  {
    ConfigTasksKind(c, true, managed, f);
    ConfigTasksKind(c, false, managed, f);
  }

  /** Every scheduled task a pass creates is a backup of one managed claim to the one repository the pass serves. */
  lemma ScheduledTasksServe(c: Config, pvcs: seq<Pvc>, managed: seq<Pvc>, parse: Parser, f: Answers, task: NewTask)
      returns (spec: RepoSpec, pvc: Pvc)
    requires task in ConfigPass(c, pvcs, managed, parse, f).created && task.kind == BackupScheduled
    ensures spec in c.spec.repos
      && ConfigPass(c, pvcs, managed, parse, f).served == Some(Service(Backup, spec.Target()))
    ensures pvc in managed && pvc.uid !in f.busy && pvc.uid !in f.createFails && task.pvc == pvc.uid
      && task.stopPods == c.spec.stopPods
    ensures task.args == ResticArgs.BackupArgs(ResticArgs.Scheduled(spec.repo, pvc.ns, pvc.name, f.name(pvc.uid)))
  {
    ScheduledTasksAreServed(c, pvcs, managed, parse, f, task);
    var due := FirstBackupDue(c.spec.repos, c.repos, 0, parse, f.now);
    assert due.Some?;
    spec := c.spec.repos[due.value];
    ScheduledTasksAre(c, spec, managed, f);
    pvc :| pvc in managed && pvc.uid !in f.busy && pvc.uid !in f.createFails
      && task == BackupTask(c, BackupScheduled, [spec], pvc, "now", f);
    assert Repos([spec]) == [spec.repo];
  }

  /** Entry `i` is due for the operation, and none before it is. */
  predicate FirstDue(c: Config, op: Operation, i: nat, parse: Parser, now: Time)
    requires Mirrors(c.spec.repos, c.repos) && i < |c.repos|
  {
    && DueFor(c, op, i, parse, now)
    && forall j :: 0 <= j < i ==> !DueFor(c, op, j, parse, now)
  }

  predicate DueFor(c: Config, op: Operation, i: nat, parse: Parser, now: Time)
    requires Mirrors(c.spec.repos, c.repos) && i < |c.repos|
  {
    var spec, st := c.spec.repos[i], c.repos[i];
    ShouldPerformScheduledOperation(parse, ScheduleOf(spec, op), StampOf(st, op), st.initialized, now)
  }

  /** A pass serves one repository at most: the first with a due backup, or, if there is none, the first with a due
      forget. */
  lemma ServesTheFirstDue(c: Config, pvcs: seq<Pvc>, managed: seq<Pvc>, parse: Parser, f: Answers) returns (i: nat)
    requires ConfigPass(c, pvcs, managed, parse, f).served.Some?
    ensures Mirrors(c.spec.repos, c.repos) && i < |c.repos|
    ensures var service := ConfigPass(c, pvcs, managed, parse, f).served.value;
      && service.target == c.spec.repos[i].Target() && FirstDue(c, service.op, i, parse, f.now)
      && (service.op == Forget ==> forall j :: 0 <= j < |c.repos| ==> !DueFor(c, Backup, j, parse, f.now))
  {
    ServingPassOnlySchedules(c, pvcs, managed, parse, f);
    SchedulingPass(c, pvcs, managed, parse, f);
    FirstDueIsFirst(c.spec.repos, c.repos, 0, parse, f.now);
    FirstForgetIsFirst(c.spec.repos, c.repos, 0, parse, f.now);
    var backup := FirstBackupDue(c.spec.repos, c.repos, 0, parse, f.now);
    i := if backup.Some? then backup.value else FirstForgetDue(c.spec.repos, c.repos, 0, parse, f.now).value;
  }

  lemma {:induction false} FirstForgetIsFirst(specs: seq<RepoSpec>, sts: seq<RepoStatus>, i: nat, parse: Parser,
                                              now: Time)
    requires |sts| == |specs| && i <= |specs|
    ensures var due := FirstForgetDue(specs, sts, i, parse, now);
      due.Some? ==> forall k :: i <= k < due.value ==> !ForgetDue(specs[k], sts[k], parse, now)
    decreases |specs| - i
  {
    if i < |specs| {
      FirstForgetIsFirst(specs, sts, i + 1, parse, now);
    }
  }

  /** A pass that serves a backup leaves no managed claim out, but for the busy ones and those whose create is
      refused. */
  lemma EveryIdleClaimIsBackedUp(c: Config, pvcs: seq<Pvc>, managed: seq<Pvc>, parse: Parser, f: Answers, p: Pvc)
    requires var served := ConfigPass(c, pvcs, managed, parse, f).served; served.Some? && served.value.op == Backup
    requires p in managed && p.uid !in f.busy && p.uid !in f.createFails
    ensures var created := ConfigPass(c, pvcs, managed, parse, f).created;
      exists t :: t in created && t.kind == BackupScheduled && t.pvc == p.uid
  {
    ServingPassOnlySchedules(c, pvcs, managed, parse, f);
    SchedulingPass(c, pvcs, managed, parse, f);
    var due := FirstBackupDue(c.spec.repos, c.repos, 0, parse, f.now);
    ScheduledTaskIsThere(c, c.spec.repos[due.value], managed, f, p);
  }

  lemma {:induction false} ScheduledTaskIsThere(c: Config, spec: RepoSpec, managed: seq<Pvc>, f: Answers, p: Pvc)
    requires p in managed && p.uid !in f.busy && p.uid !in f.createFails
    ensures exists t :: t in ScheduledTasks(c, spec, managed, f) && t.kind == BackupScheduled && t.pvc == p.uid
  {
    var n := |managed| - 1;
    assert managed == managed[..n] + [managed[n]];
    if p == managed[n] {
      var tasks := ScheduledTasks(c, spec, managed, f);
      assert tasks[|tasks| - 1] in tasks;
    } else {
      ScheduledTaskIsThere(c, spec, managed[..n], f, p);
    }
  }

  predicate PlainNames(pvc: Pvc) {
    ResticArgs.PIPE !in pvc.ns && ResticArgs.PIPE !in pvc.name
  }

  /** The snapshot of any scheduled task is what a restore selects that any config with the same repositories makes of
      the annotation `priority|namespace-claim|task name`, for whatever claim it restores into, if and only if the
      generated name has no pipe and is no word for the latest snapshot, and the first repository with the priority
      has the target. */
  lemma ScheduledBackupsCanBeRestored(c: Config, pvcs: seq<Pvc>, managed: seq<Pvc>, parse: Parser, f: Answers,
                                      task: NewTask,
                                      later: Config, kind: TaskKind, target: Pvc, g: Answers)
      returns (spec: RepoSpec, pvc: Pvc)
    requires later.spec.repos != []
    requires task in ConfigPass(c, pvcs, managed, parse, f).created && task.kind == BackupScheduled
    requires forall r :: r in c.spec.repos ==> r.repo in Repos(later.spec.repos) && ResticArgs.IsInt32(r.repo.priority)
    requires forall p :: p in managed ==> PlainNames(p)
    ensures spec in c.spec.repos && pvc in managed && task.pvc == pvc.uid && |task.args| == 6
    ensures var name := f.name(pvc.uid);
      var annotation := ResticArgs.RestoreAnnotation(spec.repo, pvc.ns, pvc.name, name);
      var found := ResticArgs.WithPriority(Repos(later.spec.repos), spec.repo.priority);
      RestoreTask(later, kind, target, annotation, g).args == ResticArgs.Undoes(task.args) <==>
        && ResticArgs.PIPE !in name && !ResticArgs.IsLatest(name)
        && found.Some? && found.value.target == spec.Target()
  {
    spec, pvc := ScheduledTasksServe(c, pvcs, managed, parse, f, task);
    var name := f.name(pvc.uid);
    var annotation := ResticArgs.RestoreAnnotation(spec.repo, pvc.ns, pvc.name, name);
    ResticArgs.RestoreSelectsTheBackup(Repos(later.spec.repos), spec.repo, pvc.ns, pvc.name, name,
                                       ArgParams(Repos(later.spec.repos), target, annotation, g));
  }
}
