/** All the work a config asks for is done in a bounded number of passes: as long as the API server accepts everything,
    the clock stands still and nobody edits anything, every pass either changes nothing because nothing is left to do,
    or makes one number smaller. */
module ConfigDrain {
  import opened Reconciling
  import opened Schedule
  import opened Annotations
  import opened PvcSelection
  import opened RepositoryStatus
  import opened ConfigTable
  import ResticArgs

  /** No schedule has a firing between the second a run at `now` is stored with and `now` itself. */
  ghost predicate Advances(parse: Parser, now: Time) {
    forall s :: s != "" && parse(s).Some? ==> now <= parse(s).value.next(Stored(now))
  }

  /** Schedules that always have a next firing, on a full second, are of that kind at any time. */
  lemma LawfulAdvances(parse: Parser, now: Time)
    requires forall s :: parse(s).Some? ==> parse(s).value.Lawful()
    ensures Advances(parse, now)
  {
    forall s | s != "" && parse(s).Some?
      ensures now <= parse(s).value.next(Stored(now))
    {
      NotDueTwice(parse, s, now, true);
    }
  }

  /* ---- the measure ---- */

  function Sum(ns: seq<nat>): nat {
    if ns == [] then 0 else Sum(ns[..|ns| - 1]) + ns[|ns| - 1]
  }

  function One(b: bool): nat {
    if b then 1 else 0
  }

  /** What one repository still asks for; initializing it can make both its operations due. */
  function RepoLoad(spec: RepoSpec, st: RepoStatus, parse: Parser, now: Time): nat {
    if !st.initialized then 3 else One(BackupDue(spec, st, parse, now)) + One(ForgetDue(spec, st, parse, now))
  }

  function RepoLoads(c: Config, parse: Parser, now: Time): seq<nat>
    requires Mirrors(c.spec.repos, c.repos)
  {
    seq(|c.repos|, i requires 0 <= i < |c.repos| => RepoLoad(c.spec.repos[i], c.repos[i], parse, now))
  }

  /** A sync can leave every repository to be initialized. */
  function RepoWork(c: Config, parse: Parser, now: Time): nat {
    if Mirrors(c.spec.repos, c.repos) then Sum(RepoLoads(c, parse, now)) else 3 * |c.spec.repos| + 1
  }

  /** What one claim still asks for. A new claim counts until it has its mark, even while a restore trigger hides it
      from auto-restore, because clearing the trigger makes it unclaimed. */
  function ClaimLoad(spec: ConfigSpec, p: Pvc, now: Time): nat {
    if !Manages(spec.selectors, p) then 0
    else
      One(ValueOf(p.annotations, AnnRestore) != "") + One(ValueOf(p.annotations, AnnBackup) != "")
      + One(spec.autoRestore && IsNew(p, now) && !Processed(p))
  }

  function ClaimLoads(spec: ConfigSpec, pvcs: seq<Pvc>, now: Time): seq<nat> {
    seq(|pvcs|, i requires 0 <= i < |pvcs| => ClaimLoad(spec, pvcs[i], now))
  }

  function OwnWork(c: Config): nat {
    One(!c.initialized) + One(!c.initialized && !c.guarded)
    + One(ValueOf(c.annotations, AnnRestore) != "") + One(ValueOf(c.annotations, AnnBackup) != "")
  }

  function Pending(c: Config, pvcs: seq<Pvc>, parse: Parser, now: Time): nat {
    OwnWork(c) + RepoWork(c, parse, now) + Sum(ClaimLoads(c.spec, pvcs, now))
  }

  lemma {:induction false} SumIsMonotone(a: seq<nat>, b: seq<nat>)
    requires |a| == |b| && forall i :: 0 <= i < |a| ==> b[i] <= a[i]
    ensures Sum(b) <= Sum(a)
    ensures forall i :: 0 <= i < |a| && b[i] < a[i] ==> Sum(b) < Sum(a)
  {
    if a != [] {
      var n := |a| - 1;
      SumIsMonotone(a[..n], b[..n]);
      forall i | 0 <= i < n && b[i] < a[i]
        ensures Sum(b) < Sum(a)
      {
        assert b[..n][i] < a[..n][i];
      }
    }
  }

  lemma {:induction false} SumOfZeros(a: seq<nat>)
    ensures Sum(a) == 0 <==> forall i :: 0 <= i < |a| ==> a[i] == 0
  {
    if a != [] {
      var n := |a| - 1;
      SumOfZeros(a[..n]);
      assert forall i :: 0 <= i < n ==> a[..n][i] == a[i];
    }
  }

  lemma {:induction false} SumIsBounded(a: seq<nat>, m: nat)
    requires forall i :: 0 <= i < |a| ==> a[i] <= m
    ensures Sum(a) <= m * |a|
  {
    if a != [] {
      SumIsBounded(a[..|a| - 1], m);
    }
  }

  /** The bound is linear in what the config and its claims hold. */
  lemma PendingIsBounded(c: Config, pvcs: seq<Pvc>, parse: Parser, now: Time)
    ensures Pending(c, pvcs, parse, now) <= 5 + 3 * |c.spec.repos| + 3 * |pvcs|
  {
    SumIsBounded(ClaimLoads(c.spec, pvcs, now), 3);
    if Mirrors(c.spec.repos, c.repos) {
      SumIsBounded(RepoLoads(c, parse, now), 3);
    }
  }

  /* ---- repositories ---- */

  lemma SyncingIsProgress(c: Config, parse: Parser, now: Time)
    requires !Mirrors(c.spec.repos, c.repos)
    ensures RepoWork(c.(repos := Synced(c.spec.repos, c.repos)), parse, now) < RepoWork(c, parse, now)
  {
    SyncIsIdempotent(c.spec.repos, c.repos);
    SumIsBounded(RepoLoads(c.(repos := Synced(c.spec.repos, c.repos)), parse, now), 3);
  }

  lemma InitializingIsProgress(c: Config, parse: Parser, now: Time)
    requires Mirrors(c.spec.repos, c.repos) && !AllInitialized(c.repos)
    ensures RepoWork(c.(repos := Initialized(c.repos)), parse, now) < RepoWork(c, parse, now)
  {
    var next := c.(repos := Initialized(c.repos));
    var i :| 0 <= i < |c.repos| && !c.repos[i].initialized;
    assert RepoLoads(next, parse, now)[i] < RepoLoads(c, parse, now)[i];
    SumIsMonotone(RepoLoads(c, parse, now), RepoLoads(next, parse, now));
  }

  lemma BackingUpIsProgress(c: Config, parse: Parser, now: Time, i: nat)
    requires Advances(parse, now) && Mirrors(c.spec.repos, c.repos)
    requires i < |c.repos| && BackupDue(c.spec.repos[i], c.repos[i], parse, now)
    ensures RepoWork(BackupStamped(c, i, now), parse, now) < RepoWork(c, parse, now)
  {
    var next := BackupStamped(c, i, now);
    assert RepoLoads(next, parse, now)[i] < RepoLoads(c, parse, now)[i];
    SumIsMonotone(RepoLoads(c, parse, now), RepoLoads(next, parse, now));
  }

  lemma ForgettingIsProgress(c: Config, parse: Parser, now: Time, i: nat)
    requires Advances(parse, now) && Mirrors(c.spec.repos, c.repos)
    requires i < |c.repos| && ForgetDue(c.spec.repos[i], c.repos[i], parse, now)
    ensures RepoWork(ForgetStamped(c, i, now), parse, now) < RepoWork(c, parse, now)
  {
    var next := ForgetStamped(c, i, now);
    assert RepoLoads(next, parse, now)[i] < RepoLoads(c, parse, now)[i];
    SumIsMonotone(RepoLoads(c, parse, now), RepoLoads(next, parse, now));
  }

  /* ---- claims ---- */

  lemma MarkingIsProgress(spec: ConfigSpec, pvcs: seq<Pvc>, done: seq<Pvc>, now: Time)
    requires spec.autoRestore && done != []
    requires forall p :: p in done ==> p in pvcs && Manages(spec.selectors, p) && IsNew(p, now) && IsUnclaimed(p)
    ensures Sum(ClaimLoads(spec, Marked(pvcs, done), now)) < Sum(ClaimLoads(spec, pvcs, now))
  {
    var loads, next := ClaimLoads(spec, pvcs, now), ClaimLoads(spec, Marked(pvcs, done), now);
    assert done[0] in done;
    var i :| 0 <= i < |pvcs| && pvcs[i] == done[0];
    assert HasUid(done, pvcs[i].uid);
    forall j | 0 <= j < |pvcs|
      ensures next[j] <= loads[j]
    {
      MarkLowersLoad(spec, pvcs[j], now);
    }
    MarkLowersLoad(spec, pvcs[i], now);
    assert next[i] < loads[i];
    SumIsMonotone(loads, next);
  }

  lemma MarkLowersLoad(spec: ConfigSpec, p: Pvc, now: Time)
    ensures var marked := p.(annotations := With(p.annotations, AnnAutoRestored, "true"));
      ClaimLoad(spec, marked, now) ==
      ClaimLoad(spec, p, now) - One(Manages(spec.selectors, p) && spec.autoRestore && IsNew(p, now) && !Processed(p))
  {
    SameSelection(spec.selectors, p, With(p.annotations, AnnAutoRestored, "true"));
  }

  lemma SameSelection(selectors: seq<Selector>, p: Pvc, annotations: Annotations)
    ensures Manages(selectors, p.(annotations := annotations)) <==> Manages(selectors, p)
  {
    var q := p.(annotations := annotations);
    assert forall sel :: Lists(sel, p) <==> Lists(sel, q);
  }

  lemma ClearingIsProgress(spec: ConfigSpec, pvcs: seq<Pvc>, pvc: Pvc, key: AnnKey, now: Time)
    requires pvc in pvcs && Manages(spec.selectors, pvc)
    requires (key == AnnRestore || key == AnnBackup) && ValueOf(pvc.annotations, key) != ""
    ensures Sum(ClaimLoads(spec, Annotated(pvcs, pvc.uid, key, ""), now)) < Sum(ClaimLoads(spec, pvcs, now))
  {
    var loads, next := ClaimLoads(spec, pvcs, now), ClaimLoads(spec, Annotated(pvcs, pvc.uid, key, ""), now);
    var i :| 0 <= i < |pvcs| && pvcs[i] == pvc;
    forall j | 0 <= j < |pvcs|
      ensures next[j] <= loads[j]
    {
      SameSelection(spec.selectors, pvcs[j], With(pvcs[j].annotations, key, ""));
    }
    SameSelection(spec.selectors, pvc, With(pvc.annotations, key, ""));
    assert next[i] < loads[i];
    SumIsMonotone(loads, next);
  }

  /* ---- one pass ---- */

  /** A config whose deletion nothing holds back any more. */
  predicate Gone(c: Config) {
    c.deleting && !c.guarded
  }

  predicate Settled(c: Config, pvcs: seq<Pvc>, parse: Parser, now: Time) {
    Gone(c) || Pending(c, pvcs, parse, now) == 0
  }

  lemma NothingIsDue(c: Config, pvcs: seq<Pvc>, managed: seq<Pvc>, parse: Parser, now: Time)
    requires Pending(c, pvcs, parse, now) == 0 && IsManagedList(c.spec.selectors, pvcs, managed)
    ensures c.initialized && Mirrors(c.spec.repos, c.repos) && AllInitialized(c.repos)
    ensures NewUnclaimed(managed, now) == [] || !c.spec.autoRestore
    ensures !Requested(c, managed)
    ensures forall i :: 0 <= i < |c.repos| ==>
      !BackupDue(c.spec.repos[i], c.repos[i], parse, now) && !ForgetDue(c.spec.repos[i], c.repos[i], parse, now)
  {
    SumOfZeros(RepoLoads(c, parse, now));
    assert forall i :: 0 <= i < |c.repos| ==>
      RepoLoads(c, parse, now)[i] == RepoLoad(c.spec.repos[i], c.repos[i], parse, now);
    var loads := ClaimLoads(c.spec, pvcs, now);
    SumOfZeros(loads);
    forall p | p in managed
      ensures ClaimLoad(c.spec, p, now) == 0
    {
      var i :| 0 <= i < |pvcs| && pvcs[i] == p;
      assert loads[i] == 0;
    }
    if NewUnclaimed(managed, now) != [] {
      assert NewUnclaimed(managed, now)[0] in NewUnclaimed(managed, now);
    }
  }

  /** Less is left to do, for the same spec. */
  predicate Less(c: Config, pvcs: seq<Pvc>, o: Outcome, parse: Parser, now: Time) {
    o.config.spec == c.spec && Pending(o.config, o.pvcs, parse, now) < Pending(c, pvcs, parse, now)
  }

  lemma AutoRestoringIsProgress(c: Config, pvcs: seq<Pvc>, managed: seq<Pvc>, parse: Parser, f: Answers)
    requires c.spec.repos != [] && AllAccepted(f) && IsManagedList(c.spec.selectors, pvcs, managed)
    requires NewUnclaimed(managed, f.now) != [] && c.spec.autoRestore
    ensures Sum(ClaimLoads(c.spec, AutoRestored(c, pvcs, NewUnclaimed(managed, f.now), f).0, f.now))
      < Sum(ClaimLoads(c.spec, pvcs, f.now))
  {
    var unclaimed := NewUnclaimed(managed, f.now);
    assert Served(unclaimed, f) == |unclaimed| && unclaimed[..|unclaimed|] == unclaimed;
    MarkingIsProgress(c.spec, pvcs, unclaimed, f.now);
  }

  lemma ConsumingIsProgress(c: Config, pvcs: seq<Pvc>, managed: seq<Pvc>, parse: Parser, f: Answers)
    requires c.spec.repos != [] || managed == []
    requires AllAccepted(f) && IsManagedList(c.spec.selectors, pvcs, managed) && Requested(c, managed)
    ensures Less(c, pvcs, Consumed(c, pvcs, managed, f), parse, f.now)
  {
    if ValueOf(c.annotations, AnnRestore) == "" && ValueOf(c.annotations, AnnBackup) == "" {
      var pvc := FirstTriggered(managed).value;
      var key := if ValueOf(pvc.annotations, AnnRestore) != "" then AnnRestore else AnnBackup;
      ClearingIsProgress(c.spec, pvcs, pvc, key, f.now);
    }
  }

  lemma SchedulingIsProgress(c: Config, pvcs: seq<Pvc>, managed: seq<Pvc>, parse: Parser, f: Answers)
    requires Mirrors(c.spec.repos, c.repos) && AllAccepted(f) && Advances(parse, f.now)
    requires FirstBackupDue(c.spec.repos, c.repos, 0, parse, f.now).Some?
      || FirstForgetDue(c.spec.repos, c.repos, 0, parse, f.now).Some?
    ensures Less(c, pvcs, Scheduling(c, pvcs, managed, parse, f), parse, f.now)
  {
    var backup := FirstBackupDue(c.spec.repos, c.repos, 0, parse, f.now);
    if backup.Some? {
      BackingUpIsProgress(c, parse, f.now, backup.value);
    } else {
      ForgettingIsProgress(c, parse, f.now, FirstForgetDue(c.spec.repos, c.repos, 0, parse, f.now).value);
    }
  }

  lemma WorkingIsProgress(c: Config, pvcs: seq<Pvc>, managed: seq<Pvc>, parse: Parser, f: Answers)
    requires c.initialized && Mirrors(c.spec.repos, c.repos) && AllInitialized(c.repos)
    requires AllAccepted(f) && Advances(parse, f.now) && IsManagedList(c.spec.selectors, pvcs, managed)
    requires Pending(c, pvcs, parse, f.now) > 0 && Working(c, pvcs, managed, parse, f).verdict != Crash
    ensures Less(c, pvcs, Working(c, pvcs, managed, parse, f), parse, f.now)
  {
    if NewUnclaimed(managed, f.now) != [] && c.spec.autoRestore {
      AutoRestoringIsProgress(c, pvcs, managed, parse, f);
    } else if Requested(c, managed) {
      ConsumingIsProgress(c, pvcs, managed, parse, f);
    } else {
      if FirstBackupDue(c.spec.repos, c.repos, 0, parse, f.now) == None
        && FirstForgetDue(c.spec.repos, c.repos, 0, parse, f.now) == None {
        SomethingIsDue(c, pvcs, managed, parse, f.now);
        assert false;
      }
      SchedulingIsProgress(c, pvcs, managed, parse, f);
    }
  }

  /** Work that is pending in a config past its preparation shows up as one of the things a pass looks for. */
  lemma SomethingIsDue(c: Config, pvcs: seq<Pvc>, managed: seq<Pvc>, parse: Parser, now: Time)
    requires c.initialized && Mirrors(c.spec.repos, c.repos) && AllInitialized(c.repos)
    requires IsManagedList(c.spec.selectors, pvcs, managed)
    requires Pending(c, pvcs, parse, now) > 0 && !Requested(c, managed)
    requires forall i :: 0 <= i < |c.repos| ==>
      !BackupDue(c.spec.repos[i], c.repos[i], parse, now) && !ForgetDue(c.spec.repos[i], c.repos[i], parse, now)
    ensures NewUnclaimed(managed, now) != [] && c.spec.autoRestore
  {
    SumOfZeros(RepoLoads(c, parse, now));
    var loads := ClaimLoads(c.spec, pvcs, now);
    SumOfZeros(loads);
    var i :| 0 <= i < |pvcs| && loads[i] != 0;
    assert pvcs[i] in managed;
    assert pvcs[i] in NewUnclaimed(managed, now);
  }

  /** Every accepted pass at a frozen clock that does not panic either finds nothing to do, changes nothing and comes
      back after the default interval, or leaves strictly less to do. */
  lemma PassDrains(c: Config, pvcs: seq<Pvc>, managed: seq<Pvc>, parse: Parser, f: Answers)
    requires AllAccepted(f) && Advances(parse, f.now) && IsManagedList(c.spec.selectors, pvcs, managed)
    requires ConfigPass(c, pvcs, managed, parse, f).verdict != Crash
    ensures var o := ConfigPass(c, pvcs, managed, parse, f);
      && o.config.spec == c.spec
      && (if Settled(c, pvcs, parse, f.now)
          then o == Still(c, pvcs, RequeueAfter(if Gone(c) then IMMEDIATE else DEFAULT))
          else Pending(o.config, o.pvcs, parse, f.now) < Pending(c, pvcs, parse, f.now))
  {
    if Gone(c) {
    } else if Pending(c, pvcs, parse, f.now) == 0 {
      NothingIsDue(c, pvcs, managed, parse, f.now);
    } else if !c.initialized {
    } else if !Mirrors(c.spec.repos, c.repos) {
      SyncingIsProgress(c, parse, f.now);
    } else if !AllInitialized(c.repos) {
      InitializingIsProgress(c, parse, f.now);
    } else {
      WorkingIsProgress(c, pvcs, managed, parse, f);
    }
  }

  /* ---- all passes ---- */

  datatype Scene = Scene(config: Config, pvcs: seq<Pvc>)

  ghost predicate AcceptedPass(a: Scene, b: Scene, parse: Parser, now: Time)
  {
    exists managed, f ::
      && AllAccepted(f) && f.now == now && IsManagedList(a.config.spec.selectors, a.pvcs, managed)
      && var o := ConfigPass(a.config, a.pvcs, managed, parse, f); o.verdict != Crash && b == Scene(o.config, o.pvcs)
  }

  /** Any number of accepted passes at one instant, none of which panics, each over the claims in whatever order they
      are listed. */
  ghost predicate IsDrain(run: seq<Scene>, parse: Parser, now: Time) {
    && run != []
    && forall i :: 0 <= i < |run| - 1 ==> AcceptedPass(run[i], run[i + 1], parse, now)
  }

  predicate SettledScene(a: Scene, parse: Parser, now: Time) {
    Settled(a.config, a.pvcs, parse, now)
  }

  function PendingIn(a: Scene, parse: Parser, now: Time): nat {
    Pending(a.config, a.pvcs, parse, now)
  }

  /** Nothing happens if nothing was left to do, and otherwise less is left. */
  ghost predicate Progressed(a: Scene, b: Scene, parse: Parser, now: Time) {
    && (SettledScene(a, parse, now) <==> b == a)
    && (SettledScene(a, parse, now) || PendingIn(b, parse, now) < PendingIn(a, parse, now))
  }

  lemma AcceptedPassDrains(a: Scene, b: Scene, parse: Parser, now: Time)
    requires Advances(parse, now) && AcceptedPass(a, b, parse, now)
    ensures Progressed(a, b, parse, now)
  {
    var managed, f :|
      && AllAccepted(f) && f.now == now && IsManagedList(a.config.spec.selectors, a.pvcs, managed)
      && var o := ConfigPass(a.config, a.pvcs, managed, parse, f); o.verdict != Crash && b == Scene(o.config, o.pvcs);
    PassDrains(a.config, a.pvcs, managed, parse, f);
  }

  ghost predicate AllProgress(run: seq<Scene>, parse: Parser, now: Time) {
    forall i :: 0 <= i < |run| - 1 ==> Progressed(run[i], run[i + 1], parse, now)
  }

  lemma DrainsProgress(run: seq<Scene>, parse: Parser, now: Time)
    requires IsDrain(run, parse, now) && Advances(parse, now)
    ensures AllProgress(run, parse, now)
  {
    forall i | 0 <= i < |run| - 1
      ensures Progressed(run[i], run[i + 1], parse, now)
    {
      AcceptedPassDrains(run[i], run[i + 1], parse, now);
    }
  }

  lemma {:induction false} ProgressAddsUp(run: seq<Scene>, parse: Parser, now: Time, n: nat)
    requires AllProgress(run, parse, now) && n < |run|
    ensures SettledScene(run[n], parse, now) || PendingIn(run[n], parse, now) + n <= PendingIn(run[0], parse, now)
  {
    if n > 0 {
      ProgressAddsUp(run, parse, now, n - 1);
      assert Progressed(run[n - 1], run[n], parse, now);
    }
  }

  lemma {:induction false} SettledStays(run: seq<Scene>, parse: Parser, now: Time, n: nat, m: nat)
    requires AllProgress(run, parse, now) && n <= m < |run| && SettledScene(run[n], parse, now)
    ensures run[m] == run[n]
  {
    if n < m {
      SettledStays(run, parse, now, n, m - 1);
      assert Progressed(run[m - 1], run[m], parse, now);
    }
  }

  /** After as many passes as there was work pending, all of it is done, and nothing changes any more. */
  lemma AllWorkDrains(run: seq<Scene>, parse: Parser, now: Time, n: nat, m: nat)
    requires IsDrain(run, parse, now) && Advances(parse, now)
    requires PendingIn(run[0], parse, now) <= n <= m < |run|
    ensures SettledScene(run[n], parse, now) && run[m] == run[n]
  {
    DrainsProgress(run, parse, now);
    ProgressAddsUp(run, parse, now, n);
    SettledStays(run, parse, now, n, m);
  }

  /** In particular under schedules that always have a next firing on a full second. */
  lemma AllWorkDrainsUnderLawfulSchedules(run: seq<Scene>, parse: Parser, now: Time, n: nat, m: nat)
    requires IsDrain(run, parse, now) && forall s :: parse(s).Some? ==> parse(s).value.Lawful()
    requires PendingIn(run[0], parse, now) <= n <= m < |run|
    ensures SettledScene(run[n], parse, now) && run[m] == run[n]
  {
    LawfulAdvances(parse, now);
    AllWorkDrains(run, parse, now, n, m);
  }

  /** An accepted pass leaves less to do unless there was nothing to do. */
  ghost predicate Drains(parse: Parser, now: Time) {
    forall a: Scene, b: Scene | AcceptedPass(a, b, parse, now) ::
      SettledScene(a, parse, now) || PendingIn(b, parse, now) < PendingIn(a, parse, now)
  }

  /** A config with nothing but one initialized repository whose backup ran at the stored second of `now`. */
  function Overdue(schedule: string, now: Time): Scene {
    var spec := RepoSpec(ResticArgs.Repo("", 0, []), schedule, "");
    var st := RepoStatus("", true, Some(Stored(now)), None);
    Scene(Config(ConfigSpec([spec], [], false, false), true, false, map[], true, [st]), [])
  }

  /** That hypothesis on the schedules is the exact one. A schedule without a next firing, which counts as a firing long
      ago, is due again in every pass. */
  lemma DrainsExactly(parse: Parser, now: Time)
    ensures Drains(parse, now) <==> Advances(parse, now)
  {
    if Advances(parse, now) {
      forall a: Scene, b: Scene | AcceptedPass(a, b, parse, now)
        ensures SettledScene(a, parse, now) || PendingIn(b, parse, now) < PendingIn(a, parse, now)
      {
        AcceptedPassDrains(a, b, parse, now);
      }
    } else {
      var s :| s != "" && parse(s).Some? && parse(s).value.next(Stored(now)) < now;
      var a := Overdue(s, now);
      OverdueStaysOverdue(parse, s, now);
      assert AcceptedPass(a, a, parse, now);
    }
  }

  lemma OverdueStaysOverdue(parse: Parser, s: string, now: Time)
    requires s != "" && parse(s).Some? && parse(s).value.next(Stored(now)) < now
    ensures var a := Overdue(s, now); !SettledScene(a, parse, now) && AcceptedPass(a, a, parse, now)
  {
    var a := Overdue(s, now);
    var f := Answers(true, true, true, false, {}, {}, {}, {}, false, _ => "", now);
    var o := ConfigPass(a.config, a.pvcs, [], parse, f);
    assert BackupDue(a.config.spec.repos[0], a.config.repos[0], parse, now);
    assert o.config.repos == a.config.repos;
    assert AllAccepted(f) && f.now == now && IsManagedList(a.config.spec.selectors, a.pvcs, []);
    SumOfZeros(RepoLoads(a.config, parse, now));
    assert RepoLoads(a.config, parse, now)[0] == 1;
  }

  /* ---- when a config is looked at again ---- */

  /** A pass without refusals has the config looked at again after two seconds while there is something to prepare,
      after two minutes when it has answered a request or run a schedule, and otherwise after thirty seconds. */
  lemma NextLook(c: Config, pvcs: seq<Pvc>, managed: seq<Pvc>, parse: Parser, f: Answers)
    requires AllAccepted(f) && ConfigPass(c, pvcs, managed, parse, f).verdict != Crash
    ensures ConfigPass(c, pvcs, managed, parse, f).verdict == RequeueAfter(
      if Gone(c) || !c.initialized || !Mirrors(c.spec.repos, c.repos) || !AllInitialized(c.repos) then 2
      else if NewUnclaimed(managed, f.now) != [] && c.spec.autoRestore then 30
      else if Requested(c, managed) then 120
      else if (exists i :: 0 <= i < |c.repos| && BackupDue(c.spec.repos[i], c.repos[i], parse, f.now)) then 120
      else if !f.forgetFails && (exists i :: 0 <= i < |c.repos| && ForgetDue(c.spec.repos[i], c.repos[i], parse, f.now))
      then 120
      else 30)
  {
    var todo := NewUnclaimed(managed, f.now);
    NothingStops(todo, f);
  }

  lemma {:induction false} NothingStops(todo: seq<Pvc>, f: Answers)
    requires f.createFails == {} && f.updateFails == {}
    ensures Served(todo, f) == |todo|
  {
    if todo != [] {
      NothingStops(todo[1..], f);
    }
  }

  /** A pass ends in an error exactly when the config cannot be read, when the write that is due is refused, when a
      repository cannot be initialized, or when the mark of a restored claim is refused. */
  lemma FailsExactly(c: Config, pvcs: seq<Pvc>, managed: seq<Pvc>, parse: Parser, f: Answers)
    requires ConfigPass(c, pvcs, managed, parse, f).verdict != Crash
    ensures var todo := NewUnclaimed(managed, f.now); var restores := todo != [] && c.spec.autoRestore;
      ConfigPass(c, pvcs, managed, parse, f).verdict == Error <==>
        || !f.getConfig
        || (if Gone(c) then !f.stepWrite
            else if !c.initialized then !f.stepWrite || (!c.guarded && !f.objectWrite)
            else if !Mirrors(c.spec.repos, c.repos) then !f.stepWrite
            else if !AllInitialized(c.repos) then
              !f.stepWrite || exists e :: e in c.repos && !e.initialized && e.target in f.unreachable
            else if restores then !MarkStored(todo, f)
            else !f.stepWrite && (Requested(c, managed) || SomethingDue(c, parse, f.now)))
  {
    BlockedExactly(c.repos, f);
  }

  /** A pass changes one thing of a config at most, and in this order: the finalizer, then the stamp of initialization,
      then the status of the repositories, then the requests and stamps of a config that is prepared. */
  lemma OneThingAtATime(c: Config, pvcs: seq<Pvc>, managed: seq<Pvc>, parse: Parser, f: Answers)
    ensures var next := ConfigPass(c, pvcs, managed, parse, f).config;
      || next == c
      || (next == c.(guarded := true) && !c.guarded && !c.initialized)
      || (next == c.(initialized := true) && c.guarded && !c.initialized)
      || (next == c.(repos := next.repos) && c.initialized)
      || (next == c.(annotations := c.annotations - {AnnRestore}) && Ready(c))
      || (next == c.(annotations := c.annotations - {AnnBackup}) && Ready(c)
        && ValueOf(c.annotations, AnnRestore) == "")
  {
    if Ready(c) && !Gone(c) && c.initialized {
      WorkChangesOneThing(c, pvcs, managed, parse, f);
    }
  }

  predicate Ready(c: Config) {
    c.initialized && Mirrors(c.spec.repos, c.repos) && AllInitialized(c.repos)
  }

  lemma WorkChangesOneThing(c: Config, pvcs: seq<Pvc>, managed: seq<Pvc>, parse: Parser, f: Answers)
    requires Mirrors(c.spec.repos, c.repos)
    ensures var next := Working(c, pvcs, managed, parse, f).config;
      || next == c.(repos := next.repos)
      || next == c.(annotations := c.annotations - {AnnRestore})
      || (next == c.(annotations := c.annotations - {AnnBackup}) && ValueOf(c.annotations, AnnRestore) == "")
  {
    var restores := NewUnclaimed(managed, f.now) != [] && c.spec.autoRestore;
    if !restores && Requested(c, managed) && (c.spec.repos != [] || managed == []) {
      ConsumingChangesAnnotations(c, pvcs, managed, f);
    }
  }

  lemma ConsumingChangesAnnotations(c: Config, pvcs: seq<Pvc>, managed: seq<Pvc>, f: Answers)
    requires (c.spec.repos != [] || managed == []) && Requested(c, managed)
    ensures var next := Consumed(c, pvcs, managed, f).config;
      || next == c
      || next == c.(annotations := c.annotations - {AnnRestore})
      || (next == c.(annotations := c.annotations - {AnnBackup}) && ValueOf(c.annotations, AnnRestore) == "")
  {
  }

  predicate SomethingDue(c: Config, parse: Parser, now: Time)
    requires Mirrors(c.spec.repos, c.repos)
  {
    exists i :: 0 <= i < |c.repos|
      && (BackupDue(c.spec.repos[i], c.repos[i], parse, now) || ForgetDue(c.spec.repos[i], c.repos[i], parse, now))
  }

  lemma BlockedExactly(sts: seq<RepoStatus>, f: Answers)
    ensures !Reachable(sts, f) <==> exists e :: e in sts && !e.initialized && e.target in f.unreachable
  {
    if !Reachable(sts, f) {
      var i :| 0 <= i < |sts| && !sts[i].initialized && sts[i].target in f.unreachable;
      assert sts[i] in sts;
    }
  }

  /* ---- an empty repository list ---- */

  /** A pass panics exactly when it gets as far as making a task for a claim and there is no repository in the spec. */
  lemma CrashesExactly(c: Config, pvcs: seq<Pvc>, managed: seq<Pvc>, parse: Parser, f: Answers)
    ensures ConfigPass(c, pvcs, managed, parse, f).verdict == Crash <==>
      && c.spec.repos == [] && c.repos == [] && f.getConfig && c.initialized && !Gone(c)
      && NeedsRepository(c, managed, f.now)
  {
  }

  /** Such a pass changes nothing, so that the next one over the same claims at the same time panics as well. */
  lemma CrashRepeats(c: Config, pvcs: seq<Pvc>, managed: seq<Pvc>, parse: Parser, f: Answers, g: Answers)
    requires ConfigPass(c, pvcs, managed, parse, f).verdict == Crash && g.getConfig && g.now == f.now
    ensures var o := ConfigPass(c, pvcs, managed, parse, f);
      o == Still(c, pvcs, Crash) && ConfigPass(o.config, o.pvcs, managed, parse, g) == o
  {
    CrashesExactly(c, pvcs, managed, parse, f);
    CrashesExactly(c, pvcs, managed, parse, g);
  }
}
