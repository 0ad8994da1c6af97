/** What it means that replica counts are conserved, and exactly which passes conserve them, whatever tasks have on
    record. */
module TaskAccounts {
  import opened Reconciling
  import opened Cluster
  import opened Workloads
  import opened TaskTable
  import opened TaskRuns

  /** The property: at its intended count, or at zero with the intended count recorded by a stored task, or at zero
      with a record that a task took along when it left the store. */
  ghost predicate Conserved(s: Sys) {
    forall k :: k in s.w.workloads ==>
      && s.w.workloads[k].uid in s.intended
      && CountKept(s, s.w.workloads[k])
  }

  ghost predicate CountKept(s: Sys, wl: Workload)
    requires wl.uid in s.intended
  {
    || wl.Desired() == s.intended[wl.uid]
    || (wl.Desired() == 0 && (wl.uid in s.lost || exists j :: j in s.w.tasks && Remembers(s, s.w.tasks[j], wl.uid)))
  }

  /* ---- what passes do to counts and records ---- */

  /** A task that has not yet stored that it scaled down. */
  predicate Unscaled(t: Task) {
    t.status.state == ScalingDown && !t.status.scaledDown
  }

  /** The pass records counts and scales down. */
  ghost predicate ScalesDown(w: World, k: Key, f: Faults) {
    && f.getTask && k in w.tasks && Unscaled(w.tasks[k]) && w.tasks[k].spec.stopPods
    && f.listPods && f.objectWrite && Found(w, w.tasks[k].spec.pvc, f.brokenOwners) != {}
  }

  /** The pass gets to restore counts. */
  predicate RestoresCounts(t: Task, f: Faults) {
    f.getTask && t.status.state == ScalingUp && t.record.Some? && f.recordParses
  }

  /** The pass restores counts and drops the record. */
  ghost predicate ScalesUp(w: World, k: Key, f: Faults) {
    k in w.tasks && RestoresCounts(w.tasks[k], f) && f.objectWrite
  }

  lemma ScaleDownOutcome(w: World, k: Key, f: Faults)
    requires UniqueUids(w) && ScalesDown(w, k, f) && TaskOk(k, w.tasks[k])
    ensures var o := TaskPass(w, k, f);
      var found := Found(w, w.tasks[k].spec.pvc, f.brokenOwners);
      var recorded := w.tasks[k].(record := Some(Originals(w, found)));
      && o.scaled == ToZero(found, f) && !o.newJob
      && o.task == Some(if f.stepWrite then recorded.(status := recorded.status.(scaledDown := true)) else recorded)
  {
    assert TaskPass(w, k, f) == ScaleDownRow(w, w.tasks[k], f);
  }

  lemma ScaleUpOutcome(w: World, k: Key, f: Faults)
    requires UniqueUids(w) && k in w.tasks && TaskOk(k, w.tasks[k])
    requires RestoresCounts(w.tasks[k], f)
    ensures var o := TaskPass(w, k, f);
      && o.scaled == RestoredCounts(w, w.tasks[k].spec.pvc.ns, w.tasks[k].record.value, f)
      && o.task.Some? && o.task.value.spec == w.tasks[k].spec && !Unscaled(o.task.value)
      && o.task.value.record == if f.objectWrite then None else w.tasks[k].record
  {
    assert TaskPass(w, k, f) == ScaleUpRow(w, w.tasks[k], f);
  }

  /** Neither counts nor the record change, and the task does not fall back to before its scale-down. */
  predicate LeavesRecord(t: Task, o: Outcome) {
    && o.scaled == map[]
    && (o.task.Some? ==>
          o.task.value.record == t.record && (Unscaled(o.task.value) ==> Unscaled(t) || t.record == None))
  }

  lemma QuietScaleDownRow(w: World, k: Key, t: Task, f: Faults)
    requires UniqueUids(w) && TaskOk(k, t) && t.status.state == ScalingDown
    requires !(Unscaled(t) && t.spec.stopPods && f.listPods && f.objectWrite
               && Found(w, t.spec.pvc, f.brokenOwners) != {})
    ensures LeavesRecord(t, ScaleDownRow(w, t, f))
  {
  }

  lemma QuietPass(w: World, k: Key, f: Faults)
    requires TasksOk(w) && k in w.tasks && !ScalesDown(w, k, f)
    requires !(RestoresCounts(w.tasks[k], f))
    ensures LeavesRecord(w.tasks[k], TaskPass(w, k, f))
  {
    var t := w.tasks[k];
    assert TaskOk(k, t);
    if f.getTask && t.status.state == ScalingDown {
      QuietScaleDownRow(w, k, t, f);
    } else if f.getTask && (t.status.state == ScalingUp || t.status.state == Running || t.status.state == Starting) {
      QuietWorkRows(w, k, t, f);
    } else {
      QuietIdlePass(w, k, f);
    }
  }

  lemma QuietIdlePass(w: World, k: Key, f: Faults)
    requires UniqueUids(w) && k in w.tasks && TaskOk(k, w.tasks[k])
    requires !f.getTask || !w.tasks[k].status.initialized || w.tasks[k].Finished()
    ensures LeavesRecord(w.tasks[k], TaskPass(w, k, f))
  {
  }

  lemma QuietWorkRows(w: World, k: Key, t: Task, f: Faults)
    requires TaskOk(k, t)
    ensures t.status.state == Starting ==> LeavesRecord(t, StartRow(w, k, t, f))
    ensures t.status.state == Running ==> LeavesRecord(t, RunningRow(w, k, t, f))
    ensures t.status.state == ScalingUp && (t.record == None || !f.recordParses) ==>
      LeavesRecord(t, ScaleUpRow(w, t, f))
  {
  }

  /* ---- which events conserve the counts ---- */

  /** The count is on another task's record, or lost already. */
  ghost predicate KeptByOthers(s: Sys, k: Key, u: Uid)
    requires u in s.intended
  {
    u in s.lost || exists j :: j in s.w.tasks && j != k && Remembers(s, s.w.tasks[j], u)
  }

  /** Task `k` may forget the workload: it is at its count, or others keep that. */
  ghost predicate Forgettable(s: Sys, k: Key, wk: WKey)
    requires wk in s.w.workloads
  {
    var wl := s.w.workloads[wk];
    wl.uid in s.intended && (wl.Desired() == s.intended[wl.uid] || KeptByOthers(s, k, wl.uid))
  }

  /** Each workload the pass finds, or drops from the record, may be forgotten. */
  ghost predicate ScaleDownAccounts(s: Sys, k: Key, f: Faults)
    requires k in s.w.tasks
  {
    forall wk :: wk in s.w.workloads ==>
      wk in Found(s.w, s.w.tasks[k].spec.pvc, f.brokenOwners) || s.w.tasks[k].Holds(s.w.workloads[wk].uid) ==>
        Forgettable(s, k, wk)
  }

  /** Each workload the pass restores has its count on record, or a zero while others keep its count. Those it cannot
      restore may be forgotten, if it drops the record. */
  ghost predicate ScaleUpAccounts(s: Sys, k: Key, f: Faults)
    requires k in s.w.tasks && s.w.tasks[k].record.Some?
  {
    forall wk :: wk in s.w.workloads && s.w.tasks[k].Holds(s.w.workloads[wk].uid) ==>
      if wk in Restorable(s.w, s.w.tasks[k].spec.pvc.ns, s.w.tasks[k].record.value, f) then
        RightOrShelved(s, k, s.w.workloads[wk].uid)
      else f.objectWrite ==> Forgettable(s, k, wk)
  }

  ghost predicate RightOrShelved(s: Sys, k: Key, u: Uid)
    requires k in s.w.tasks && s.w.tasks[k].Holds(u)
  {
    var count := s.w.tasks[k].record.value[u].replicas;
    u in s.intended && (count == s.intended[u] || (count == 0 && KeptByOthers(s, k, u)))
  }

  ghost predicate Accounts(s: Sys, e: Event) {
    e.Pass? && e.task in s.w.tasks ==>
      && (ScalesDown(s.w, e.task, e.f) ==> ScaleDownAccounts(s, e.task, e.f))
      && (RestoresCounts(s.w.tasks[e.task], e.f) ==> ScaleUpAccounts(s, e.task, e.f))
  }

  /** What keeps a count once the effect on task `k` has taken place. */
  lemma KeptAfter(s: Sys, k: Key, o: Outcome, next: Sys, wk: WKey)
    requires k in s.w.tasks && next == Enacted(s, k, o)
    requires wk in s.w.workloads && s.w.workloads[wk].uid in s.intended
    ensures var u := s.w.workloads[wk].uid; var wl := next.w.workloads[wk];
      && wl == SetTo(s.w.workloads[wk], wk, o.scaled)
      && (CountKept(next, wl) <==>
            || wl.Desired() == s.intended[u]
            || (wl.Desired() == 0 && KeptByOthers(s, k, u))
            || (wl.Desired() == 0 && if o.task.Some? then Remembers(s, o.task.value, u) else LastKeeper(s, k, u)))
  {
    var u := s.w.workloads[wk].uid;
    if j :| j in s.w.tasks && j != k && Remembers(s, s.w.tasks[j], u) {
      assert Remembers(next, next.w.tasks[j], u);
    }
    if o.task.Some? && Remembers(s, o.task.value, u) {
      assert Remembers(next, next.w.tasks[k], u);
    }
    if j :| j in next.w.tasks && Remembers(next, next.w.tasks[j], u) {
      assert j == k || Remembers(s, s.w.tasks[j], u);
    }
  }

  lemma ConservedPointwise(s: Sys, k: Key, o: Outcome, next: Sys)
    requires k in s.w.tasks && next == Enacted(s, k, o) && Conserved(s)
    ensures Conserved(next) <==>
      forall wk :: wk in s.w.workloads ==> CountKept(next, next.w.workloads[wk])
  {
    assert next.w.workloads.Keys == s.w.workloads.Keys;
  }

  lemma ScaleDownCount(s: Sys, k: Key, f: Faults, found: set<WKey>, o: Outcome, next: Sys, wk: WKey)
    requires UniqueUids(s.w) && Conserved(s) && k in s.w.tasks && next == Enacted(s, k, o)
    requires forall x :: x in found ==> x in s.w.workloads
    requires o.scaled == ToZero(found, f) && o.task.Some? && o.task.value.record == Some(Originals(s.w, found))
    requires wk in s.w.workloads
    ensures CountKept(next, next.w.workloads[wk]) <==>
      (wk in found || s.w.tasks[k].Holds(s.w.workloads[wk].uid) ==> Forgettable(s, k, wk))
  {
    KeptAfter(s, k, o, next, wk);
    OriginalsAre(s.w, found);
    assert CountKept(s, s.w.workloads[wk]);
  }

  lemma ScaleUpCount(s: Sys, k: Key, f: Faults, o: Outcome, next: Sys, wk: WKey)
    requires Conserved(s) && k in s.w.tasks && next == Enacted(s, k, o) && s.w.tasks[k].record.Some?
    requires o.scaled == RestoredCounts(s.w, s.w.tasks[k].spec.pvc.ns, s.w.tasks[k].record.value, f)
    requires o.task.Some? && o.task.value.record == if f.objectWrite then None else s.w.tasks[k].record
    requires wk in s.w.workloads
    ensures CountKept(next, next.w.workloads[wk]) <==>
      (s.w.tasks[k].Holds(s.w.workloads[wk].uid) ==>
        if wk in Restorable(s.w, s.w.tasks[k].spec.pvc.ns, s.w.tasks[k].record.value, f) then
          RightOrShelved(s, k, s.w.workloads[wk].uid)
        else f.objectWrite ==> Forgettable(s, k, wk))
  {
    KeptAfter(s, k, o, next, wk);
    assert CountKept(s, s.w.workloads[wk]);
  }

  lemma QuietCount(s: Sys, k: Key, o: Outcome, next: Sys, wk: WKey)
    requires Conserved(s) && k in s.w.tasks && next == Enacted(s, k, o) && LeavesRecord(s.w.tasks[k], o)
    requires wk in s.w.workloads
    ensures CountKept(next, next.w.workloads[wk])
  {
    KeptAfter(s, k, o, next, wk);
    assert CountKept(s, s.w.workloads[wk]);
  }

  lemma QuietConserves(s: Sys, k: Key, o: Outcome)
    requires Conserved(s) && k in s.w.tasks && LeavesRecord(s.w.tasks[k], o)
    ensures Conserved(Enacted(s, k, o))
  {
    var next := Enacted(s, k, o);
    forall wk | wk in s.w.workloads
      ensures CountKept(next, next.w.workloads[wk])
    {
      QuietCount(s, k, o, next, wk);
    }
    ConservedPointwise(s, k, o, next);
  }

  lemma ScaleDownConserves(s: Sys, k: Key, f: Faults)
    requires TasksOk(s.w) && Conserved(s) && ScalesDown(s.w, k, f)
    ensures Conserved(Apply(s, Pass(k, f))) <==> ScaleDownAccounts(s, k, f)
  {
    var o, next := TaskPass(s.w, k, f), Apply(s, Pass(k, f));
    var found := Found(s.w, s.w.tasks[k].spec.pvc, f.brokenOwners);
    ScaleDownOutcome(s.w, k, f);
    forall wk | wk in s.w.workloads
      ensures CountKept(next, next.w.workloads[wk]) <==>
        (wk in found || s.w.tasks[k].Holds(s.w.workloads[wk].uid) ==> Forgettable(s, k, wk))
    {
      ScaleDownCount(s, k, f, found, o, next, wk);
    }
    ConservedPointwise(s, k, o, next);
  }

  lemma ScaleUpConserves(s: Sys, k: Key, f: Faults)
    requires TasksOk(s.w) && Conserved(s) && k in s.w.tasks && RestoresCounts(s.w.tasks[k], f)
    ensures Conserved(Apply(s, Pass(k, f))) <==> ScaleUpAccounts(s, k, f)
  {
    var o, next := TaskPass(s.w, k, f), Apply(s, Pass(k, f));
    ScaleUpOutcome(s.w, k, f);
    forall wk | wk in s.w.workloads
      ensures CountKept(next, next.w.workloads[wk]) <==>
        (s.w.tasks[k].Holds(s.w.workloads[wk].uid) ==>
          if wk in Restorable(s.w, s.w.tasks[k].spec.pvc.ns, s.w.tasks[k].record.value, f) then
            RightOrShelved(s, k, s.w.workloads[wk].uid)
          else f.objectWrite ==> Forgettable(s, k, wk))
    {
      ScaleUpCount(s, k, f, o, next, wk);
    }
    ConservedPointwise(s, k, o, next);
  }

  /** A count stays accounted for when its workload, its intended count, the tasks and its loss stay as they are. */
  lemma KeptElsewhere(s: Sys, next: Sys, wk: WKey)
    requires Conserved(s) && wk in s.w.workloads && wk in next.w.workloads
    requires next.w.workloads[wk].uid == s.w.workloads[wk].uid
      && next.w.workloads[wk].Desired() == s.w.workloads[wk].Desired()
    requires var u := s.w.workloads[wk].uid;
      u in next.intended && next.intended[u] == s.intended[u] && (u in s.lost ==> u in next.lost)
    requires forall j :: j in s.w.tasks ==> j in next.w.tasks && next.w.tasks[j] == s.w.tasks[j]
    ensures CountKept(next, next.w.workloads[wk])
  {
    var wl := s.w.workloads[wk];
    assert CountKept(s, wl);
    if wl.Desired() != s.intended[wl.uid] && wl.uid !in s.lost {
      var j :| j in s.w.tasks && Remembers(s, s.w.tasks[j], wl.uid);
      assert Remembers(next, next.w.tasks[j], wl.uid);
    }
  }

  lemma OutsideEventConserves(s: Sys, e: Event)
    requires TasksOk(s.w) && Conserved(s) && Possible(s, e) && !e.Pass? && !Touches(e)
    ensures Conserved(Apply(s, e))
  {
    var next := Apply(s, e);
    forall wk | wk in next.w.workloads
      ensures next.w.workloads[wk].uid in next.intended && CountKept(next, next.w.workloads[wk])
    {
      if !((e.WorkloadAdded? || e.UserScales?) && wk == e.workload) {
        KeptElsewhere(s, next, wk);
      }
    }
  }

  /** One event, whatever is on record: it conserves the counts exactly when it is no pass that displaces the last
      keeper of a count. */
  lemma ConservesExactly(s: Sys, e: Event)
    requires TasksOk(s.w) && Conserved(s) && Possible(s, e)
    ensures Conserved(Apply(s, e)) <==> Accounts(s, e)
  {
    if e.Pass? && e.task in s.w.tasks {
      if ScalesDown(s.w, e.task, e.f) {
        ScaleDownConserves(s, e.task, e.f);
      } else if RestoresCounts(s.w.tasks[e.task], e.f) {
        ScaleUpConserves(s, e.task, e.f);
      } else {
        QuietPass(s.w, e.task, e.f);
        QuietConserves(s, e.task, TaskPass(s.w, e.task, e.f));
      }
    } else if e.Pass? {
      MissingTaskPass(s, e.task, e.f);
    } else if Touches(e) {
      if e.task in s.w.tasks {
        TouchIsSound(s.w, e);
        QuietConserves(s, e.task, Outcome(Touched(s.w.tasks[e.task], e), map[], false, Done));
      }
    } else {
      OutsideEventConserves(s, e);
    }
  }

  ghost predicate ConservedAt(run: seq<Sys>, i: nat) {
    i < |run| ==> Conserved(run[i])
  }

  ghost predicate AccountsAt(run: seq<Sys>, es: seq<Event>, i: nat) {
    i < |run| && i < |es| ==> Accounts(run[i], es[i])
  }

  lemma StepConservesExactly(run: seq<Sys>, es: seq<Event>, i: nat)
    requires IsRun(run, es) && TasksOk(run[0].w) && i < |es| && ConservedAt(run, i)
    ensures ConservedAt(run, i + 1) <==> AccountsAt(run, es, i)
  {
    RunKeepsTasksOk(run, es, i);
    ConservesExactly(run[i], es[i]);
  }

  lemma {:induction false} AccountedSoFar(run: seq<Sys>, es: seq<Event>, i: nat)
    requires IsRun(run, es) && TasksOk(run[0].w) && ConservedAt(run, 0) && i < |run|
    requires forall n: nat :: n < i ==> AccountsAt(run, es, n)
    ensures ConservedAt(run, i)
  {
    if i > 0 {
      AccountedSoFar(run, es, i - 1);
      StepConservesExactly(run, es, i - 1);
    }
  }

  /** Over every run, whoever overlaps with whom and whatever fails: the counts are conserved all along exactly when
      every pass accounts for what it displaces. */
  lemma RunConservesExactly(run: seq<Sys>, es: seq<Event>)
    requires IsRun(run, es) && Start(run[0])
    ensures (forall i: nat :: i < |run| ==> ConservedAt(run, i)) <==>
      (forall i: nat :: i < |es| ==> AccountsAt(run, es, i))
  {
    assert TasksOk(run[0].w) && ConservedAt(run, 0);
    if forall i: nat :: i < |es| ==> AccountsAt(run, es, i) {
      forall i: nat | i < |run|
        ensures ConservedAt(run, i)
      {
        AccountedSoFar(run, es, i);
      }
    }
    if forall i: nat :: i < |run| ==> ConservedAt(run, i) {
      forall i: nat | i < |es|
        ensures AccountsAt(run, es, i)
      {
        assert ConservedAt(run, i) && ConservedAt(run, i + 1);
        StepConservesExactly(run, es, i);
      }
    }
  }

  /** A task that found a workload already at zero has recorded that zero, and its scale-up, when nobody else keeps the
      count any more, leaves it there. */
  lemma LastScaleUpWins(s: Sys, k: Key, f: Faults, wk: WKey)
    requires TasksOk(s.w) && ScalesUp(s.w, k, f)
    requires wk in Restorable(s.w, s.w.tasks[k].spec.pvc.ns, s.w.tasks[k].record.value, f)
    requires var u := s.w.workloads[wk].uid;
      && s.w.tasks[k].record.value[u].replicas == 0
      && u in s.intended && s.intended[u] != 0 && !KeptByOthers(s, k, u)
    ensures !Conserved(Apply(s, Pass(k, f)))
  {
    var next := Apply(s, Pass(k, f));
    ScaleUpOutcome(s.w, k, f);
    KeptAfter(s, k, TaskPass(s.w, k, f), next, wk);
    assert !CountKept(next, next.w.workloads[wk]);
  }
}
