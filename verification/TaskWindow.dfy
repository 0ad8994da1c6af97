/** Work on a claim happens only while the workloads on the task's record are down: from Starting until the task
    leaves Running they have no desired and no ready replica. On record is every workload that was found behind the
    claim's pods when the task scaled down; it is said exactly which ones escape. */
module TaskWindow {
  import opened Reconciling
  import opened Cluster
  import opened Workloads
  import opened TaskTable
  import opened TaskRuns
  import opened TaskAccounts
  import opened TaskConservation

  predicate InWindow(t: Task) {
    t.status.state == Starting || t.status.state == Running
  }

  /** The workload is down as far as the task that holds it has come. */
  ghost predicate Down(s: Sys, t: Task, k: WKey) {
    k in s.w.workloads && t.Holds(s.w.workloads[k].uid) ==>
      && (InWindow(t) || (t.status.state == ScalingDown && t.status.scaledDown) ==> s.w.workloads[k].Desired() == 0)
      && (InWindow(t) ==> s.w.workloads[k].ready == 0)
  }

  /** All recorded workloads are down. */
  ghost predicate HeldDown(s: Sys) {
    forall j, k :: j in s.w.tasks && k in s.w.workloads ==> Down(s, s.w.tasks[j], k)
  }

  /** Besides, nothing is on record before the scale-down is stored. */
  ghost predicate AllDown(s: Sys) {
    && HeldDown(s)
    && (forall j :: j in s.w.tasks && Unscaled(s.w.tasks[j]) ==> s.w.tasks[j].record == None)
  }

  /** A scale-down pass that records counts is not cut short: its status write is accepted, and so is every patch of a
      workload that is not at zero already. */
  ghost predicate ScaleDownComplete(w: World, k: Key, f: Faults)
    requires k in w.tasks
  {
    && f.stepWrite
    && forall wk :: wk in Found(w, w.tasks[k].spec.pvc, f.brokenOwners) && wk in f.refused ==>
      w.workloads[wk].Desired() == 0
  }

  /** A recorded workload that still reports ready replicas is found behind the claim. */
  ghost predicate Backed(w: World, k: Key, f: Faults)
    requires k in w.tasks
  {
    forall wk :: wk in w.workloads && w.tasks[k].Holds(w.workloads[wk].uid) && w.workloads[wk].ready > 0 ==>
      wk in Found(w, w.tasks[k].spec.pvc, f.brokenOwners)
  }

  /** What the window needs of the environment. */
  ghost predicate Orderly(s: Sys, e: Event) {
    && Considerate(s, e)
    && (e.Pass? && ScalesDown(s.w, e.task, e.f) ==> ScaleDownComplete(s.w, e.task, e.f))
    && (e.Pass? && e.task in s.w.tasks && AwaitsDown(s.w.tasks[e.task]) ==> Backed(s.w, e.task, e.f))
  }

  predicate AwaitsDown(t: Task) {
    t.status.state == ScalingDown && t.status.scaledDown
  }

  /** The pass over a task that has scaled down lets it start exactly when it can read the pods, store the status and
      finds no ready workload. */
  lemma StartsExactlyWhenNoneReady(w: World, k: Key, f: Faults)
    requires UniqueUids(w) && k in w.tasks && TaskOk(k, w.tasks[k]) && AwaitsDown(w.tasks[k])
      && w.tasks[k].spec.stopPods
    ensures var o := TaskPass(w, k, f);
      && o.task.Some?
      && (o.task.value.status.state == Starting <==>
            f.getTask && f.listPods && f.stepWrite && NoneReady(w, Found(w, w.tasks[k].spec.pvc, f.brokenOwners)))
      && o.task.value.record == w.tasks[k].record && o.scaled == map[]
  {
    assert TaskPass(w, k, f) == if f.getTask then ScaleDownRow(w, w.tasks[k], f) else Broken(w.tasks[k]);
  }

  /** The holder's own pass. */
  lemma OwnPassKeepsDown(s: Sys, k: Key, f: Faults, wk: WKey)
    requires TasksOk(s.w) && Apart(s.w) && AllDown(s) && k in s.w.tasks && Orderly(s, Pass(k, f)) && wk in s.w.workloads
    ensures var next := Apply(s, Pass(k, f)); k in next.w.tasks ==> DownAfter(next, k, wk)
  {
    var t := s.w.tasks[k];
    assert TaskOk(k, t) && Down(s, t, wk);
    if ScalesDown(s.w, k, f) {
      OwnPassScalesDown(s, k, f, wk);
    } else if AwaitsDown(t) && t.spec.stopPods {
      OwnPassStarts(s, k, f, wk);
    } else {
      OwnPassMovesOn(s, k, f, wk);
    }
  }

  ghost predicate DownAfter(s: Sys, k: Key, wk: WKey)
    requires k in s.w.tasks
  {
    Down(s, s.w.tasks[k], wk) && (Unscaled(s.w.tasks[k]) ==> s.w.tasks[k].record == None)
  }

  lemma OwnPassScalesDown(s: Sys, k: Key, f: Faults, wk: WKey)
    requires TasksOk(s.w) && wk in s.w.workloads && ScalesDown(s.w, k, f) && ScaleDownComplete(s.w, k, f)
    ensures var next := Apply(s, Pass(k, f)); k in next.w.tasks && DownAfter(next, k, wk)
  {
    var found := Found(s.w, s.w.tasks[k].spec.pvc, f.brokenOwners);
    ScaleDownOutcome(s.w, k, f);
    ScaledIsDown(s, k, f, found, TaskPass(s.w, k, f), wk);
  }

  lemma ScaledIsDown(s: Sys, k: Key, f: Faults, found: set<WKey>, o: Outcome, wk: WKey)
    requires UniqueUids(s.w) && k in s.w.tasks && wk in s.w.workloads && o.scaled == ToZero(found, f)
    requires o.task.Some? && o.task.value.record == Some(Originals(s.w, found))
    requires o.task.value.status.state == ScalingDown && o.task.value.status.scaledDown
    requires wk in found && wk in f.refused ==> s.w.workloads[wk].Desired() == 0
    ensures DownAfter(Enacted(s, k, o), k, wk)
  {
    OriginalsAre(s.w, found);
  }

  lemma OwnPassStarts(s: Sys, k: Key, f: Faults, wk: WKey)
    requires TasksOk(s.w) && AllDown(s) && k in s.w.tasks && wk in s.w.workloads
    requires AwaitsDown(s.w.tasks[k]) && s.w.tasks[k].spec.stopPods && Backed(s.w, k, f)
    ensures var next := Apply(s, Pass(k, f)); k in next.w.tasks && DownAfter(next, k, wk)
  {
    assert Down(s, s.w.tasks[k], wk);
    StartsExactlyWhenNoneReady(s.w, k, f);
    PassSound(s.w, k, f);
  }

  lemma OwnPassMovesOn(s: Sys, k: Key, f: Faults, wk: WKey)
    requires TasksOk(s.w) && AllDown(s) && k in s.w.tasks && wk in s.w.workloads
    requires !ScalesDown(s.w, k, f) && !(AwaitsDown(s.w.tasks[k]) && s.w.tasks[k].spec.stopPods)
    ensures var next := Apply(s, Pass(k, f)); k in next.w.tasks ==> DownAfter(next, k, wk)
  {
    var t := s.w.tasks[k];
    assert TaskOk(k, t) && Down(s, t, wk);
    PassSound(s.w, k, f);
    if !(RestoresCounts(t, f)) {
      QuietPass(s.w, k, f);
    }
    MovesOn(s, k, TaskPass(s.w, k, f), wk);
  }

  lemma MovesOn(s: Sys, k: Key, o: Outcome, wk: WKey)
    requires k in s.w.tasks && wk in s.w.workloads && TaskOk(k, s.w.tasks[k]) && Down(s, s.w.tasks[k], wk)
    requires Unscaled(s.w.tasks[k]) ==> s.w.tasks[k].record == None
    requires Sound(s.w, k, s.w.tasks[k], o) && !(AwaitsDown(s.w.tasks[k]) && s.w.tasks[k].spec.stopPods)
    requires s.w.tasks[k].status.state == ScalingUp || LeavesRecord(s.w.tasks[k], o)
    ensures var next := Enacted(s, k, o); k in next.w.tasks ==> DownAfter(next, k, wk)
  {
  }

  /** A pass of another task does not touch the workloads that `j` holds. */
  lemma OtherPassKeepsDown(s: Sys, k: Key, f: Faults, j: Key, wk: WKey)
    requires TasksOk(s.w) && Apart(s.w) && AllDown(s) && k in s.w.tasks && Orderly(s, Pass(k, f))
      && wk in s.w.workloads && j in s.w.tasks
      && j != k
    ensures Down(Apply(s, Pass(k, f)), s.w.tasks[j], wk)
  {
    var t := s.w.tasks[j];
    assert Down(s, t, wk);
    if HoldsAtWork(t, s.w.workloads[wk].uid) {
      assert FreeAtWork(s.w, j, s.w.workloads[wk].uid);
      if ScalesDown(s.w, k, f) {
        ScaleDownOutcome(s.w, k, f);
        assert wk !in TaskPass(s.w, k, f).scaled;
      } else if RestoresCounts(s.w.tasks[k], f) {
        ScaleUpOutcome(s.w, k, f);
        assert !HoldsAtWork(s.w.tasks[k], s.w.workloads[wk].uid);
        assert wk !in TaskPass(s.w, k, f).scaled;
      } else {
        QuietPass(s.w, k, f);
      }
    }
  }

  lemma PassKeepsAllDown(s: Sys, k: Key, f: Faults)
    requires TasksOk(s.w) && Apart(s.w) && AllDown(s) && Orderly(s, Pass(k, f)) && k in s.w.tasks
    ensures AllDown(Apply(s, Pass(k, f)))
  {
    var next := Apply(s, Pass(k, f));
    PassSound(s.w, k, f);
    forall j, wk | j in next.w.tasks && wk in next.w.workloads
      ensures Down(next, next.w.tasks[j], wk)
    {
      if j == k {
        OwnPassKeepsDown(s, k, f, wk);
      } else {
        OtherPassKeepsDown(s, k, f, j, wk);
      }
    }
    RecordsNothingYet(s, k, f);
  }

  lemma RecordsNothingYet(s: Sys, k: Key, f: Faults)
    requires TasksOk(s.w) && Apart(s.w) && AllDown(s) && Orderly(s, Pass(k, f)) && k in s.w.tasks
    ensures var next := Apply(s, Pass(k, f));
      k in next.w.tasks && Unscaled(next.w.tasks[k]) ==> next.w.tasks[k].record == None
  {
    if wk :| wk in s.w.workloads {
      OwnPassKeepsDown(s, k, f, wk);
    } else {
      NoWorkloads(s.w, k, f);
    }
  }

  lemma NoWorkloads(w: World, k: Key, f: Faults)
    requires TasksOk(w) && k in w.tasks && w.workloads == map[] && (Unscaled(w.tasks[k]) ==> w.tasks[k].record == None)
    ensures var o := TaskPass(w, k, f); o.task.Some? && Unscaled(o.task.value) ==> o.task.value.record == None
  {
    assert TaskOk(k, w.tasks[k]);
    assert Found(w, w.tasks[k].spec.pvc, f.brokenOwners) == {};
    if !(RestoresCounts(w.tasks[k], f)) {
      QuietPass(w, k, f);
    }
  }

  lemma EventKeepsAllDown(s: Sys, e: Event)
    requires TasksOk(s.w) && Apart(s.w) && AllDown(s) && Possible(s, e) && Orderly(s, e)
    ensures AllDown(Apply(s, e))
  {
    if e.Pass? {
      if e.task in s.w.tasks {
        PassKeepsAllDown(s, e.task, e.f);
      } else {
        MissingTaskPass(s, e.task, e.f);
      }
    } else {
      OutsideEventKeepsAllDown(s, e);
    }
  }

  lemma OutsideEventKeepsAllDown(s: Sys, e: Event)
    requires AllDown(s) && UniqueUids(s.w) && Possible(s, e) && Considerate(s, e) && !e.Pass?
    ensures AllDown(Apply(s, e))
  {
    var next := Apply(s, e);
    forall j, wk | j in next.w.tasks && wk in next.w.workloads
      ensures Down(next, next.w.tasks[j], wk)
    {
      OutsideEventKeepsDown(s, e, j, wk);
    }
  }

  lemma OutsideEventKeepsDown(s: Sys, e: Event, j: Key, wk: WKey)
    requires HeldDown(s) && UniqueUids(s.w) && Possible(s, e) && Considerate(s, e) && !e.Pass?
    requires j in Apply(s, e).w.tasks && wk in Apply(s, e).w.workloads
    ensures Down(Apply(s, e), Apply(s, e).w.tasks[j], wk)
  {
    if Touches(e) {
      assert Down(s, s.w.tasks[j], wk);
      if e.task in s.w.tasks {
        TouchKeepsDown(s, e, j, wk);
      }
    } else if HoldsAtWork(Apply(s, e).w.tasks[j], Apply(s, e).w.workloads[wk].uid) {
      HeldWorkloadIsLeftAlone(s, e, j, wk);
      assert Down(s, s.w.tasks[j], wk);
    }
  }

  lemma TouchKeepsDown(s: Sys, e: Event, j: Key, wk: WKey)
    requires UniqueUids(s.w) && Touches(e) && e.task in s.w.tasks && j in s.w.tasks && wk in s.w.workloads
    requires Down(s, s.w.tasks[j], wk) && j in Apply(s, e).w.tasks
    ensures wk in Apply(s, e).w.workloads && Down(Apply(s, e), Apply(s, e).w.tasks[j], wk)
  {
    assert Apply(s, e).w.workloads[wk] == s.w.workloads[wk];
  }

  /* ---- what the hypotheses are worth ---- */

  lemma NotDown(s: Sys, k: Key, wk: WKey)
    requires k in s.w.tasks && wk in s.w.workloads && !Down(s, s.w.tasks[k], wk)
    ensures !HeldDown(s)
  {
  }

  /** A workload that is found and not at zero keeps its replicas, because its patch is refused. */
  ghost predicate MissesScaleDown(w: World, k: Key, f: Faults, wk: WKey)
    requires k in w.tasks
  {
    wk in Found(w, w.tasks[k].spec.pvc, f.brokenOwners) && wk in f.refused && w.workloads[wk].Desired() != 0
  }

  lemma UnstoredScaleDownIsSafe(s: Sys, k: Key, f: Faults)
    requires TasksOk(s.w) && HeldDown(s) && ScalesDown(s.w, k, f) && !f.stepWrite
    ensures HeldDown(Apply(s, Pass(k, f)))
  {
    RefusedScaleDown(s, k, f);
    UnstoredKeepsDown(s, Apply(s, Pass(k, f)), k, f, Found(s.w, s.w.tasks[k].spec.pvc, f.brokenOwners));
  }

  lemma UnstoredKeepsDown(s: Sys, next: Sys, k: Key, f: Faults, found: set<WKey>)
    requires HeldDown(s) && k in next.w.tasks && Unscaled(next.w.tasks[k])
      && next.w.workloads.Keys == s.w.workloads.Keys
    requires forall j :: j in next.w.tasks && j != k ==> j in s.w.tasks && next.w.tasks[j] == s.w.tasks[j]
    requires forall wk :: wk in s.w.workloads ==> next.w.workloads[wk] == SetTo(s.w.workloads[wk], wk, ToZero(found, f))
    ensures HeldDown(next)
  {
    forall j, wk | j in next.w.tasks && wk in next.w.workloads
      ensures Down(next, next.w.tasks[j], wk)
    {
      if j != k {
        assert Down(s, s.w.tasks[j], wk);
        ScalingDownKeepsDown(s, next, s.w.tasks[j], found, f, wk);
      }
    }
  }

  lemma ScalingDownKeepsDown(s: Sys, next: Sys, t: Task, found: set<WKey>, f: Faults, wk: WKey)
    requires Down(s, t, wk) && wk in s.w.workloads && wk in next.w.workloads
    requires next.w.workloads[wk] == SetTo(s.w.workloads[wk], wk, ToZero(found, f))
    ensures Down(next, t, wk)
  {
  }

  lemma MissedIsNotDown(s: Sys, k: Key, f: Faults, wk: WKey)
    requires TasksOk(s.w) && ScalesDown(s.w, k, f) && f.stepWrite && MissesScaleDown(s.w, k, f, wk)
    ensures !HeldDown(Apply(s, Pass(k, f)))
  {
    var next := Apply(s, Pass(k, f));
    ScaleDownOutcome(s.w, k, f);
    assert next.w.tasks[k].Holds(s.w.workloads[wk].uid) by {
      OriginalsAre(s.w, Found(s.w, s.w.tasks[k].spec.pvc, f.brokenOwners));
    }
    NotDown(next, k, wk);
  }

  /** A scale-down that is stored leaves everything on record down exactly when every patch that matters is accepted.
      One that is not stored leaves everything on record down in any case: its own task does not count on it yet. */
  lemma ScaleDownIsSafeExactly(s: Sys, k: Key, f: Faults)
    requires TasksOk(s.w) && Apart(s.w) && AllDown(s) && Considerate(s, Pass(k, f)) && ScalesDown(s.w, k, f)
    ensures HeldDown(Apply(s, Pass(k, f))) <==> !f.stepWrite || forall wk :: !MissesScaleDown(s.w, k, f, wk)
  {
    if !f.stepWrite {
      UnstoredScaleDownIsSafe(s, k, f);
    } else if wk :| MissesScaleDown(s.w, k, f, wk) {
      MissedIsNotDown(s, k, f, wk);
    } else {
      assert forall wk :: wk in Found(s.w, s.w.tasks[k].spec.pvc, f.brokenOwners) ==> !MissesScaleDown(s.w, k, f, wk);
      PassKeepsAllDown(s, k, f);
    }
  }

  /** The pass reads the pods, finds nothing behind the claim and has its status stored. */
  ghost predicate FindsNothing(w: World, k: Key, f: Faults)
    requires k in w.tasks
  {
    f.getTask && f.listPods && f.stepWrite && Found(w, w.tasks[k].spec.pvc, f.brokenOwners) == {}
  }

  /** The task that scaled down without storing it, once its pods are gone. */
  ghost function Retried(s: Sys, k: Key, f: Faults, pods: seq<Pod>, replicaSets: map<Key, Option<OwnerRef>>): Sys
    requires UniqueUids(s.w)
    ensures UniqueUids(Retried(s, k, f, pods, replicaSets).w)
  {
    var s1 := Apply(s, Pass(k, f));
    assert UniqueUids(s1.w) by {
      assert forall wk :: wk in s1.w.workloads ==>
        wk in s.w.workloads && s1.w.workloads[wk].uid == s.w.workloads[wk].uid;
    }
    Apply(s1, PodsMove(pods, replicaSets))
  }

  lemma RetriedIs(s: Sys, k: Key, f: Faults, pods: seq<Pod>, replicaSets: map<Key, Option<OwnerRef>>)
    requires TasksOk(s.w) && ScalesDown(s.w, k, f) && !f.stepWrite
    ensures var s2 := Retried(s, k, f, pods, replicaSets);
      var found := Found(s.w, s.w.tasks[k].spec.pvc, f.brokenOwners);
      && s2.w.workloads.Keys == s.w.workloads.Keys
      && (forall wk :: wk in s.w.workloads ==> s2.w.workloads[wk] == SetTo(s.w.workloads[wk], wk, ToZero(found, f)))
      && (forall j :: j in s2.w.tasks && j != k ==> j in s.w.tasks && s2.w.tasks[j] == s.w.tasks[j])
      && k in s2.w.tasks && s2.w.tasks[k] == s.w.tasks[k].(record := Some(Originals(s.w, found)))
  {
    RefusedScaleDown(s, k, f);
    EventKeepsTasksOk(s, Pass(k, f));
    PodsMovedSince(s, Apply(s, Pass(k, f)), k, f, pods, replicaSets);
  }

  lemma PodsMovedSince(s: Sys, s1: Sys, k: Key, f: Faults, pods: seq<Pod>, replicaSets: map<Key, Option<OwnerRef>>)
    requires UniqueUids(s.w) && UniqueUids(s1.w) && k in s.w.tasks && Unstored(s, s1, k, f)
    ensures var s2 := Apply(s1, PodsMove(pods, replicaSets));
      var found := Found(s.w, s.w.tasks[k].spec.pvc, f.brokenOwners);
      && s2.w.workloads.Keys == s.w.workloads.Keys
      && (forall wk :: wk in s.w.workloads ==> s2.w.workloads[wk] == SetTo(s.w.workloads[wk], wk, ToZero(found, f)))
      && (forall j :: j in s2.w.tasks && j != k ==> j in s.w.tasks && s2.w.tasks[j] == s.w.tasks[j])
      && k in s2.w.tasks && s2.w.tasks[k] == s.w.tasks[k].(record := Some(Originals(s.w, found)))
  {
  }

  /** The task starts with these workloads on record, all of them but the refused ones scaled to zero. */
  ghost predicate StartedWith(s: Sys, next: Sys, k: Key, f: Faults, found: set<WKey>) {
    && UniqueUids(s.w) && k in next.w.tasks
    && next.w.workloads.Keys == s.w.workloads.Keys
    && (forall wk :: wk in s.w.workloads ==> next.w.workloads[wk] == SetTo(s.w.workloads[wk], wk, ToZero(found, f)))
    && (forall j :: j in next.w.tasks && j != k ==> j in s.w.tasks && next.w.tasks[j] == s.w.tasks[j])
    && next.w.tasks[k].status.state == Starting && next.w.tasks[k].record == Some(Originals(s.w, found))
  }

  lemma StartedDownExactly(s: Sys, next: Sys, k: Key, f: Faults, found: set<WKey>, wk: WKey)
    requires StartedWith(s, next, k, f, found) && wk in s.w.workloads
    ensures Down(next, next.w.tasks[k], wk) <==>
      (wk in found ==> s.w.workloads[wk].ready == 0 && (wk in f.refused ==> s.w.workloads[wk].Desired() == 0))
  {
    OriginalsAre(s.w, found);
  }

  lemma StartedIsDownExactly(s: Sys, next: Sys, k: Key, f: Faults, found: set<WKey>)
    requires HeldDown(s) && StartedWith(s, next, k, f, found)
    requires forall wk :: wk in found ==> wk in s.w.workloads
    ensures HeldDown(next) <==>
      forall wk :: wk in found ==>
        s.w.workloads[wk].ready == 0 && (wk in f.refused ==> s.w.workloads[wk].Desired() == 0)
  {
    forall wk | wk in s.w.workloads
      ensures Down(next, next.w.tasks[k], wk) <==>
        (wk in found ==> s.w.workloads[wk].ready == 0 && (wk in f.refused ==> s.w.workloads[wk].Desired() == 0))
    {
      StartedDownExactly(s, next, k, f, found, wk);
    }
    if forall wk :: wk in found ==>
      s.w.workloads[wk].ready == 0 && (wk in f.refused ==> s.w.workloads[wk].Desired() == 0) {
      forall j, wk | j in next.w.tasks && wk in next.w.workloads
        ensures Down(next, next.w.tasks[j], wk)
      {
        if j != k {
          assert Down(s, s.w.tasks[j], wk);
        }
      }
    }
  }

  /** Where a refused status write of a scale-down leads: the scaled workloads lose their pods, the retry finds
      nothing and starts at once with the record of the first pass. Everything on record is down then exactly when the
      first pass missed nothing and nothing it found is ready; nobody has waited for that. */
  lemma RefusedScaleDownStartsEarly(s: Sys, k: Key, f: Faults, pods: seq<Pod>,
                                    replicaSets: map<Key, Option<OwnerRef>>, g: Faults)
    requires TasksOk(s.w) && HeldDown(s) && ScalesDown(s.w, k, f) && !f.stepWrite
    requires var s2 := Retried(s, k, f, pods, replicaSets); k in s2.w.tasks && FindsNothing(s2.w, k, g)
    ensures var found := Found(s.w, s.w.tasks[k].spec.pvc, f.brokenOwners);
      var s3 := Apply(Retried(s, k, f, pods, replicaSets), Pass(k, g));
      && k in s3.w.tasks && s3.w.tasks[k].status.state == Starting
      && s3.w.tasks[k].record == Some(Originals(s.w, found))
      && (HeldDown(s3) <==>
            forall wk :: wk in found ==>
              s.w.workloads[wk].ready == 0 && (wk in f.refused ==> s.w.workloads[wk].Desired() == 0))
  {
    var t := s.w.tasks[k];
    var found := Found(s.w, t.spec.pvc, f.brokenOwners);
    var s2 := Retried(s, k, f, pods, replicaSets);
    RetriedIs(s, k, f, pods, replicaSets);
    assert TaskOk(k, t);
    StartsWith(s, s2, k, f, found, g);
    StartedIsDownExactly(s, Apply(s2, Pass(k, g)), k, f, found);
  }

  lemma StartsWith(s: Sys, s2: Sys, k: Key, f: Faults, found: set<WKey>, g: Faults)
    requires UniqueUids(s.w) && UniqueUids(s2.w) && k in s.w.tasks && k in s2.w.tasks && TaskOk(k, s.w.tasks[k])
    requires Unscaled(s.w.tasks[k]) && s.w.tasks[k].spec.stopPods && FindsNothing(s2.w, k, g)
    requires s2.w.workloads.Keys == s.w.workloads.Keys
    requires forall wk :: wk in s.w.workloads ==> s2.w.workloads[wk] == SetTo(s.w.workloads[wk], wk, ToZero(found, f))
    requires forall j :: j in s2.w.tasks && j != k ==> j in s.w.tasks && s2.w.tasks[j] == s.w.tasks[j]
    requires s2.w.tasks[k] == s.w.tasks[k].(record := Some(Originals(s.w, found)))
    ensures StartedWith(s, Apply(s2, Pass(k, g)), k, f, found)
  {
    StartsAtOnce(s2, k, g);
    StartedWithRecord(s, s2, Apply(s2, Pass(k, g)), k, f, found);
  }

  lemma StartedWithRecord(s: Sys, s2: Sys, next: Sys, k: Key, f: Faults, found: set<WKey>)
    requires UniqueUids(s.w) && k in s.w.tasks && k in s2.w.tasks
    requires s2.w.workloads.Keys == s.w.workloads.Keys
    requires forall wk :: wk in s.w.workloads ==> s2.w.workloads[wk] == SetTo(s.w.workloads[wk], wk, ToZero(found, f))
    requires forall j :: j in s2.w.tasks && j != k ==> j in s.w.tasks && s2.w.tasks[j] == s.w.tasks[j]
    requires s2.w.tasks[k].record == Some(Originals(s.w, found))
    requires next.w.workloads == s2.w.workloads
    requires var t := s2.w.tasks[k]; next.w.tasks == s2.w.tasks[k := t.(status := t.status.(state := Starting))]
    ensures StartedWith(s, next, k, f, found)
  {
  }

  lemma StartsAtOnce(s: Sys, k: Key, f: Faults)
    requires UniqueUids(s.w) && k in s.w.tasks && Unscaled(s.w.tasks[k]) && s.w.tasks[k].spec.stopPods
    requires s.w.tasks[k].status.initialized && s.w.tasks[k].Guarded() && FindsNothing(s.w, k, f)
    ensures var next := Apply(s, Pass(k, f)); var t := s.w.tasks[k];
      && next.w.workloads == s.w.workloads
      && next.w.tasks == s.w.tasks[k := t.(status := t.status.(state := Starting))]
  {
    assert TaskPass(s.w, k, f) == ScaleDownRow(s.w, s.w.tasks[k], f);
    assert Apply(s, Pass(k, f)).w.workloads == s.w.workloads;
  }

  /** Letting a task start keeps everything recorded down exactly when no recorded workload that is still ready has
      escaped the search through the pods. */
  lemma StartIsSafeExactly(s: Sys, k: Key, f: Faults)
    requires TasksOk(s.w) && Apart(s.w) && AllDown(s) && k in s.w.tasks && AwaitsDown(s.w.tasks[k])
      && s.w.tasks[k].spec.stopPods
    requires TaskPass(s.w, k, f).task.Some? && TaskPass(s.w, k, f).task.value.status.state == Starting
    ensures HeldDown(Apply(s, Pass(k, f))) <==> Backed(s.w, k, f)
  {
    if Backed(s.w, k, f) {
      PassKeepsAllDown(s, k, f);
    } else {
      var wk :| wk in s.w.workloads && s.w.tasks[k].Holds(s.w.workloads[wk].uid) && s.w.workloads[wk].ready > 0
        && wk !in Found(s.w, s.w.tasks[k].spec.pvc, f.brokenOwners);
      ReadyIsNotDown(s, k, f, wk);
    }
  }

  lemma ReadyIsNotDown(s: Sys, k: Key, f: Faults, wk: WKey)
    requires TasksOk(s.w) && k in s.w.tasks && AwaitsDown(s.w.tasks[k]) && s.w.tasks[k].spec.stopPods
    requires TaskPass(s.w, k, f).task.Some? && TaskPass(s.w, k, f).task.value.status.state == Starting
    requires wk in s.w.workloads && s.w.tasks[k].Holds(s.w.workloads[wk].uid) && s.w.workloads[wk].ready > 0
    ensures !HeldDown(Apply(s, Pass(k, f)))
  {
    StartsExactlyWhenNoneReady(s.w, k, f);
    NotDown(Apply(s, Pass(k, f)), k, wk);
  }

  /* ---- which workloads are on record ---- */

  /** Every pod that leads from the claim to the workload has an owner that the pass cannot read. */
  ghost predicate Escapes(w: World, pvc: Key, f: Faults, wk: WKey) {
    forall p :: p in w.pods && Leads(w, p, pvc, {}, wk) ==> p.at in f.brokenOwners
  }

  predicate Working(t: Task) {
    AwaitsDown(t) || InWindow(t)
  }

  /** The pass with which a task leaves the time before its scale-down: of the workloads whose pods mount the claim it
      has on record exactly those that do not escape it. */
  lemma RecordCoversExactly(s: Sys, k: Key, f: Faults, wk: WKey)
    requires TasksOk(s.w) && AllDown(s) && k in s.w.tasks && Unscaled(s.w.tasks[k]) && s.w.tasks[k].spec.stopPods
    requires var o := TaskPass(s.w, k, f); o.task.Some? && !Unscaled(o.task.value)
    requires wk in Found(s.w, s.w.tasks[k].spec.pvc, {})
    ensures TaskPass(s.w, k, f).task.value.Holds(s.w.workloads[wk].uid) <==> !Escapes(s.w, s.w.tasks[k].spec.pvc, f, wk)
  {
    var t := s.w.tasks[k];
    var found := Found(s.w, t.spec.pvc, f.brokenOwners);
    assert TaskOk(k, t);
    assert wk in found <==> !Escapes(s.w, t.spec.pvc, f, wk) by {
      FoundUnlessEscaped(s.w, t.spec.pvc, f, wk);
    }
    if found != {} {
      ScaleDownOutcome(s.w, k, f);
      OriginalsAre(s.w, found);
    } else {
      assert TaskPass(s.w, k, f) == ScaleDownRow(s.w, t, f);
    }
  }

  lemma FoundUnlessEscaped(w: World, pvc: Key, f: Faults, wk: WKey)
    requires wk in Found(w, pvc, {})
    ensures wk in Found(w, pvc, f.brokenOwners) <==> !Escapes(w, pvc, f, wk)
  {
    forall p | p in w.pods
      ensures Leads(w, p, pvc, f.brokenOwners, wk) <==> Leads(w, p, pvc, {}, wk) && p.at !in f.brokenOwners
    {
    }
  }

  lemma RecordStays(s: Sys, e: Event, k: Key)
    requires TasksOk(s.w) && Possible(s, e) && k in s.w.tasks && Working(s.w.tasks[k])
    requires k in Apply(s, e).w.tasks && Working(Apply(s, e).w.tasks[k])
    ensures Apply(s, e).w.tasks[k].record == s.w.tasks[k].record
  {
    if e.Pass? && e.task == k {
      QuietPass(s.w, k, e.f);
    } else if Touches(e) && e.task == k {
      TouchIsSound(s.w, e);
    } else {
      OtherEventKeepsTask(s, e, k);
    }
  }

  /** The task is stored with the same record at both moments. */
  predicate SameRecord(a: Sys, b: Sys, k: Key) {
    k in a.w.tasks && k in b.w.tasks && a.w.tasks[k].record == b.w.tasks[k].record
  }

  lemma {:induction false} SameRecordThroughout(run: seq<Sys>, i: nat, m: nat, k: Key)
    requires i <= m < |run| && k in run[i].w.tasks
    requires forall n :: i <= n < m ==> SameRecord(run[n], run[n + 1], k)
    ensures SameRecord(run[i], run[m], k)
  {
    if i < m {
      SameRecordThroughout(run, i, m - 1, k);
      assert SameRecord(run[m - 1], run[m], k);
    }
  }

  /** From the pass that leaves the time before the scale-down, to the moment the task leaves Running, a workload whose
      pods mounted the claim at that pass is on record if and only if it did not escape the pass. */
  lemma CoveredExactly(run: seq<Sys>, es: seq<Event>, i: nat, m: nat, k: Key, wk: WKey)
    requires IsRun(run, es) && Start(run[0]) && i < m < |run|
    requires forall n :: 0 <= n < |es| ==> Orderly(run[n], es[n])
    requires es[i].Pass? && es[i].task == k && k in run[i].w.tasks && Unscaled(run[i].w.tasks[k])
    requires run[i].w.tasks[k].spec.stopPods && wk in Found(run[i].w, run[i].w.tasks[k].spec.pvc, {})
    requires forall n :: i < n <= m ==> k in run[n].w.tasks && Working(run[n].w.tasks[k])
    ensures run[m].w.tasks[k].Holds(run[i].w.workloads[wk].uid) <==>
      !Escapes(run[i].w, run[i].w.tasks[k].spec.pvc, es[i].f, wk)
  {
    CoveredAtFirst(run, es, i, k, wk);
    forall n | i < n < m
      ensures SameRecord(run[n], run[n + 1], k)
    {
      RecordStaysInRun(run, es, n, k);
    }
    SameRecordThroughout(run, i + 1, m, k);
  }

  lemma CoveredAtFirst(run: seq<Sys>, es: seq<Event>, i: nat, k: Key, wk: WKey)
    requires IsRun(run, es) && Start(run[0]) && i < |es|
    requires forall n :: 0 <= n < |es| ==> Orderly(run[n], es[n])
    requires es[i].Pass? && es[i].task == k && k in run[i].w.tasks && Unscaled(run[i].w.tasks[k])
    requires run[i].w.tasks[k].spec.stopPods && wk in Found(run[i].w, run[i].w.tasks[k].spec.pvc, {})
    requires k in run[i + 1].w.tasks && Working(run[i + 1].w.tasks[k])
    ensures run[i + 1].w.tasks[k].Holds(run[i].w.workloads[wk].uid) <==>
      !Escapes(run[i].w, run[i].w.tasks[k].spec.pvc, es[i].f, wk)
  {
    WorkRunsInTheWindow(run, es, i);
    RecordCoversExactly(run[i], k, es[i].f, wk);
  }

  lemma RecordStaysInRun(run: seq<Sys>, es: seq<Event>, n: nat, k: Key)
    requires IsRun(run, es) && Start(run[0]) && n < |es|
    requires forall n :: 0 <= n < |es| ==> Orderly(run[n], es[n])
    requires k in run[n].w.tasks && Working(run[n].w.tasks[k])
    requires k in run[n + 1].w.tasks && Working(run[n + 1].w.tasks[k])
    ensures run[n + 1].w.tasks[k].record == run[n].w.tasks[k].record
  {
    WorkRunsInTheWindow(run, es, n);
    RecordStays(run[n], es[n], k);
  }

  /** While a task is Starting or Running, every workload whose pods mounted the claim when the task scaled down has no
      desired and no ready replica, unless it escaped that pass. */
  lemma ClaimIsIdleInTheWindow(run: seq<Sys>, es: seq<Event>, i: nat, m: nat, k: Key, wk: WKey)
    requires IsRun(run, es) && Start(run[0]) && i < m < |run|
    requires forall n :: 0 <= n < |es| ==> Orderly(run[n], es[n])
    requires es[i].Pass? && es[i].task == k && k in run[i].w.tasks && Unscaled(run[i].w.tasks[k])
    requires run[i].w.tasks[k].spec.stopPods && wk in Found(run[i].w, run[i].w.tasks[k].spec.pvc, {})
    requires forall n :: i < n <= m ==> k in run[n].w.tasks && Working(run[n].w.tasks[k])
    requires InWindow(run[m].w.tasks[k]) && !Escapes(run[i].w, run[i].w.tasks[k].spec.pvc, es[i].f, wk)
    ensures wk in run[m].w.workloads && run[m].w.workloads[wk].uid == run[i].w.workloads[wk].uid ==>
      run[m].w.workloads[wk].Desired() == 0 && run[m].w.workloads[wk].ready == 0
  {
    CoveredExactly(run, es, i, m, k, wk);
    WorkRunsInTheWindow(run, es, m);
  }

  /** The window: at every moment of an orderly run a task that is Starting or Running has all the workloads on its
      record down, and no job of a task that stops pods has been created before that. */
  lemma {:induction false} WorkRunsInTheWindow(run: seq<Sys>, es: seq<Event>, i: nat)
    requires IsRun(run, es) && Start(run[0]) && i < |run|
    requires forall n :: 0 <= n < |es| ==> Orderly(run[n], es[n])
    ensures TasksOk(run[i].w) && Apart(run[i].w) && AllDown(run[i])
    ensures forall j, k ::
      j in run[i].w.tasks && InWindow(run[i].w.tasks[j])
      && k in run[i].w.workloads && run[i].w.tasks[j].Holds(run[i].w.workloads[k].uid) ==>
        run[i].w.workloads[k].Desired() == 0 && run[i].w.workloads[k].ready == 0
    ensures i < |es| && es[i].Pass? && TaskPass(run[i].w, es[i].task, es[i].f).newJob ==>
      es[i].task in run[i].w.tasks && InWindow(run[i].w.tasks[es[i].task])
  {
    if i > 0 {
      WorkRunsInTheWindow(run, es, i - 1);
      EventKeepsTasksOk(run[i - 1], es[i - 1]);
      EventKeepsApart(run[i - 1], es[i - 1]);
      EventKeepsAllDown(run[i - 1], es[i - 1]);
    }
    if i < |es| && es[i].Pass? && es[i].task in run[i].w.tasks {
      PassSound(run[i].w, es[i].task, es[i].f);
    }
    forall j, k | j in run[i].w.tasks && k in run[i].w.workloads
      ensures Down(run[i], run[i].w.tasks[j], k)
    {
    }
  }
}
