/** Two tasks over one workload. The second to scale it down records the zero that the first has left, so that its count
    survives both exactly when the first task is the last to scale it up. */
module TaskOverlap {
  import opened Reconciling
  import opened Cluster
  import opened Workloads
  import opened TaskTable
  import opened TaskRuns
  import opened TaskAccounts
  import opened TaskConservation

  /** If the task has the workload on record, then with this count, and its scale-down is stored. */
  predicate Entry(s: Sys, m: Key, u: Uid, n: nat) {
    m in s.w.tasks && s.w.tasks[m].Holds(u) ==>
      s.w.tasks[m].record.value[u].replicas == n && !Unscaled(s.w.tasks[m])
  }

  /** The task has nothing to do with the workload: if it is on record, then that of a finished task, with another count
      than its user wants. */
  ghost predicate Indifferent(s: Sys, m: Key, u: Uid)
    requires u in s.intended
  {
    m in s.w.tasks && s.w.tasks[m].Holds(u) ==> s.w.tasks[m].Finished() && !Remembers(s, s.w.tasks[m], u)
  }

  predicate HeldByEither(s: Sys, j: Key, k: Key, u: Uid) {
    (j in s.w.tasks && s.w.tasks[j].Holds(u)) || (k in s.w.tasks && s.w.tasks[k].Holds(u))
  }

  /** Task `j` has the workload's intended count on record and task `k` has zero, as far as they have it on record
      still, and no other task matters. */
  ghost predicate Shares(s: Sys, j: Key, k: Key, wk: WKey, u: Uid) {
    && TasksOk(s.w) && j != k
    && wk in s.w.workloads && s.w.workloads[wk].uid == u
    && u in s.intended && s.intended[u] != 0 && u !in s.lost
    && Entry(s, j, u, s.intended[u]) && Entry(s, k, u, 0)
    && forall m :: m != j && m != k ==> Indifferent(s, m, u)
  }

  /** The pass of `k` scales down and stores it, and finds a workload at zero that `j` has scaled down; nobody else
      keeps its count. */
  ghost predicate Overlaps(s: Sys, e: Event, j: Key, k: Key, wk: WKey) {
    && e.Pass? && e.task == k && j != k && UniqueUids(s.w)
    && ScalesDown(s.w, k, e.f) && e.f.stepWrite
    && wk in Found(s.w, s.w.tasks[k].spec.pvc, e.f.brokenOwners)
    && (var u := s.w.workloads[wk].uid;
        && s.w.workloads[wk].Desired() == 0 && u in s.intended && s.intended[u] != 0 && u !in s.lost
        && j in s.w.tasks && Remembers(s, s.w.tasks[j], u) && !Unscaled(s.w.tasks[j])
        && forall m :: m != j && m != k ==> Indifferent(s, m, u))
  }

  /** The task leaves the store with the workload on record. */
  predicate LeavesWith(s: Sys, next: Sys, m: Key, u: Uid) {
    m in s.w.tasks && s.w.tasks[m].Holds(u) && m !in next.w.tasks
  }

  /** Nobody else interferes: the workload stays and users leave it alone, no task takes it on record any more,
      neither of the two takes its record along, and a scale-up gets to patch the workload. */
  ghost predicate Undisturbed(s: Sys, e: Event, j: Key, k: Key, wk: WKey, u: Uid)
    requires UniqueUids(s.w)
  {
    && !(e.WorkloadRemoved? && e.workload == wk)
    && !(e.UserScales? && e.workload == wk)
    && !LeavesWith(s, Apply(s, e), j, u) && !LeavesWith(s, Apply(s, e), k, u)
    && (e.Pass? && e.task in Apply(s, e).w.tasks && Apply(s, e).w.tasks[e.task].Holds(u) ==>
          e.task in s.w.tasks && s.w.tasks[e.task].Holds(u))
    && (e.Pass? && (e.task == j || e.task == k) && ScalesUp(s.w, e.task, e.f) && s.w.tasks[e.task].Holds(u) ==>
          wk in Restorable(s.w, s.w.tasks[e.task].spec.pvc.ns, s.w.tasks[e.task].record.value, e.f))
  }

  /** What the overlapping pass leaves on record for the workload: zero for `k`, and `j`'s entry as it was. */
  lemma OverlapIsShared(s: Sys, e: Event, j: Key, k: Key, wk: WKey)
    requires TasksOk(s.w) && Overlaps(s, e, j, k, wk)
    ensures Shares(Apply(s, e), j, k, wk, s.w.workloads[wk].uid)
  {
    var u := s.w.workloads[wk].uid;
    EventKeepsTasksOk(s, e);
    ScaleDownOutcome(s.w, k, e.f);
    ZeroEntry(s, k, TaskPass(s.w, k, e.f), Found(s.w, s.w.tasks[k].spec.pvc, e.f.brokenOwners), wk);
    forall m | m != k
      ensures m in Apply(s, e).w.tasks <==> m in s.w.tasks
      ensures m in s.w.tasks ==> Apply(s, e).w.tasks[m] == s.w.tasks[m]
      ensures m != j ==> Indifferent(Apply(s, e), m, u)
    {
      assert m != j ==> Indifferent(s, m, u);
    }
  }

  lemma ZeroEntry(s: Sys, k: Key, o: Outcome, found: set<WKey>, wk: WKey)
    requires UniqueUids(s.w) && k in s.w.tasks && wk in found && wk in s.w.workloads && s.w.workloads[wk].Desired() == 0
    requires o.task.Some? && o.task.value.record == Some(Originals(s.w, found)) && !Unscaled(o.task.value)
    ensures Entry(Enacted(s, k, o), k, s.w.workloads[wk].uid, 0)
  {
    OriginalsAre(s.w, found);
  }

  /** An own pass either keeps the entry or scales the workload up to it. */
  lemma OwnPassKeepsEntry(s: Sys, m: Key, f: Faults, wk: WKey, u: Uid, n: nat)
    requires TasksOk(s.w) && wk in s.w.workloads && s.w.workloads[wk].uid == u
    requires m in s.w.tasks && s.w.tasks[m].Holds(u) && Entry(s, m, u, n)
    requires m in Apply(s, Pass(m, f)).w.tasks
    requires ScalesUp(s.w, m, f) ==>
      wk in Restorable(s.w, s.w.tasks[m].spec.pvc.ns, s.w.tasks[m].record.value, f)
    ensures var next := Apply(s, Pass(m, f));
      && Entry(next, m, u, n)
      && m in next.w.tasks && (!next.w.tasks[m].Holds(u) ==> next.w.workloads[wk].Desired() == n)
  {
    var t := s.w.tasks[m];
    assert TaskOk(m, t);
    PassSound(s.w, m, f);
    if RestoresCounts(t, f) {
      ScaleUpSetsEntry(s, m, f, wk, u, n);
    } else {
      QuietPass(s.w, m, f);
      QuietKeepsEntry(s, m, TaskPass(s.w, m, f), u, n);
    }
  }

  lemma ScaleUpSetsEntry(s: Sys, m: Key, f: Faults, wk: WKey, u: Uid, n: nat)
    requires TasksOk(s.w) && wk in s.w.workloads && s.w.workloads[wk].uid == u
    requires m in s.w.tasks && s.w.tasks[m].Holds(u) && Entry(s, m, u, n)
    requires RestoresCounts(s.w.tasks[m], f)
    requires f.objectWrite ==>
      wk in Restorable(s.w, s.w.tasks[m].spec.pvc.ns, s.w.tasks[m].record.value, f)
    ensures var next := Apply(s, Pass(m, f));
      && Entry(next, m, u, n)
      && m in next.w.tasks && (!next.w.tasks[m].Holds(u) ==> next.w.workloads[wk].Desired() == n)
  {
    ScaleUpOutcome(s.w, m, f);
  }

  lemma QuietKeepsEntry(s: Sys, m: Key, o: Outcome, u: Uid, n: nat)
    requires m in s.w.tasks && s.w.tasks[m].Holds(u) && Entry(s, m, u, n) && LeavesRecord(s.w.tasks[m], o)
    requires Sound(s.w, m, s.w.tasks[m], o)
    ensures Entry(Enacted(s, m, o), m, u, n)
    ensures o.task.Some? ==> m in Enacted(s, m, o).w.tasks && Enacted(s, m, o).w.tasks[m].Holds(u)
  {
  }

  lemma OtherEventKeepsEntry(s: Sys, e: Event, m: Key, u: Uid, n: nat)
    requires TasksOk(s.w) && Possible(s, e) && !(e.Pass? && e.task == m) && Entry(s, m, u, n)
    ensures Entry(Apply(s, e), m, u, n)
    ensures m in Apply(s, e).w.tasks && Apply(s, e).w.tasks[m].Holds(u) ==> m in s.w.tasks && s.w.tasks[m].Holds(u)
    ensures m in s.w.tasks && s.w.tasks[m].Holds(u) && m in Apply(s, e).w.tasks ==> Apply(s, e).w.tasks[m].Holds(u)
  {
    if m in s.w.tasks {
      if Touches(e) && e.task == m {
        TouchIsSound(s.w, e);
      } else {
        OtherEventKeepsTask(s, e, m);
      }
    }
  }

  /** No event but a pass of the task itself puts the workload on a task's record. */
  lemma OnlyOwnPassRecords(s: Sys, e: Event, m: Key, u: Uid)
    requires TasksOk(s.w) && Possible(s, e) && m in Apply(s, e).w.tasks && Apply(s, e).w.tasks[m].Holds(u)
    ensures (e.Pass? && e.task == m) || (m in s.w.tasks && s.w.tasks[m].Holds(u))
  {
  }

  /** While one of the two has the workload on record, users leave it alone and it stays the workload it is. */
  lemma WorkloadStays(s: Sys, e: Event, m: Key, wk: WKey, u: Uid)
    requires TasksOk(s.w) && Possible(s, e) && m in s.w.tasks && s.w.tasks[m].Holds(u)
    requires wk in s.w.workloads && s.w.workloads[wk].uid == u && u in s.intended
    requires !(e.WorkloadRemoved? && e.workload == wk) && !(e.UserScales? && e.workload == wk)
    ensures var next := Apply(s, e);
      && wk in next.w.workloads && next.w.workloads[wk].uid == u
      && u in next.intended && next.intended[u] == s.intended[u]
  {
  }

  lemma EntryStays(s: Sys, e: Event, m: Key, wk: WKey, u: Uid, n: nat)
    requires TasksOk(s.w) && Possible(s, e) && Entry(s, m, u, n)
    requires wk in s.w.workloads && s.w.workloads[wk].uid == u && !LeavesWith(s, Apply(s, e), m, u)
    requires e.Pass? && e.task == m && m in Apply(s, e).w.tasks && Apply(s, e).w.tasks[m].Holds(u) ==>
      m in s.w.tasks && s.w.tasks[m].Holds(u)
    requires e.Pass? && e.task == m && ScalesUp(s.w, m, e.f) && s.w.tasks[m].Holds(u) ==>
      wk in Restorable(s.w, s.w.tasks[m].spec.pvc.ns, s.w.tasks[m].record.value, e.f)
    ensures Entry(Apply(s, e), m, u, n)
  {
    if e.Pass? && e.task == m {
      if m in s.w.tasks && s.w.tasks[m].Holds(u) {
        OwnPassKeepsEntry(s, m, e.f, wk, u, n);
      }
    } else {
      OtherEventKeepsEntry(s, e, m, u, n);
    }
  }

  lemma SharingStays(s: Sys, e: Event, j: Key, k: Key, wk: WKey, u: Uid)
    requires Shares(s, j, k, wk, u) && HeldByEither(s, j, k, u) && Possible(s, e) && Undisturbed(s, e, j, k, wk, u)
    ensures Shares(Apply(s, e), j, k, wk, u)
  {
    var next := Apply(s, e);
    EventKeepsTasksOk(s, e);
    WorkloadStays(s, e, if j in s.w.tasks && s.w.tasks[j].Holds(u) then j else k, wk, u);
    assert Undisturbed(s, e, j, k, wk, u);
    EntryStays(s, e, j, wk, u, s.intended[u]);
    EntryStays(s, e, k, wk, u, 0);
    forall m | m != j && m != k
      ensures Indifferent(next, m, u)
    {
      OthersStayIndifferent(s, e, m, u);
    }
    NotLostMeanwhile(s, e, j, k, u);
  }

  lemma OthersStayIndifferent(s: Sys, e: Event, m: Key, u: Uid)
    requires TasksOk(s.w) && Possible(s, e) && u in s.intended && Indifferent(s, m, u)
    requires u in Apply(s, e).intended && Apply(s, e).intended[u] == s.intended[u]
    requires e.Pass? && e.task == m && m in Apply(s, e).w.tasks && Apply(s, e).w.tasks[m].Holds(u) ==>
      m in s.w.tasks && s.w.tasks[m].Holds(u)
    ensures Indifferent(Apply(s, e), m, u)
  {
    if m in Apply(s, e).w.tasks && Apply(s, e).w.tasks[m].Holds(u) {
      OnlyOwnPassRecords(s, e, m, u);
      if e.Pass? && e.task == m {
        PassSound(s.w, m, e.f);
        QuietPass(s.w, m, e.f);
      } else if Touches(e) && e.task == m {
        TouchIsSound(s.w, e);
      } else {
        OtherEventKeepsTask(s, e, m);
      }
    }
  }

  lemma NotLostMeanwhile(s: Sys, e: Event, j: Key, k: Key, u: Uid)
    requires TasksOk(s.w) && Possible(s, e) && u in s.intended && u !in s.lost
    requires forall m :: m != j && m != k ==> Indifferent(s, m, u)
    requires !LeavesWith(s, Apply(s, e), j, u) && !LeavesWith(s, Apply(s, e), k, u)
    ensures u !in Apply(s, e).lost
  {
    OnlyFailedTasksLoseCounts(s, e, u);
    forall m | m in s.w.tasks && m != j && m != k
      ensures !LastKeeper(s, m, u)
    {
      IndifferentKeepsNothing(s, m, u);
    }
  }

  lemma IndifferentKeepsNothing(s: Sys, m: Key, u: Uid)
    requires u in s.intended && m in s.w.tasks && Indifferent(s, m, u)
    ensures !LastKeeper(s, m, u)
  {
  }

  /** Only a pass of its own takes the workload off a task's record. */
  lemma OnlyOwnPassLetsGo(s: Sys, e: Event, m: Key, u: Uid, n: nat)
    requires TasksOk(s.w) && Possible(s, e) && Entry(s, m, u, n) && m in s.w.tasks && s.w.tasks[m].Holds(u)
    requires !LeavesWith(s, Apply(s, e), m, u)
    requires !(m in Apply(s, e).w.tasks && Apply(s, e).w.tasks[m].Holds(u))
    ensures e.Pass? && e.task == m
  {
    if !(e.Pass? && e.task == m) {
      OtherEventKeepsEntry(s, e, m, u, n);
      assert false;
    }
  }

  /** A count that nobody remembers is kept if and only if the workload is at it. */
  lemma UnrecordedIsKeptExactly(s: Sys, wl: Workload)
    requires wl.uid in s.intended && wl.uid !in s.lost
    requires forall m :: m in s.w.tasks ==> !Remembers(s, s.w.tasks[m], wl.uid)
    ensures CountKept(s, wl) <==> wl.Desired() == s.intended[wl.uid]
  {
  }

  /** The event after which neither has the workload on record is the scale-up of the one that still had, and it sets
      that task's count. */
  lemma LastScaleUpDecides(s: Sys, e: Event, j: Key, k: Key, wk: WKey, u: Uid)
    requires Shares(s, j, k, wk, u) && HeldByEither(s, j, k, u) && Possible(s, e) && Undisturbed(s, e, j, k, wk, u)
    requires !HeldByEither(Apply(s, e), j, k, u)
    ensures var next := Apply(s, e);
      && e.Pass? && (e.task == j || e.task == k)
      && wk in next.w.workloads && next.w.workloads[wk].uid == u && u in next.intended
      && (CountKept(next, next.w.workloads[wk]) <==> e.task == j)
  {
    var next := Apply(s, e);
    var m := if j in s.w.tasks && s.w.tasks[j].Holds(u) then j else k;
    var n := if m == j then s.intended[u] else 0;
    OnlyOwnPassLetsGo(s, e, m, u, n);
    OwnPassKeepsEntry(s, m, e.f, wk, u, n);
    SharingStays(s, e, j, k, wk, u);
    forall i | i in next.w.tasks
      ensures !Remembers(next, next.w.tasks[i], u)
    {
      assert i != j && i != k ==> Indifferent(next, i, u);
    }
    UnrecordedIsKeptExactly(next, next.w.workloads[wk]);
  }

  /** Both tasks have scaled the workload up when neither has it on record any more. */
  lemma {:induction false} SharingLasts(run: seq<Sys>, es: seq<Event>, i: nat, j: Key, k: Key, wk: WKey, u: Uid)
    requires IsRun(run, es) && 0 < i < |run| && Shares(run[1], j, k, wk, u)
    requires forall n :: 1 <= n < i ==> HeldByEither(run[n], j, k, u) && Undisturbed(run[n], es[n], j, k, wk, u)
    ensures Shares(run[i], j, k, wk, u)
  {
    if i > 1 {
      SharingLasts(run, es, i - 1, j, k, wk, u);
      SharingStays(run[i - 1], es[i - 1], j, k, wk, u);
    }
  }

  /** What an overlap costs. A run starts with a scale-down of `k` that finds a workload which `j` has scaled down
      before, and goes on in any way that leaves the two to themselves. When both have scaled the workload up, its
      count is kept if and only if `j` was the last. */
  lemma OverlapKeepsCountExactly(run: seq<Sys>, es: seq<Event>, i: nat, j: Key, k: Key, wk: WKey, u: Uid)
    requires IsRun(run, es) && 0 < i < |es| && TasksOk(run[0].w)
    requires Overlaps(run[0], es[0], j, k, wk) && run[0].w.workloads[wk].uid == u
    requires forall n :: 1 <= n <= i ==> HeldByEither(run[n], j, k, u) && Undisturbed(run[n], es[n], j, k, wk, u)
    requires !HeldByEither(run[i + 1], j, k, u)
    ensures es[i].Pass? && (es[i].task == j || es[i].task == k)
    ensures wk in run[i + 1].w.workloads && run[i + 1].w.workloads[wk].uid == u && u in run[i + 1].intended
    ensures CountKept(run[i + 1], run[i + 1].w.workloads[wk]) <==> es[i].task == j
  {
    OverlapIsShared(run[0], es[0], j, k, wk);
    SharingLasts(run, es, i, j, k, wk, u);
    LastScaleUpDecides(run[i], es[i], j, k, wk, u);
  }
}
