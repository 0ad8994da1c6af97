/** Replica counts are conserved while tasks at work do not interfere with one another: over every such run each
    workload is at the count its user chose, or it is at zero and that count is on the record of a task at work or of
    a failed one, or left the store with the latter. The records of failed tasks bind nobody. */
module TaskConservation {
  import opened Reconciling
  import opened Cluster
  import opened Workloads
  import opened TaskTable
  import opened TaskRuns
  import opened TaskAccounts

  /** A task that has not finished has the workload on record. */
  predicate HoldsAtWork(t: Task, u: Uid) {
    t.Holds(u) && !t.Finished()
  }

  /** The count is on the record of a failed task, or lost already: nobody is going to restore it. */
  ghost predicate Shelved(s: Sys, u: Uid)
    requires u in s.intended
  {
    u in s.lost || exists j :: j in s.w.tasks && s.w.tasks[j].Finished() && Remembers(s, s.w.tasks[j], u)
  }

  /** An entry on the record of a task at work is right, or it is a zero, like the workload's count, and the right one
      is shelved. Until the task has stored that it scaled down, the workload has the count of the entry. */
  ghost predicate EntryOk(s: Sys, t: Task, wk: WKey) {
    wk in s.w.workloads && HoldsAtWork(t, s.w.workloads[wk].uid) ==>
      var wl := s.w.workloads[wk];
      var count := t.record.value[wl.uid].replicas;
      && wl.uid in s.intended
      && (count == s.intended[wl.uid] || (count == 0 && wl.Desired() == 0 && Shelved(s, wl.uid)))
      && (Unscaled(t) ==> wl.Desired() == count)
  }

  /** No other task at work has the workload on record. */
  ghost predicate FreeAtWork(w: World, k: Key, u: Uid) {
    forall j :: j in w.tasks && j != k ==> !HoldsAtWork(w.tasks[j], u)
  }

  /** Tasks at work have no workload in common on record. */
  ghost predicate Apart(w: World) {
    forall j, u :: j in w.tasks && HoldsAtWork(w.tasks[j], u) ==> FreeAtWork(w, j, u)
  }

  ghost predicate Inv(s: Sys) {
    && TasksOk(s.w)
    && Conserved(s)
    && (forall j, wk :: j in s.w.tasks && wk in s.w.workloads ==> EntryOk(s, s.w.tasks[j], wk))
    && Apart(s.w)
  }

  /** What a task at work has on record is left to it: users do not scale it, and no other task records it. */
  ghost predicate Considerate(s: Sys, e: Event) {
    && (e.UserScales? && e.workload in s.w.workloads ==>
          forall j :: j in s.w.tasks ==> !HoldsAtWork(s.w.tasks[j], s.w.workloads[e.workload].uid))
    && (e.Pass? && ScalesDown(s.w, e.task, e.f) ==> Exclusive(s, e.task, e.f))
  }

  /** What conservation needs of the environment: besides, each scale-down is stored, and no scale-up drops from the
      record what it could not restore. */
  ghost predicate Careful(s: Sys, e: Event) {
    && Considerate(s, e)
    && (e.Pass? && ScalesDown(s.w, e.task, e.f) ==> ScaleDownStored(s.w, e.task, e.f))
    && (e.Pass? && ScalesUp(s.w, e.task, e.f) ==> NoneForgotten(s, e.task, e.f))
  }

  /** No other task at work has a record of a workload this pass is about to record. */
  ghost predicate Exclusive(s: Sys, k: Key, f: Faults)
    requires k in s.w.tasks
  {
    forall wk :: wk in Found(s.w, s.w.tasks[k].spec.pvc, f.brokenOwners) ==> FreeAtWork(s.w, k, s.w.workloads[wk].uid)
  }

  /** The pass stores that it scaled down, or it changed no count. */
  ghost predicate ScaleDownStored(w: World, k: Key, f: Faults)
    requires k in w.tasks
  {
    f.stepWrite || forall wk :: wk in Found(w, w.tasks[k].spec.pvc, f.brokenOwners) - f.refused ==>
      w.workloads[wk].Desired() == 0
  }

  /** A recorded workload takes its patch, or may be forgotten. */
  ghost predicate NoneForgotten(s: Sys, k: Key, f: Faults)
    requires k in s.w.tasks && s.w.tasks[k].record.Some?
  {
    forall wk :: wk in s.w.workloads && s.w.tasks[k].Holds(s.w.workloads[wk].uid) ==>
      || wk in Restorable(s.w, s.w.tasks[k].spec.pvc.ns, s.w.tasks[k].record.value, f)
      || Forgettable(s, k, wk)
  }

  /** A workload that no other task at work has on record: at its count, or that is shelved. */
  lemma FreeIsRightOrShelved(s: Sys, k: Key, wk: WKey)
    requires Inv(s) && k in s.w.tasks && Unscaled(s.w.tasks[k]) && wk in s.w.workloads
    requires FreeAtWork(s.w, k, s.w.workloads[wk].uid)
    ensures var wl := s.w.workloads[wk];
      wl.uid in s.intended && (wl.Desired() == s.intended[wl.uid] || (wl.Desired() == 0 && Shelved(s, wl.uid)))
  {
    assert CountKept(s, s.w.workloads[wk]) && EntryOk(s, s.w.tasks[k], wk);
  }

  lemma ExclusiveScaleDownAccounts(s: Sys, k: Key, f: Faults)
    requires Inv(s) && ScalesDown(s.w, k, f) && Exclusive(s, k, f)
    ensures ScaleDownAccounts(s, k, f)
  {
    var t := s.w.tasks[k];
    forall wk | wk in s.w.workloads
      && (wk in Found(s.w, t.spec.pvc, f.brokenOwners) || t.Holds(s.w.workloads[wk].uid))
      ensures Forgettable(s, k, wk)
    {
      assert HoldsAtWork(t, s.w.workloads[wk].uid) || wk in Found(s.w, t.spec.pvc, f.brokenOwners);
      FreeIsRightOrShelved(s, k, wk);
    }
  }

  lemma CarefulPassAccounts(s: Sys, k: Key, f: Faults)
    requires Inv(s) && k in s.w.tasks && Careful(s, Pass(k, f))
    ensures Accounts(s, Pass(k, f))
  {
    var t := s.w.tasks[k];
    if ScalesDown(s.w, k, f) {
      ExclusiveScaleDownAccounts(s, k, f);
    }
    if RestoresCounts(t, f) {
      forall wk | wk in s.w.workloads && t.Holds(s.w.workloads[wk].uid)
        ensures RightOrShelved(s, k, s.w.workloads[wk].uid)
      {
        assert EntryOk(s, t, wk);
      }
    }
  }

  /** No task at work remembers the count. */
  ghost predicate NoneAtWorkRemembers(s: Sys, u: Uid)
    requires u in s.intended
  {
    forall j :: j in s.w.tasks && Remembers(s, s.w.tasks[j], u) ==> s.w.tasks[j].Finished()
  }

  /** An effect that leaves a finished task's status and record alone, or removes it, takes no count off the shelf
      that the workload is away from and that no task at work remembers. */
  lemma ShelvedStays(s: Sys, k: Key, o: Outcome, next: Sys, u: Uid)
    requires k in s.w.tasks && next == Enacted(s, k, o) && u in s.intended && Shelved(s, u)
    requires s.w.tasks[k].Finished() ==>
      if o.task.Some? then o.task.value.record == s.w.tasks[k].record && o.task.value.Finished()
      else Away(s, u) && NoneAtWorkRemembers(s, u)
    ensures Shelved(next, u)
  {
    if u !in s.lost {
      var j :| j in s.w.tasks && s.w.tasks[j].Finished() && Remembers(s, s.w.tasks[j], u);
      if j in next.w.tasks {
        assert Remembers(next, next.w.tasks[j], u);
      } else {
        RemovedIsShelved(s, k, o, next, u);
      }
    }
  }

  lemma RemovedIsShelved(s: Sys, k: Key, o: Outcome, next: Sys, u: Uid)
    requires k in s.w.tasks && next == Enacted(s, k, o) && o.task == None && u in s.intended
    requires Remembers(s, s.w.tasks[k], u) && Away(s, u) && NoneAtWorkRemembers(s, u)
    ensures Shelved(next, u)
  {
    if i :| i in s.w.tasks && i != k && Remembers(s, s.w.tasks[i], u) {
      assert Remembers(next, next.w.tasks[i], u);
    } else {
      assert LastKeeper(s, k, u);
    }
  }

  lemma OtherEntryStays(s: Sys, k: Key, o: Outcome, next: Sys, j: Key, wk: WKey)
    requires k in s.w.tasks && next == Enacted(s, k, o)
    requires s.w.tasks[k].Finished() && o.task.Some? ==>
      o.task.value.record == s.w.tasks[k].record && o.task.value.Finished()
    requires j in s.w.tasks && wk in s.w.workloads && EntryOk(s, s.w.tasks[j], wk)
    requires HoldsAtWork(s.w.tasks[j], s.w.workloads[wk].uid) ==>
      wk !in o.scaled && FreeAtWork(s.w, j, s.w.workloads[wk].uid)
    ensures EntryOk(next, s.w.tasks[j], wk)
  {
    var t, u := s.w.tasks[j], s.w.workloads[wk].uid;
    if HoldsAtWork(t, u) && t.record.value[u].replicas != s.intended[u] {
      assert Away(s, u) && NoneAtWorkRemembers(s, u);
      ShelvedStays(s, k, o, next, u);
    }
  }

  /** What the effect of a pass is right about. */
  ghost predicate RightAbout(s: Sys, k: Key, o: Outcome, next: Sys)
    requires k in s.w.tasks
  {
    && (s.w.tasks[k].Finished() && o.task.Some? ==>
          o.task.value.record == s.w.tasks[k].record && o.task.value.Finished())
    && (o.task.Some? ==> forall wk :: wk in s.w.workloads ==> EntryOk(next, o.task.value, wk))
    && FreeOfOthers(s.w, k, o)
  }

  /** Nothing the effect scales or leaves on record is on the record of another task at work. */
  ghost predicate FreeOfOthers(w: World, k: Key, o: Outcome) {
    && (forall wk :: wk in o.scaled ==> wk in w.workloads && FreeAtWork(w, k, w.workloads[wk].uid))
    && (o.task.Some? ==> forall u :: HoldsAtWork(o.task.value, u) ==> FreeAtWork(w, k, u))
  }

  lemma RecordedAreFreeOfOthers(w: World, k: Key, f: Faults, found: set<WKey>, o: Outcome)
    requires UniqueUids(w)
    requires forall wk :: wk in found ==> wk in w.workloads && FreeAtWork(w, k, w.workloads[wk].uid)
    requires o.scaled == ToZero(found, f) && o.task.Some? && o.task.value.record == Some(Originals(w, found))
    ensures FreeOfOthers(w, k, o)
  {
    OriginalsAre(w, found);
  }

  lemma OwnAreFreeOfOthers(w: World, k: Key, o: Outcome)
    requires k in w.tasks && forall u :: HoldsAtWork(w.tasks[k], u) ==> FreeAtWork(w, k, u)
    requires forall wk :: wk in o.scaled ==> wk in w.workloads && HoldsAtWork(w.tasks[k], w.workloads[wk].uid)
    requires o.task.Some? ==> forall u :: HoldsAtWork(o.task.value, u) ==> HoldsAtWork(w.tasks[k], u)
    ensures FreeOfOthers(w, k, o)
  {
  }

  lemma EnactedKeepsApart(s: Sys, k: Key, o: Outcome, next: Sys)
    requires Apart(s.w) && k in s.w.tasks && next == Enacted(s, k, o)
    requires o.task.Some? ==> forall u :: HoldsAtWork(o.task.value, u) ==> FreeAtWork(s.w, k, u)
    ensures Apart(next.w)
  {
    forall j, u | j in next.w.tasks && HoldsAtWork(next.w.tasks[j], u)
      ensures FreeAtWork(next.w, j, u)
    {
      if j == k {
        assert FreeAtWork(s.w, k, u);
      } else {
        assert FreeAtWork(s.w, j, u);
        assert k in next.w.tasks && HoldsAtWork(o.task.value, u) ==> FreeAtWork(s.w, k, u);
      }
    }
  }

  lemma EnactedKeepsInv(s: Sys, k: Key, o: Outcome, next: Sys)
    requires Inv(s) && k in s.w.tasks && next == Enacted(s, k, o)
    requires RightAbout(s, k, o, next) && TasksOk(next.w) && Conserved(next)
    ensures Inv(next)
  {
    forall j, wk | j in next.w.tasks && wk in next.w.workloads
      ensures EntryOk(next, next.w.tasks[j], wk)
    {
      if j != k {
        OtherEntryStays(s, k, o, next, j, wk);
      }
    }
    EnactedKeepsApart(s, k, o, next);
  }

  lemma RecordingIsRight(s: Sys, k: Key, f: Faults, found: set<WKey>, o: Outcome, next: Sys)
    requires Inv(s) && k in s.w.tasks && Unscaled(s.w.tasks[k]) && next == Enacted(s, k, o)
    requires forall wk :: wk in found ==> wk in s.w.workloads && FreeAtWork(s.w, k, s.w.workloads[wk].uid)
    requires o.scaled == ToZero(found, f) && o.task.Some? && o.task.value.record == Some(Originals(s.w, found))
    requires Unscaled(o.task.value) ==> forall wk :: wk in found - f.refused ==> s.w.workloads[wk].Desired() == 0
    ensures RightAbout(s, k, o, next)
  {
    RecordedAreFreeOfOthers(s.w, k, f, found, o);
    forall wk | wk in s.w.workloads
      ensures EntryOk(next, o.task.value, wk)
    {
      OriginalsAre(s.w, found);
      if wk in found {
        RecordedEntryIsRight(s, k, o, next, wk);
      }
    }
  }

  lemma RecordedEntryIsRight(s: Sys, k: Key, o: Outcome, next: Sys, wk: WKey)
    requires Inv(s) && k in s.w.tasks && Unscaled(s.w.tasks[k]) && next == Enacted(s, k, o)
    requires wk in s.w.workloads && FreeAtWork(s.w, k, s.w.workloads[wk].uid)
    requires var wl := s.w.workloads[wk];
      && o.task.Some? && o.task.value.Holds(wl.uid)
      && o.task.value.record.value[wl.uid].replicas == wl.Desired()
      && (wk in o.scaled ==> o.scaled[wk] == 0 && (Unscaled(o.task.value) ==> wl.Desired() == 0))
    ensures EntryOk(next, o.task.value, wk)
  {
    var u := s.w.workloads[wk].uid;
    FreeIsRightOrShelved(s, k, wk);
    if Shelved(s, u) {
      ShelvedStays(s, k, o, next, u);
    }
  }

  lemma RestoringIsRight(s: Sys, k: Key, f: Faults, o: Outcome, next: Sys)
    requires Inv(s) && k in s.w.tasks && !s.w.tasks[k].Finished() && s.w.tasks[k].record.Some?
    requires next == Enacted(s, k, o)
    requires o.scaled == RestoredCounts(s.w, s.w.tasks[k].spec.pvc.ns, s.w.tasks[k].record.value, f)
    requires o.task.Some? && (o.task.value.record == None || o.task.value.record == s.w.tasks[k].record)
    requires !Unscaled(o.task.value)
    ensures RightAbout(s, k, o, next)
  {
    OwnAreFreeOfOthers(s.w, k, o);
    forall wk | wk in s.w.workloads
      ensures EntryOk(next, o.task.value, wk)
    {
      OwnEntryStays(s, k, o, next, wk);
    }
  }

  lemma OwnEntryStays(s: Sys, k: Key, o: Outcome, next: Sys, wk: WKey)
    requires k in s.w.tasks && wk in s.w.workloads && next == Enacted(s, k, o) && o.task.Some?
    requires EntryOk(s, s.w.tasks[k], wk)
    requires o.task.value.record == None || o.task.value.record == s.w.tasks[k].record
    requires s.w.tasks[k].Finished() ==> o.task.value.Finished()
    requires Unscaled(o.task.value) ==> o.task.value.record == None || (Unscaled(s.w.tasks[k]) && wk !in o.scaled)
    requires wk in o.scaled && s.w.tasks[k].Holds(s.w.workloads[wk].uid) ==>
      o.scaled[wk] == s.w.tasks[k].record.value[s.w.workloads[wk].uid].replicas
    ensures EntryOk(next, o.task.value, wk)
  {
    var u := s.w.workloads[wk].uid;
    if !s.w.tasks[k].Finished() && u in s.intended && Shelved(s, u) {
      ShelvedStays(s, k, o, next, u);
    }
  }

  lemma QuietIsRight(s: Sys, k: Key, o: Outcome, next: Sys)
    requires Inv(s) && k in s.w.tasks && Sound(s.w, k, s.w.tasks[k], o) && LeavesRecord(s.w.tasks[k], o)
    requires next == Enacted(s, k, o)
    ensures RightAbout(s, k, o, next)
  {
    OwnAreFreeOfOthers(s.w, k, o);
    if o.task.Some? {
      forall wk | wk in s.w.workloads
        ensures EntryOk(next, o.task.value, wk)
      {
        OwnEntryStays(s, k, o, next, wk);
      }
    }
  }

  lemma PassKeepsInv(s: Sys, k: Key, f: Faults)
    requires Inv(s) && k in s.w.tasks && Careful(s, Pass(k, f))
    ensures Inv(Apply(s, Pass(k, f)))
  {
    var o, next := TaskPass(s.w, k, f), Apply(s, Pass(k, f));
    CarefulPassAccounts(s, k, f);
    ConservesExactly(s, Pass(k, f));
    EventKeepsTasksOk(s, Pass(k, f));
    if ScalesDown(s.w, k, f) {
      ScaleDownOutcome(s.w, k, f);
      RecordingIsRight(s, k, f, Found(s.w, s.w.tasks[k].spec.pvc, f.brokenOwners), o, next);
    } else if RestoresCounts(s.w.tasks[k], f) {
      ScaleUpOutcome(s.w, k, f);
      RestoringIsRight(s, k, f, o, next);
    } else {
      PassSound(s.w, k, f);
      QuietPass(s.w, k, f);
      QuietIsRight(s, k, o, next);
    }
    EnactedKeepsInv(s, k, o, next);
  }

  lemma TouchKeepsInv(s: Sys, e: Event)
    requires Inv(s) && Possible(s, e) && Touches(e) && e.task in s.w.tasks
    ensures Inv(Apply(s, e))
  {
    var o := Outcome(Touched(s.w.tasks[e.task], e), map[], false, Done);
    TouchIsSound(s.w, e);
    QuietIsRight(s, e.task, o, Apply(s, e));
    ConservesExactly(s, e);
    EventKeepsTasksOk(s, e);
    EnactedKeepsInv(s, e.task, o, Apply(s, e));
  }

  /** Counts change hands only where no task at work holds them. */
  lemma OutsideEventKeepsShelved(s: Sys, e: Event, u: Uid)
    requires UniqueUids(s.w) && Possible(s, e) && !e.Pass? && !Touches(e)
    requires u in s.intended && Shelved(s, u)
    requires (e.UserScales? ==> e.workload in s.w.workloads && s.w.workloads[e.workload].uid != u)
    requires (e.WorkloadAdded? ==> e.added.uid != u)
    ensures var next := Apply(s, e); u in next.intended && next.intended[u] == s.intended[u] && Shelved(next, u)
  {
    var next := Apply(s, e);
    if u !in s.lost {
      var j :| j in s.w.tasks && s.w.tasks[j].Finished() && Remembers(s, s.w.tasks[j], u);
      assert Remembers(next, next.w.tasks[j], u);
    }
  }

  lemma HeldWorkloadIsLeftAlone(s: Sys, e: Event, j: Key, wk: WKey)
    requires UniqueUids(s.w) && Possible(s, e) && Considerate(s, e) && !e.Pass? && !Touches(e)
    requires var next := Apply(s, e);
      j in next.w.tasks && wk in next.w.workloads && HoldsAtWork(next.w.tasks[j], next.w.workloads[wk].uid)
    ensures var next := Apply(s, e);
      && j in s.w.tasks && next.w.tasks[j] == s.w.tasks[j]
      && wk in s.w.workloads && next.w.workloads[wk] == s.w.workloads[wk].(ready := next.w.workloads[wk].ready)
      && (e.UserScales? ==> s.w.workloads[e.workload].uid != s.w.workloads[wk].uid)
      && (e.WorkloadAdded? ==> e.added.uid != s.w.workloads[wk].uid)
  {
  }

  lemma OutsideEventKeepsEntry(s: Sys, e: Event, j: Key, wk: WKey)
    requires Inv(s) && Possible(s, e) && Careful(s, e) && !e.Pass? && !Touches(e)
    requires j in Apply(s, e).w.tasks && wk in Apply(s, e).w.workloads
    ensures EntryOk(Apply(s, e), Apply(s, e).w.tasks[j], wk)
  {
    var next := Apply(s, e);
    var u := next.w.workloads[wk].uid;
    if HoldsAtWork(next.w.tasks[j], u) {
      HeldWorkloadIsLeftAlone(s, e, j, wk);
      assert EntryOk(s, s.w.tasks[j], wk);
      if Shelved(s, u) {
        OutsideEventKeepsShelved(s, e, u);
      }
    }
  }

  lemma OutsideEventKeepsApart(s: Sys, e: Event)
    requires Apart(s.w) && UniqueUids(s.w) && Possible(s, e) && !e.Pass? && !Touches(e)
    ensures Apart(Apply(s, e).w)
  {
    var next := Apply(s, e);
    assert forall j, u :: j in next.w.tasks && HoldsAtWork(next.w.tasks[j], u) ==>
      j in s.w.tasks && next.w.tasks[j] == s.w.tasks[j];
  }

  lemma OutsideEventKeepsInv(s: Sys, e: Event)
    requires Inv(s) && Possible(s, e) && Careful(s, e) && !e.Pass? && !Touches(e)
    ensures Inv(Apply(s, e))
  {
    var next := Apply(s, e);
    ConservesExactly(s, e);
    EventKeepsTasksOk(s, e);
    forall j, wk | j in next.w.tasks && wk in next.w.workloads
      ensures EntryOk(next, next.w.tasks[j], wk)
    {
      OutsideEventKeepsEntry(s, e, j, wk);
    }
    OutsideEventKeepsApart(s, e);
  }

  lemma EventKeepsInv(s: Sys, e: Event)
    requires Inv(s) && Possible(s, e) && Careful(s, e)
    ensures Inv(Apply(s, e))
  {
    if e.Pass? && e.task in s.w.tasks {
      PassKeepsInv(s, e.task, e.f);
    } else if e.Pass? {
      MissingTaskPass(s, e.task, e.f);
    } else if Touches(e) {
      if e.task in s.w.tasks {
        TouchKeepsInv(s, e);
      }
    } else {
      OutsideEventKeepsInv(s, e);
    }
  }

  lemma {:induction false} RunKeepsInv(run: seq<Sys>, es: seq<Event>, i: nat)
    requires IsRun(run, es) && Inv(run[0]) && i < |run|
    requires forall n :: 0 <= n < |es| ==> Careful(run[n], es[n])
    ensures Inv(run[i])
  {
    if i > 0 {
      RunKeepsInv(run, es, i - 1);
      EventKeepsInv(run[i - 1], es[i - 1]);
    }
  }

  /** To keep tasks at work apart it is enough that what they hold is left to them, whatever fails. */
  lemma PassKeepsApart(s: Sys, k: Key, f: Faults)
    requires TasksOk(s.w) && Apart(s.w) && Considerate(s, Pass(k, f)) && k in s.w.tasks
    ensures Apart(Apply(s, Pass(k, f)).w)
  {
    var o := TaskPass(s.w, k, f);
    PassSound(s.w, k, f);
    if ScalesDown(s.w, k, f) {
      ScaleDownOutcome(s.w, k, f);
      RecordedAreFreeOfOthers(s.w, k, f, Found(s.w, s.w.tasks[k].spec.pvc, f.brokenOwners), o);
    } else if RestoresCounts(s.w.tasks[k], f) {
      ScaleUpOutcome(s.w, k, f);
      NothingNewHeld(s, k, o);
    } else {
      QuietPass(s.w, k, f);
      NothingNewHeld(s, k, o);
    }
    EnactedKeepsApart(s, k, o, Apply(s, Pass(k, f)));
  }

  lemma NothingNewHeld(s: Sys, k: Key, o: Outcome)
    requires Apart(s.w) && k in s.w.tasks && Sound(s.w, k, s.w.tasks[k], o)
    requires o.task.Some? ==> o.task.value.record == None || o.task.value.record == s.w.tasks[k].record
    ensures o.task.Some? ==> forall u :: HoldsAtWork(o.task.value, u) ==> FreeAtWork(s.w, k, u)
  {
    assert o.task.Some? ==> forall u :: HoldsAtWork(o.task.value, u) ==> HoldsAtWork(s.w.tasks[k], u);
  }

  lemma EventKeepsApart(s: Sys, e: Event)
    requires TasksOk(s.w) && Apart(s.w) && Possible(s, e) && Considerate(s, e)
    ensures Apart(Apply(s, e).w)
  {
    if e.Pass? && e.task in s.w.tasks {
      PassKeepsApart(s, e.task, e.f);
    } else if e.Pass? {
      MissingTaskPass(s, e.task, e.f);
    } else if Touches(e) {
      if e.task in s.w.tasks {
        var o := Outcome(Touched(s.w.tasks[e.task], e), map[], false, Done);
        TouchIsSound(s.w, e);
        NothingNewHeld(s, e.task, o);
        EnactedKeepsApart(s, e.task, o, Apply(s, e));
      }
    } else {
      OutsideEventKeepsApart(s, e);
    }
  }

  /* ---- counts that are lost ---- */

  /** A count is lost exactly with the removal of a Failed task that was the last to remember it. */
  lemma OnlyFailedTasksLoseCounts(s: Sys, e: Event, u: Uid)
    requires TasksOk(s.w) && Possible(s, e) && u !in s.lost
    ensures u in Apply(s, e).lost <==>
      exists k ::
        k in s.w.tasks && k !in Apply(s, e).w.tasks && s.w.tasks[k].status.state == Failed && LastKeeper(s, k, u)
  {
    var next := Apply(s, e);
    if (e.Pass? || Touches(e)) && e.task in s.w.tasks {
      RemovedHasFailed(s, e, u);
    }
  }

  lemma RemovedHasFailed(s: Sys, e: Event, u: Uid)
    requires TasksOk(s.w) && Possible(s, e) && (e.Pass? || Touches(e)) && e.task in s.w.tasks
    ensures e.task !in Apply(s, e).w.tasks && s.w.tasks[e.task].Holds(u) ==> s.w.tasks[e.task].status.state == Failed
  {
    assert TaskOk(e.task, s.w.tasks[e.task]);
    if e.Pass? {
      PassSound(s.w, e.task, e.f);
    } else {
      TouchIsSound(s.w, e);
    }
  }

  /** A Failed task leaves the store between the two states, with this count of the workload on record. */
  ghost predicate TakesAlong(s: Sys, next: Sys, u: Uid, n: nat) {
    exists k ::
      && k in s.w.tasks && k !in next.w.tasks && s.w.tasks[k].status.state == Failed
      && s.w.tasks[k].Holds(u) && s.w.tasks[k].record.value[u].replicas == n
  }

  /** While a count is lost its user has not chosen another. */
  lemma LostStaysIntended(s: Sys, e: Event, u: Uid)
    requires TasksOk(s.w) && Possible(s, e) && u in s.lost && u in s.intended && u in Apply(s, e).lost
    ensures u in Apply(s, e).intended && Apply(s, e).intended[u] == s.intended[u]
  {
  }

  lemma NewlyLost(s: Sys, e: Event, u: Uid)
    requires TasksOk(s.w) && Possible(s, e) && u !in s.lost && u in Apply(s, e).lost
    ensures u in s.intended && Apply(s, e).intended == s.intended && TakesAlong(s, Apply(s, e), u, s.intended[u])
  {
    OnlyFailedTasksLoseCounts(s, e, u);
    var k :| k in s.w.tasks && k !in Apply(s, e).w.tasks && s.w.tasks[k].status.state == Failed && LastKeeper(s, k, u);
  }

  /** What is lost is a count its user still wants, which a Failed task had on record when it left the store. */
  lemma {:induction false} LostLeftTheStore(run: seq<Sys>, es: seq<Event>, i: nat, u: Uid)
    requires IsRun(run, es) && Start(run[0]) && i < |run| && u in run[i].lost
    ensures u in run[i].intended
    ensures exists n :: 0 <= n < i && TakesAlong(run[n], run[n + 1], u, run[i].intended[u])
  {
    if i > 0 {
      RunKeepsTasksOk(run, es, i - 1);
      if u in run[i - 1].lost {
        LostLeftTheStore(run, es, i - 1, u);
        LostStaysIntended(run[i - 1], es[i - 1], u);
      } else {
        NewlyLost(run[i - 1], es[i - 1], u);
        assert TakesAlong(run[i - 1], run[i - 1 + 1], u, run[i].intended[u]);
      }
    }
  }

  /* ---- conservation over runs ---- */


  /** The task remembers the workload's count and is at work, or has failed. */
  ghost predicate Owes(s: Sys, t: Task, u: Uid)
    requires u in s.intended
  {
    Remembers(s, t, u) && t.status.initialized && t.status.state != Completed
  }

  /** Conservation over every run that is careful of tasks at work: a workload away from its intended count is at
      zero, and that count is in the record of a task that is at work or has failed, or left the store with such a
      record. Completed tasks owe nothing, and what failed tasks have on record others may scale and record again. */
  lemma ReplicaCountsAreConserved(run: seq<Sys>, es: seq<Event>, i: nat, wk: WKey)
    requires IsRun(run, es) && Start(run[0]) && i < |run|
    requires forall n :: 0 <= n < |es| ==> Careful(run[n], es[n])
    requires wk in run[i].w.workloads
    ensures var s := run[i]; var wl := s.w.workloads[wk];
      && wl.uid in s.intended
      && (wl.Desired() == s.intended[wl.uid]
          || (wl.Desired() == 0 && exists n :: 0 <= n < i && TakesAlong(run[n], run[n + 1], wl.uid, s.intended[wl.uid]))
          || (wl.Desired() == 0 && exists j :: j in s.w.tasks && Owes(s, s.w.tasks[j], wl.uid)))
  {
    assert Inv(run[0]);
    RunKeepsInv(run, es, i);
    var s, wl := run[i], run[i].w.workloads[wk];
    assert CountKept(s, wl);
    if wl.Desired() != s.intended[wl.uid] && wl.uid in s.lost {
      LostLeftTheStore(run, es, i, wl.uid);
    } else if wl.Desired() != s.intended[wl.uid] {
      var j :| j in s.w.tasks && Remembers(s, s.w.tasks[j], wl.uid);
      assert TaskOk(j, s.w.tasks[j]);
      assert Owes(s, s.w.tasks[j], wl.uid);
    }
  }

  /** A pass changes the desired count only of workloads its own task has on record, before it or after it. */
  lemma OnlyTheHolderScales(w: World, k: Key, f: Faults, wk: WKey)
    requires UniqueUids(w) && k in w.tasks && TaskOk(k, w.tasks[k]) && wk in w.workloads
    ensures var o := TaskPass(w, k, f);
      Enact(w, k, o).workloads[wk].Desired() != w.workloads[wk].Desired() ==>
        w.tasks[k].Holds(w.workloads[wk].uid) || (o.task.Some? && o.task.value.Holds(w.workloads[wk].uid))
  {
    PassSound(w, k, f);
  }

  /* ---- what the hypotheses are worth ---- */

  /** The scale-up pass that drops the record conserves the counts exactly when no recorded workload misses its patch
      that may not be forgotten. */
  lemma ScaleUpConservesExactly(s: Sys, k: Key, f: Faults)
    requires Inv(s) && ScalesUp(s.w, k, f)
    ensures Conserved(Apply(s, Pass(k, f))) <==> NoneForgotten(s, k, f)
  {
    var t := s.w.tasks[k];
    ConservesExactly(s, Pass(k, f));
    forall wk | wk in s.w.workloads && t.Holds(s.w.workloads[wk].uid)
      ensures RightOrShelved(s, k, s.w.workloads[wk].uid)
    {
      assert EntryOk(s, t, wk);
    }
  }

  /** The pass stores that it scaled down, or every count it changed is kept by others. */
  ghost predicate StoredOrKept(s: Sys, k: Key, f: Faults)
    requires k in s.w.tasks
  {
    f.stepWrite || forall wk :: wk in Found(s.w, s.w.tasks[k].spec.pvc, f.brokenOwners) - f.refused ==>
      s.w.workloads[wk].Desired() == 0 || OthersKeep(s, k, wk)
  }

  ghost predicate OthersKeep(s: Sys, k: Key, wk: WKey)
    requires wk in s.w.workloads
  {
    s.w.workloads[wk].uid in s.intended && KeptByOthers(s, k, s.w.workloads[wk].uid)
  }

  /** The same answers, but every write is accepted. */
  function Retry(f: Faults): Faults {
    NO_FAULTS.(brokenOwners := f.brokenOwners)
  }

  /** What a scale-down pass leaves that is not stored: the task as unscaled as before, with the record, and the
      workloads found scaled down. The retry finds the same workloads. */
  ghost predicate Unstored(s: Sys, s1: Sys, k: Key, f: Faults)
    requires k in s.w.tasks && UniqueUids(s.w)
  {
    var t := s.w.tasks[k];
    var found := Found(s.w, t.spec.pvc, f.brokenOwners);
    && k in s1.w.tasks && s1.w.tasks[k] == t.(record := Some(Originals(s.w, found)))
    && (forall j :: j != k ==> (j in s1.w.tasks <==> j in s.w.tasks))
    && (forall j :: j != k && j in s.w.tasks ==> s1.w.tasks[j] == s.w.tasks[j])
    && s1.w.workloads.Keys == s.w.workloads.Keys
    && (forall wk :: wk in s.w.workloads ==> s1.w.workloads[wk] == SetTo(s.w.workloads[wk], wk, ToZero(found, f)))
    && s1.lost == s.lost && s1.intended == s.intended
    && Found(s1.w, t.spec.pvc, f.brokenOwners) == found
  }

  lemma RefusedScaleDown(s: Sys, k: Key, f: Faults)
    requires TasksOk(s.w) && ScalesDown(s.w, k, f) && !f.stepWrite
    ensures Unstored(s, Apply(s, Pass(k, f)), k, f)
  {
    ScaleDownOutcome(s.w, k, f);
    SameFound(s.w, Apply(s, Pass(k, f)).w, s.w.tasks[k].spec.pvc, f.brokenOwners);
  }

  /** What is found behind a claim depends on pods, owners and workload names only. */
  lemma SameFound(a: World, b: World, pvc: Key, broken: set<Key>)
    requires a.pods == b.pods && a.replicaSets == b.replicaSets && a.workloads.Keys == b.workloads.Keys
    ensures Found(a, pvc, broken) == Found(b, pvc, broken)
  {
    forall k, p | p in a.pods
      ensures Leads(a, p, pvc, broken, k) <==> Leads(b, p, pvc, broken, k)
    {
    }
  }

  /** A scale-down pass and its retry conserve the counts exactly when the first of them stored that it scaled down, or
      others keep every count it changed: otherwise the retry records the zeros it finds. */
  lemma ScaleDownConservesExactly(s: Sys, k: Key, f: Faults)
    requires Inv(s) && ScalesDown(s.w, k, f) && Exclusive(s, k, f)
    ensures UniqueUids(Apply(s, Pass(k, f)).w)
    ensures Conserved(Apply(Apply(s, Pass(k, f)), Pass(k, Retry(f)))) <==> StoredOrKept(s, k, f)
  {
    var s1 := Apply(s, Pass(k, f));
    EventKeepsTasksOk(s, Pass(k, f));
    ExclusiveScaleDownAccounts(s, k, f);
    ConservesExactly(s, Pass(k, f));
    ConservesExactly(s1, Pass(k, Retry(f)));
    if f.stepWrite {
      ScaleDownOutcome(s.w, k, f);
    } else {
      RefusedScaleDown(s, k, f);
      RetryAccountsExactly(s, s1, k, f);
    }
  }

  /** Every count the retry finds changed is at stake. */
  lemma RetryAccountsExactly(s: Sys, s1: Sys, k: Key, f: Faults)
    requires UniqueUids(s.w) && k in s.w.tasks && Unstored(s, s1, k, f) && !f.stepWrite
    requires ScaleDownAccounts(s, k, f) && Conserved(s)
    ensures ScaleDownAccounts(s1, k, Retry(f)) <==> StoredOrKept(s, k, f)
  {
    var found := Found(s.w, s.w.tasks[k].spec.pvc, f.brokenOwners);
    forall wk | wk in s.w.workloads
      ensures (wk in found || s1.w.tasks[k].Holds(s1.w.workloads[wk].uid) ==> Forgettable(s1, k, wk)) <==>
        (wk in found - f.refused ==> s.w.workloads[wk].Desired() == 0 || OthersKeep(s, k, wk))
    {
      OriginalsAre(s.w, found);
      if wk in found {
        RetriedIsForgettable(s, s1, k, f, wk);
      }
    }
  }

  lemma RetriedIsForgettable(s: Sys, s1: Sys, k: Key, f: Faults, wk: WKey)
    requires UniqueUids(s.w) && k in s.w.tasks && Unstored(s, s1, k, f) && wk in s.w.workloads
    requires wk in Found(s.w, s.w.tasks[k].spec.pvc, f.brokenOwners) && Forgettable(s, k, wk) && Conserved(s)
    ensures Forgettable(s1, k, wk) <==> wk in f.refused || s.w.workloads[wk].Desired() == 0 || OthersKeep(s, k, wk)
  {
    var u := s.w.workloads[wk].uid;
    assert CountKept(s, s.w.workloads[wk]);
    assert KeptByOthers(s1, k, u) <==> KeptByOthers(s, k, u) by {
      if j :| j in s.w.tasks && j != k && Remembers(s, s.w.tasks[j], u) {
        assert Remembers(s1, s1.w.tasks[j], u);
      }
    }
  }

  /* ---- restored workloads ---- */

  /** Every recorded workload takes its patch, or has the recorded count already. */
  ghost predicate NoneMissed(s: Sys, k: Key, f: Faults)
    requires k in s.w.tasks && s.w.tasks[k].record.Some?
  {
    forall wk :: wk in s.w.workloads && s.w.tasks[k].Holds(s.w.workloads[wk].uid) ==>
      || wk in Restorable(s.w, s.w.tasks[k].spec.pvc.ns, s.w.tasks[k].record.value, f)
      || s.w.workloads[wk].Desired() == s.w.tasks[k].record.value[s.w.workloads[wk].uid].replicas
  }

  /** The event is no scale-up of the task that misses a workload. */
  ghost predicate Restores(s: Sys, e: Event, k: Key) {
    e.Pass? && e.task == k && ScalesUp(s.w, k, e.f) ==> NoneMissed(s, k, e.f)
  }

  /** A task at work lets go of a workload only by restoring it: the pass that takes it off the record leaves it at the
      recorded count, which is the one its user chose, or a zero while that is shelved. */
  lemma LetGoIsRestored(s: Sys, k: Key, f: Faults, wk: WKey)
    requires Inv(s) && Restores(s, Pass(k, f), k) && k in s.w.tasks && wk in s.w.workloads
    requires s.w.tasks[k].Holds(s.w.workloads[wk].uid)
    requires var next := Apply(s, Pass(k, f));
      if k in next.w.tasks then !next.w.tasks[k].Holds(s.w.workloads[wk].uid) else s.w.tasks[k].status.state != Failed
    ensures var u := s.w.workloads[wk].uid; var count := s.w.tasks[k].record.value[u].replicas;
      && Apply(s, Pass(k, f)).w.workloads[wk].Desired() == count
      && u in s.intended && (count == s.intended[u] || (count == 0 && Shelved(s, u)))
  {
    assert EntryOk(s, s.w.tasks[k], wk) && TaskOk(k, s.w.tasks[k]);
    PassSound(s.w, k, f);
    if ScalesDown(s.w, k, f) {
      ScaleDownOutcome(s.w, k, f);
      OriginalsAre(s.w, Found(s.w, s.w.tasks[k].spec.pvc, f.brokenOwners));
    } else if RestoresCounts(s.w.tasks[k], f) {
      ScaleUpOutcome(s.w, k, f);
    } else {
      QuietPass(s.w, k, f);
    }
  }

  /** The workload of this UID is there, with this count. */
  predicate AtCount(s: Sys, wk: WKey, u: Uid, n: nat) {
    wk in s.w.workloads && s.w.workloads[wk].uid == u && s.w.workloads[wk].Desired() == n
  }

  /** The task and the workload are both there. */
  predicate BothThere(s: Sys, k: Key, wk: WKey, u: Uid) {
    k in s.w.tasks && wk in s.w.workloads && s.w.workloads[wk].uid == u
  }

  /** While a task at work holds a workload neither its entry nor the intended count changes. */
  lemma HeldCountStays(s: Sys, e: Event, k: Key, wk: WKey, u: Uid)
    requires Inv(s) && Possible(s, e) && Careful(s, e)
    requires BothThere(s, k, wk, u) && BothThere(Apply(s, e), k, wk, u) && HoldsAtWork(s.w.tasks[k], u)
    ensures var next := Apply(s, e);
      && u in s.intended && u in next.intended && next.intended[u] == s.intended[u]
      && (next.w.tasks[k].Holds(u) ==>
            next.w.tasks[k].record.value[u].replicas == s.w.tasks[k].record.value[u].replicas)
  {
    assert EntryOk(s, s.w.tasks[k], wk);
    HeldIsLeftAlone(s, e, k, wk, u);
    if e.Pass? && e.task == k {
      OwnPassKeepsCount(s, k, e.f, wk);
    } else if Touches(e) && e.task == k {
      TouchIsSound(s.w, e);
    } else {
      OtherEventKeepsTask(s, e, k);
    }
  }

  lemma HeldIsLeftAlone(s: Sys, e: Event, k: Key, wk: WKey, u: Uid)
    requires UniqueUids(s.w) && Possible(s, e) && Considerate(s, e) && u in s.intended
    requires BothThere(s, k, wk, u) && HoldsAtWork(s.w.tasks[k], u)
    ensures u in Apply(s, e).intended && Apply(s, e).intended[u] == s.intended[u]
  {
  }

  lemma OwnPassKeepsCount(s: Sys, k: Key, f: Faults, wk: WKey)
    requires Inv(s) && k in s.w.tasks && wk in s.w.workloads && HoldsAtWork(s.w.tasks[k], s.w.workloads[wk].uid)
    ensures var next := Apply(s, Pass(k, f)); var u := s.w.workloads[wk].uid;
      k in next.w.tasks && next.w.tasks[k].Holds(u) ==>
        next.w.tasks[k].record.value[u].replicas == s.w.tasks[k].record.value[u].replicas
  {
    assert EntryOk(s, s.w.tasks[k], wk);
    if ScalesDown(s.w, k, f) {
      ScaleDownOutcome(s.w, k, f);
      OriginalsAre(s.w, Found(s.w, s.w.tasks[k].spec.pvc, f.brokenOwners));
    } else if RestoresCounts(s.w.tasks[k], f) {
      ScaleUpOutcome(s.w, k, f);
    } else {
      QuietPass(s.w, k, f);
    }
  }

  /** Only its own pass takes a workload off the record of a stored task. */
  lemma LetsGoInOwnPass(s: Sys, e: Event, k: Key, u: Uid)
    requires TasksOk(s.w) && Possible(s, e) && k in s.w.tasks && k in Apply(s, e).w.tasks
    requires s.w.tasks[k].Holds(u) && !Apply(s, e).w.tasks[k].Holds(u)
    ensures e.Pass? && e.task == k
  {
    if Touches(e) && e.task == k {
      TouchIsSound(s.w, e);
    } else if !(e.Pass? && e.task == k) {
      OtherEventKeepsTask(s, e, k);
    }
  }

  /** Failed is final. */
  lemma FailedStays(s: Sys, e: Event, k: Key)
    requires TasksOk(s.w) && Possible(s, e) && k in s.w.tasks && k in Apply(s, e).w.tasks
    requires s.w.tasks[k].status.state == Failed
    ensures Apply(s, e).w.tasks[k].status.state == Failed
  {
    if e.Pass? && e.task == k {
      PassSound(s.w, k, e.f);
    } else if Touches(e) && e.task == k {
      TouchIsSound(s.w, e);
    } else {
      OtherEventKeepsTask(s, e, k);
    }
  }

  lemma {:induction false} CompletedWasNotFailed(run: seq<Sys>, es: seq<Event>, i: nat, j: nat, k: Key)
    requires IsRun(run, es) && TasksOk(run[0].w) && i <= j < |run|
    requires forall n :: i <= n <= j ==> k in run[n].w.tasks
    requires k in run[j].w.tasks && run[j].w.tasks[k].status.state != Failed
    ensures k in run[i].w.tasks && run[i].w.tasks[k].status.state != Failed
    decreases j - i
  {
    assert k in run[i].w.tasks;
    if i < j {
      assert k in run[i + 1].w.tasks;
      RunKeepsTasksOk(run, es, i);
      CompletedWasNotFailed(run, es, i + 1, j, k);
      if run[i].w.tasks[k].status.state == Failed {
        FailedStays(run[i], es[i], k);
      }
    }
  }

  /** An event leaves the workload on the task's record as it is, or restores it; the intended count stays. */
  lemma KeepsOrRestores(s: Sys, e: Event, next: Sys, k: Key, wk: WKey, u: Uid)
    requires Inv(s) && Possible(s, e) && Careful(s, e) && Restores(s, e, k) && next == Apply(s, e)
    requires BothThere(s, k, wk, u) && BothThere(next, k, wk, u) && HoldsAtWork(s.w.tasks[k], u)
    ensures u in s.intended && u in next.intended && next.intended[u] == s.intended[u]
    ensures var count := s.w.tasks[k].record.value[u].replicas;
      if next.w.tasks[k].Holds(u) then next.w.tasks[k].record.value[u].replicas == count
      else AtCount(next, wk, u, count)
  {
    HeldCountStays(s, e, k, wk, u);
    if !next.w.tasks[k].Holds(u) {
      LetsGoInOwnPass(s, e, k, u);
      LetGoIsRestored(s, k, e.f, wk);
    }
  }

  /** Over every careful run in which its scale-ups miss nothing: a task that had a workload on record and is Completed
      later was seen, on the way there, with the workload back at the recorded count; and the count its user wanted was
      then still what it had been. */
  lemma {:induction false} RestoredBeforeCompleted(run: seq<Sys>, es: seq<Event>, i: nat, j: nat, k: Key, wk: WKey,
                                                   u: Uid)
    requires IsRun(run, es) && Start(run[0]) && i <= j < |run|
    requires forall n :: 0 <= n < |es| ==> Careful(run[n], es[n]) && Restores(run[n], es[n], k)
    requires forall n :: i <= n <= j ==> BothThere(run[n], k, wk, u)
    requires BothThere(run[i], k, wk, u) && run[i].w.tasks[k].Holds(u)
    requires BothThere(run[j], k, wk, u) && run[j].w.tasks[k].status.state == Completed
    ensures u in run[i].intended
    ensures exists m ::
      && i < m <= j && AtCount(run[m], wk, u, run[i].w.tasks[k].record.value[u].replicas)
      && u in run[m].intended && run[m].intended[u] == run[i].intended[u]
    decreases j - i
  {
    RunKeepsInv(run, es, i);
    assert TaskOk(k, run[i].w.tasks[k]);
    assert BothThere(run[i + 1], k, wk, u);
    CompletedWasNotFailed(run, es, i, j, k);
    KeepsOrRestores(run[i], es[i], run[i + 1], k, wk, u);
    if run[i + 1].w.tasks[k].Holds(u) {
      RestoredBeforeCompleted(run, es, i + 1, j, k, wk, u);
    }
  }
}
