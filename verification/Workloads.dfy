/** Finding the workloads that use a claim, scaling them to zero and restoring them from the counts
    recorded in the replicas annotation. Each loop is proved to compute a closed form on the cluster. */
module Workloads {
  import opened Reconciling
  import opened Cluster

  /* ---- closed forms ---- */

  predicate Mounts(pod: Pod, pvc: Key) {
    pod.at.ns == pvc.ns && Some(pvc.name) in pod.volumes
  }

  /** The workload at the top of an owner chain: a StatefulSet owns pods itself, a Deployment through a ReplicaSet. */
  function ScalableOwner(w: World, owner: OwnerRef, ns: string): Option<WKey> {
    if owner.kind == StatefulSetOwner then
      var sts := WKey(StatefulSet, Key(ns, owner.name));
      if sts in w.workloads then Some(sts) else None
    else if owner.kind == ReplicaSetOwner then
      var rs := Key(ns, owner.name);
      if rs in w.replicaSets && w.replicaSets[rs].Some? && w.replicaSets[rs].value.kind == DeploymentOwner then
        var dep := WKey(Deployment, Key(ns, w.replicaSets[rs].value.name));
        if dep in w.workloads then Some(dep) else None
      else None
    else None
  }

  function PodWorkload(w: World, pod: Pod): Option<WKey> {
    match pod.owner
    case None => None
    case Some(owner) => ScalableOwner(w, owner, pod.at.ns)
  }

  /** The pod leads from the claim to the workload. */
  predicate Leads(w: World, pod: Pod, pvc: Key, broken: set<Key>, k: WKey) {
    Mounts(pod, pvc) && pod.at !in broken && PodWorkload(w, pod) == Some(k)
  }

  /** The workloads whose pods mount the claim, but for those behind an owner that cannot be read. */
  function Found(w: World, pvc: Key, broken: set<Key>): set<WKey> {
    set k | k in w.workloads && exists p :: p in w.pods && Leads(w, p, pvc, broken, k)
  }

  /** Pods of this owner belong to the workload: it is the StatefulSet of the owner's name, or the Deployment named by
      the ReplicaSet of the owner's name. */
  predicate OwnedThrough(w: World, owner: OwnerRef, ns: string, k: WKey) {
    && k in w.workloads && k.at.ns == ns
    && match k.kind
       case StatefulSet => owner == OwnerRef(StatefulSetOwner, k.at.name)
       case Deployment =>
         && owner.kind == ReplicaSetOwner && Key(ns, owner.name) in w.replicaSets
         && w.replicaSets[Key(ns, owner.name)] == Some(OwnerRef(DeploymentOwner, k.at.name))
  }

  lemma OwnerChain(w: World, owner: OwnerRef, ns: string, k: WKey)
    ensures ScalableOwner(w, owner, ns) == Some(k) <==> OwnedThrough(w, owner, ns, k)
  {
  }

  /** A pod of the claim's namespace that has a volume for the claim, an owner, and leave to read it. */
  predicate UsesClaim(pod: Pod, pvc: Key, broken: set<Key>) {
    && pod.at.ns == pvc.ns && pod.owner.Some? && pod.at !in broken
    && exists i :: 0 <= i < |pod.volumes| && pod.volumes[i] == Some(pvc.name)
  }

  /** A workload is found exactly when such a pod belongs to it. */
  lemma FoundExactly(w: World, pvc: Key, broken: set<Key>, k: WKey)
    ensures k in Found(w, pvc, broken) <==>
      exists p :: p in w.pods && UsesClaim(p, pvc, broken) && OwnedThrough(w, p.owner.value, pvc.ns, k)
  {
    forall p | p in w.pods
      ensures Leads(w, p, pvc, broken, k) && k in w.workloads <==>
        UsesClaim(p, pvc, broken) && OwnedThrough(w, p.owner.value, pvc.ns, k)
    {
      if p.owner.Some? {
        OwnerChain(w, p.owner.value, p.at.ns, k);
      }
    }
  }

  /** The counts the annotation records for a set of workloads. */
  ghost function Originals(w: World, keys: set<WKey>): Record
    requires UniqueUids(w)
  {
    map k | k in keys && k in w.workloads :: w.workloads[k].uid := Info(k.kind, k.at.name, w.workloads[k].Desired())
  }

  /** One entry for each of the workloads, and none besides. A workload that leaves its count out has one replica. */
  lemma OriginalsAre(w: World, keys: set<WKey>)
    requires UniqueUids(w)
    ensures var record := Originals(w, keys);
      && (forall k :: k in keys && k in w.workloads ==> w.workloads[k].uid in record)
      && (forall k :: k in keys && k in w.workloads ==>
            record[w.workloads[k].uid] == Info(k.kind, k.at.name, w.workloads[k].Desired()))
      && (forall k :: k in keys && k in w.workloads ==>
            record[w.workloads[k].uid].replicas ==
            match w.workloads[k].replicas case None => 1 case Some(n) => n)
      && (forall u :: u in record ==> exists k :: k in keys && k in w.workloads && w.workloads[k].uid == u)
  {
  }

  /** The counts a scale-down sets. */
  function ToZero(found: set<WKey>, f: Faults): map<WKey, nat> {
    map k | k in found - f.refused :: 0
  }

  /** The recorded entry is about this very workload: kind, name and UID all agree. */
  predicate Recorded(w: World, ns: string, record: Record, k: WKey) {
    k in w.workloads && k.at.ns == ns && w.workloads[k].uid in record
    && record[w.workloads[k].uid].kind == k.kind && record[w.workloads[k].uid].name == k.at.name
  }

  /** The workloads that a scale-up gets to patch. */
  function Restorable(w: World, ns: string, record: Record, f: Faults): set<WKey> {
    set k | k in w.workloads && Recorded(w, ns, record, k) && w.workloads[k].uid !in f.brokenLookups && k !in f.refused
  }

  /** The counts a scale-up sets. */
  function RestoredCounts(w: World, ns: string, record: Record, f: Faults): map<WKey, nat> {
    map k | k in Restorable(w, ns, record, f) :: record[w.workloads[k].uid].replicas
  }

  /** What a scale-down of a claim has on record leads the scale-up back to exactly the workloads it found, as long as
      they exist, with the counts they had; only those that cannot be read or take no patch are left out. */
  lemma RecordLeadsBack(w: World, now: World, pvc: Key, broken: set<Key>, f: Faults, k: WKey)
    requires UniqueUids(w) && k in w.workloads && k in now.workloads && now.workloads[k].uid == w.workloads[k].uid
    ensures var record := Originals(w, Found(w, pvc, broken));
      && (k in Restorable(now, pvc.ns, record, f) <==>
            k in Found(w, pvc, broken) && w.workloads[k].uid !in f.brokenLookups && k !in f.refused)
      && (k in Restorable(now, pvc.ns, record, f) ==>
            RestoredCounts(now, pvc.ns, record, f)[k] == w.workloads[k].Desired())
  {
    OriginalsAre(w, Found(w, pvc, broken));
    FoundExactly(w, pvc, broken, k);
  }

  /** A workload that took another's name is another object, and is left alone. */
  lemma NamesakeIsLeftAlone(w: World, now: World, keys: set<WKey>, ns: string, f: Faults, k: WKey)
    requires UniqueUids(w) && k in now.workloads
    requires forall x :: x in keys && x in w.workloads ==> w.workloads[x].uid != now.workloads[k].uid
    ensures k !in RestoredCounts(now, ns, Originals(w, keys), f)
  {
    OriginalsAre(w, keys);
  }

  /** `now` is `w` with the restorable workloads scaled, but for those with a UID in `pending`. */
  ghost predicate RestoredBut(w: World, now: World, ns: string, record: Record, f: Faults, pending: set<Uid>) {
    && now == w.(workloads := now.workloads)
    && now.workloads.Keys == w.workloads.Keys
    && forall k :: k in w.workloads ==>
         now.workloads[k] ==
         if w.workloads[k].uid in pending then w.workloads[k]
         else SetTo(w.workloads[k], k, RestoredCounts(w, ns, record, f))
  }

  /* ---- the code ---- */

  /** An owner that cannot be read is an error; one that is not there is none. */
  method FindScalableWorkload(api: ApiServer, owner: OwnerRef, ns: string, readable: bool)
    returns (workload: Option<WKey>, err: bool)
    ensures err <==> !readable && (owner.kind == StatefulSetOwner || owner.kind == ReplicaSetOwner)
    ensures workload == if err then None else ScalableOwner(api.w, owner, ns)
    ensures forall k :: workload == Some(k) <==> !err && OwnedThrough(api.w, owner, ns, k)
  {
    if owner.kind == StatefulSetOwner {
      if !readable {
        return None, true;
      }
      var sts := WKey(StatefulSet, Key(ns, owner.name));
      if sts !in api.w.workloads {
        return None, false;
      }
      return Some(sts), false;
    }
    if owner.kind == ReplicaSetOwner {
      if !readable {
        return None, true;
      }
      var rs := Key(ns, owner.name);
      if rs !in api.w.replicaSets {
        return None, false;
      }
      var rsOwner := api.w.replicaSets[rs];
      if rsOwner == None || rsOwner.value.kind != DeploymentOwner {
        return None, false;
      }
      var dep := WKey(Deployment, Key(ns, rsOwner.value.name));
      if dep !in api.w.workloads {
        return None, false;
      }
      return Some(dep), false;
    }
    return None, false;
  }

  method MountingPods(pods: seq<Pod>, pvc: Key) returns (mounting: seq<Pod>)
    ensures forall p :: p in mounting <==> p in pods && Mounts(p, pvc)
  {
    mounting := [];
    for i := 0 to |pods|
      invariant forall p :: p in mounting <==> p in pods[..i] && Mounts(p, pvc)
    {
      var pod := pods[i];
      if pod.at.ns == pvc.ns {
        for j := 0 to |pod.volumes|
          invariant Some(pvc.name) !in pod.volumes[..j]
          invariant forall p :: p in mounting <==> p in pods[..i] && Mounts(p, pvc)
        {
          if pod.volumes[j] == Some(pvc.name) {
            mounting := mounting + [pod];
            break;
          }
        }
      }
    }
  }

  /** The scalable owners of the pods that mount the claim, each exactly once and nothing else. */
  method FindWorkloadsForPVC(api: ApiServer, pvc: Key, f: Faults) returns (workloads: seq<WKey>, err: bool)
    requires UniqueUids(api.w)
    ensures err <==> !f.listPods
    ensures forall k :: k in workloads <==> !err && k in Found(api.w, pvc, f.brokenOwners)
    ensures forall k :: k in workloads ==> k in api.w.workloads
    ensures forall i, j :: 0 <= i < j < |workloads| ==> workloads[i] != workloads[j]
  {
    if !f.listPods {
      return [], true;
    }
    err := false;
    workloads := [];
    var mounting := MountingPods(api.w.pods, pvc);
    var processedOwners: set<Uid> := {};
    for i := 0 to |mounting|
      invariant forall k :: k in workloads ==> k in api.w.workloads && api.w.workloads[k].uid in processedOwners
      invariant forall u :: u in processedOwners ==> exists k :: k in workloads && api.w.workloads[k].uid == u
      invariant forall a, b :: 0 <= a < b < |workloads| ==> workloads[a] != workloads[b]
      invariant forall k :: k in workloads <==>
        k in api.w.workloads && exists p :: p in mounting[..i] && Leads(api.w, p, pvc, f.brokenOwners, k)
    {
      var pod := mounting[i];
      ghost var before := workloads;
      if pod.owner.Some? {
        var found, ownerErr := FindScalableWorkload(api, pod.owner.value, pod.at.ns, pod.at !in f.brokenOwners);
        if !ownerErr && found.Some? && api.w.workloads[found.value].uid !in processedOwners {
          processedOwners := processedOwners + {api.w.workloads[found.value].uid};
          workloads := workloads + [found.value];
        }
      }
      assert mounting[..i + 1] == mounting[..i] + [pod];
      forall k
        ensures k in workloads <==>
          k in api.w.workloads && exists p :: p in mounting[..i + 1] && Leads(api.w, p, pvc, f.brokenOwners, k)
      {
        if Leads(api.w, pod, pvc, f.brokenOwners, k) {
          assert pod in mounting[..i + 1];
        }
      }
    }
    assert mounting[..|mounting|] == mounting;
  }

  lemma OriginalsAreThese(w: World, keys: set<WKey>, record: Record)
    requires UniqueUids(w) && forall k :: k in keys ==> k in w.workloads
    requires forall k :: k in keys ==> w.workloads[k].uid in record
    requires forall k :: k in keys ==> record[w.workloads[k].uid] == Info(k.kind, k.at.name, w.workloads[k].Desired())
    requires forall u :: u in record ==> exists k :: k in keys && w.workloads[k].uid == u
    ensures record == Originals(w, keys)
  {
    OriginalsAre(w, keys);
    var originals := Originals(w, keys);
    forall u
      ensures u in record <==> u in originals
      ensures u in record ==> record[u] == originals[u]
    {
      if u in record {
        var k :| k in keys && w.workloads[k].uid == u;
      }
    }
  }

  method GetOriginalReplicasInfo(api: ApiServer, workloads: seq<WKey>) returns (record: Record)
    requires UniqueUids(api.w)
    requires forall k :: k in workloads ==> k in api.w.workloads
    ensures record == Originals(api.w, set k | k in workloads)
  {
    record := map[];
    for i := 0 to |workloads|
      invariant forall u :: u in record ==> exists k :: k in workloads[..i] && api.w.workloads[k].uid == u
      invariant forall k :: k in workloads[..i] ==> api.w.workloads[k].uid in record
      invariant forall k :: k in workloads[..i] ==>
        record[api.w.workloads[k].uid] == Info(k.kind, k.at.name, api.w.workloads[k].Desired())
    {
      var k := workloads[i];
      record := record[api.w.workloads[k].uid := Info(k.kind, k.at.name, api.w.workloads[k].Desired())];
    }
    assert workloads[..|workloads|] == workloads;
    OriginalsAreThese(api.w, (set k | k in workloads), record);
  }

  method ScaleWorkloadsTo(api: ApiServer, workloads: seq<WKey>, replicas: nat, f: Faults)
    requires forall k :: k in workloads ==> k in api.w.workloads
    modifies api
    ensures api.w == old(api.w).(workloads := api.w.workloads)
    ensures api.w.workloads.Keys == old(api.w).workloads.Keys
    ensures forall k :: k in api.w.workloads ==>
      api.w.workloads[k] ==
      if k in workloads && k !in f.refused then old(api.w).workloads[k].(replicas := Some(replicas))
      else old(api.w).workloads[k]
  {
    ghost var w0 := api.w;
    for i := 0 to |workloads|
      invariant api.w == w0.(workloads := api.w.workloads)
      invariant api.w.workloads.Keys == w0.workloads.Keys
      invariant forall k :: k in api.w.workloads ==>
        api.w.workloads[k] ==
        if k in workloads[..i] && k !in f.refused then w0.workloads[k].(replicas := Some(replicas))
        else w0.workloads[k]
    {
      var _ := api.Patch(workloads[i], replicas, workloads[i] !in f.refused);
      assert workloads[..i + 1] == workloads[..i] + [workloads[i]];
    }
    assert workloads[..|workloads|] == workloads;
  }

  /** Recording on the task and scaling its workloads, taken together, is one change of the cluster. */
  lemma RecordedThenScaled(w0: World, w1: World, w2: World, task: Key, t: Task, workloads: seq<WKey>,
                           found: set<WKey>, f: Faults)
    requires task in w0.tasks && w1 == w0.(tasks := w0.tasks[task := t])
    requires forall k :: k in workloads <==> k in found
    requires w2 == w1.(workloads := w2.workloads) && w2.workloads.Keys == w0.workloads.Keys
    requires forall k :: k in w0.workloads ==>
      w2.workloads[k] == if k in workloads && k !in f.refused then w0.workloads[k].(replicas := Some(0))
        else w0.workloads[k]
    ensures Changes(w0, w2, task, Some(t), ToZero(found, f), w0.jobs)
  {
  }

  /** Records the current counts on the task, then scales every workload found to zero. `scaling` is false when the pods
      cannot be listed or no workload is found behind them. */
  method ScaleDownWorkloadsForPVC(api: ApiServer, task: Key, pvc: Key, finalizers: set<Finalizer>, f: Faults)
    returns (scaling: bool, err: bool, record: Option<Record>)
    requires UniqueUids(api.w)
    requires task in api.w.tasks && !(api.w.tasks[task].deleting && finalizers == {})
    modifies api
    ensures var found := Found(old(api.w), pvc, f.brokenOwners);
      && (err <==> !f.listPods || (found != {} && !f.objectWrite))
      && (scaling <==> f.listPods && found != {})
      && (if scaling && !err then
            && record == Some(Originals(old(api.w), found))
            && Changes(old(api.w), api.w, task,
              Some(old(api.w).tasks[task].(finalizers := finalizers, record := record)),
                       ToZero(found, f), old(api.w).jobs)
          else api.w == old(api.w) && record == None)
  {
    record := None;
    var workloads, listErr := FindWorkloadsForPVC(api, pvc, f);
    if listErr {
      return false, true, None;
    }
    ghost var found := Found(api.w, pvc, f.brokenOwners);
    assert (set k | k in workloads) == found;
    if |workloads| == 0 {
      assert found == {};
      return false, false, None;
    }
    assert workloads[0] in found;
    var originals := GetOriginalReplicasInfo(api, workloads);
    var writeErr := api.Update(task, finalizers, Some(originals), f.objectWrite);
    if writeErr {
      return true, true, None;
    }
    ghost var w1 := api.w;
    ScaleWorkloadsTo(api, workloads, 0, f);
    RecordedThenScaled(old(api.w), w1, api.w, task, w1.tasks[task], workloads, found, f);
    return true, false, Some(originals);
  }

  /** True exactly when no workload found behind the claim reports a ready replica. */
  method IsScaleDownCompleteForPVC(api: ApiServer, pvc: Key, f: Faults) returns (complete: bool, err: bool)
    requires UniqueUids(api.w)
    ensures err <==> !f.listPods
    ensures complete <==> !err && forall k :: k in Found(api.w, pvc, f.brokenOwners) ==> api.w.workloads[k].ready == 0
  {
    var workloads;
    workloads, err := FindWorkloadsForPVC(api, pvc, f);
    if err {
      return false, true;
    }
    for i := 0 to |workloads|
      invariant forall k :: k in workloads[..i] ==> api.w.workloads[k].ready == 0
    {
      if api.w.workloads[workloads[i]].ready > 0 {
        assert workloads[i] in Found(api.w, pvc, f.brokenOwners);
        return false, false;
      }
    }
    return true, false;
  }

  /** The recorded workload with this UID is still there and takes its patch. */
  predicate Patchable(w: World, key: WKey, uid: Uid, f: Faults) {
    uid !in f.brokenLookups && key in w.workloads && w.workloads[key].uid == uid && key !in f.refused
  }

  lemma OneRestored(w0: World, now: World, next: World, ns: string, record: Record, f: Faults, was: set<Uid>, uid: Uid)
    requires UniqueUids(w0) && uid in was && uid in record
    requires RestoredBut(w0, now, ns, record, f, was)
    requires var key := WKey(record[uid].kind, Key(ns, record[uid].name));
      next == if Patchable(now, key, uid, f) then Patched(now, key, record[uid].replicas) else now
    ensures RestoredBut(w0, next, ns, record, f, was - {uid})
    ensures var key := WKey(record[uid].kind, Key(ns, record[uid].name));
      forall k :: k in Restorable(w0, ns, record, f) && w0.workloads[k].uid == uid <==>
        k == key && Patchable(now, key, uid, f)
  {
  }

  /** Patches every recorded workload it can still identify, in any order. */
  method RestoreReplicas(api: ApiServer, ns: string, record: Record, f: Faults) returns (scaling: bool)
    requires UniqueUids(api.w)
    modifies api
    ensures RestoredBut(old(api.w), api.w, ns, record, f, {})
    ensures scaling <==> Restorable(old(api.w), ns, record, f) != {}
  {
    scaling := false;
    ghost var w0 := api.w;
    ghost var targets := Restorable(w0, ns, record, f);
    var pending := record.Keys;
    while pending != {}
      invariant pending <= record.Keys
      invariant RestoredBut(w0, api.w, ns, record, f, pending)
      invariant scaling <==> exists k :: k in targets && w0.workloads[k].uid !in pending
    {
      var uid :| uid in pending;
      var info := record[uid];
      var key := WKey(info.kind, Key(ns, info.name));
      ghost var now, was := api.w, pending;
      pending := pending - {uid};
      if uid !in f.brokenLookups && key in api.w.workloads && api.w.workloads[key].uid == uid {
        var patchErr := api.Patch(key, info.replicas, key !in f.refused);
        if !patchErr {
          scaling := true;
        }
      }
      OneRestored(w0, now, api.w, ns, record, f, was, uid);
    }
  }

  /** Restores the recorded counts, then drops the record, whether any count was restored or not. */
  method ScaleUpWorkloadsForPVC(api: ApiServer, task: Key, pvc: Key, finalizers: set<Finalizer>,
                                record: Option<Record>, f: Faults)
    returns (scaling: bool, err: bool, left: Option<Record>)
    requires UniqueUids(api.w)
    requires task in api.w.tasks && !(api.w.tasks[task].deleting && finalizers == {})
    modifies api
    ensures record == None ==> !scaling && !err && left == None && api.w == old(api.w)
    ensures record.Some? && !f.recordParses ==> !scaling && err && left == record && api.w == old(api.w)
    ensures record.Some? && f.recordParses ==>
      && (scaling <==> Restorable(old(api.w), pvc.ns, record.value, f) != {})
      && (err <==> !f.objectWrite)
      && left == (if err then record else None)
      && Changes(old(api.w), api.w, task,
                 Some(if err then old(api.w).tasks[task]
                   else old(api.w).tasks[task].(finalizers := finalizers, record := None)),
                 RestoredCounts(old(api.w), pvc.ns, record.value, f), old(api.w).jobs)
  {
    if record == None {
      return false, false, None;
    }
    if !f.recordParses {
      return false, true, record;
    }
    scaling := RestoreReplicas(api, pvc.ns, record.value, f);
    var writeErr := api.Update(task, finalizers, None, f.objectWrite);
    if writeErr {
      return scaling, true, record;
    }
    return scaling, false, None;
  }

  /** True when nothing is recorded any more, or every found workload with a recorded count is ready. */
  method IsScaleUpCompleteForPVC(api: ApiServer, pvc: Key, record: Option<Record>, f: Faults)
    returns (complete: bool, err: bool)
    requires UniqueUids(api.w)
    ensures record == None ==> complete && !err
    ensures record.Some? ==> (err <==> !f.recordParses || !f.listPods)
    ensures record.Some? ==>
      (complete <==>
        !err && forall k :: k in Found(api.w, pvc, f.brokenOwners) && api.w.workloads[k].uid in record.value ==>
          api.w.workloads[k].ready >= record.value[api.w.workloads[k].uid].replicas)
  {
    if record == None {
      return true, false;
    }
    if !f.recordParses {
      return false, true;
    }
    var workloads;
    workloads, err := FindWorkloadsForPVC(api, pvc, f);
    if err {
      return false, true;
    }
    for i := 0 to |workloads|
      invariant forall k :: k in workloads[..i] ==>
        api.w.workloads[k].uid in record.value ==>
          api.w.workloads[k].ready >= record.value[api.w.workloads[k].uid].replicas
    {
      var wl := api.w.workloads[workloads[i]];
      if wl.uid in record.value && wl.ready < record.value[wl.uid].replicas {
        assert workloads[i] in Found(api.w, pvc, f.brokenOwners);
        return false, false;
      }
    }
    return true, false;
  }

  /** Some found workload has fewer ready replicas than were recorded for it. */
  predicate ShortOfReady(w: World, pvc: Key, record: Record, f: Faults) {
    exists k :: k in Found(w, pvc, f.brokenOwners) && w.workloads[k].uid in record
      && w.workloads[k].ready < record[w.workloads[k].uid].replicas
  }
}
