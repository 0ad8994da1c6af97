/** The part of a Kubernetes cluster that the operator's tasks read and write, and the effect of each
    kind of write the API server accepts. */
module Cluster {
  import opened Reconciling

  type Uid = string

  /** A namespaced name. */
  datatype Key = Key(ns: string, name: string)

  datatype Kind = Deployment | StatefulSet

  datatype WKey = WKey(kind: Kind, at: Key)

  /** A controlling owner reference. */
  datatype OwnerKind = StatefulSetOwner | ReplicaSetOwner | DeploymentOwner | OtherOwner(kind: string)
  datatype OwnerRef = OwnerRef(kind: OwnerKind, name: string)

  /** A Deployment or a StatefulSet. `replicas` is absent when the spec leaves it out. */
  datatype Workload = Workload(uid: Uid, replicas: Option<nat>, ready: nat)
  {
    function Desired(): nat {
      match replicas
      case None => 1
      case Some(n) => n
    }
  }

  /** A pod: for each of its volumes the claim it mounts, if it is a claim, and its controlling owner. */
  datatype Pod = Pod(at: Key, volumes: seq<Option<string>>, owner: Option<OwnerRef>)

  /** What the replicas annotation stores about one workload, by its UID. */
  datatype Info = Info(kind: Kind, name: string, replicas: nat)
  type Record = map<Uid, Info>

  datatype JobStatus = JobStatus(active: nat, succeeded: nat, failed: nat)

  datatype State = Unset | Pending | ScalingDown | Starting | Running | ScalingUp | Completed | Failed

  datatype Status = Status(
    state: State,
    jobRef: Key,
    jobStatus: JobStatus,
    initialized: bool,
    scaledDown: bool,
    scaledUp: bool,
    output: string)

  const EMPTY_REF := Key("", "")
  const NO_JOB_STATUS := JobStatus(0, 0, 0)
  const FRESH_STATUS := Status(Unset, EMPTY_REF, NO_JOB_STATUS, false, false, false, "")

  datatype TaskSpec = TaskSpec(stopPods: bool, pvc: Key, templateParses: bool)

  /** The operator's own task finalizer, and those of others. */
  datatype Finalizer = TaskFinalizer | OtherFinalizer(name: string)

  datatype Task = Task(
    spec: TaskSpec,
    finalizers: set<Finalizer>,
    deleting: bool,
    record: Option<Record>,
    status: Status)
  {
    predicate Finished() {
      status.state == Completed || status.state == Failed
    }

    predicate Guarded() {
      TaskFinalizer in finalizers
    }

    /** The task's replicas annotation has an entry for the workload. */
    predicate Holds(u: Uid) {
      record.Some? && u in record.value
    }
  }

  datatype World = World(
    tasks: map<Key, Task>,
    workloads: map<WKey, Workload>,
    replicaSets: map<Key, Option<OwnerRef>>,
    pods: seq<Pod>,
    jobs: map<Key, JobStatus>)

  /** What the API server answers to the calls of one reconcile pass. A pass that dies after some of
      its writes is one whose later writes are all refused. */
  datatype Faults = Faults(
    getTask: bool,
    objectWrite: bool,             // the object update a stage issues itself
    stepWrite: bool,               // the write issued when the stage's answer is handled
    listPods: bool,
    brokenOwners: set<Key>,        // pods whose owner cannot be read
    brokenLookups: set<Uid>,       // recorded workloads that cannot be read
    refused: set<WKey>,            // workloads whose scale patch is refused
    recordParses: bool,            // the replicas annotation, if there is one, can be decoded
    getJob: bool,
    createJob: bool,
    logs: Option<string>)          // the logs of the job's pods, if they can be read

  const NO_FAULTS := Faults(true, true, true, true, {}, {}, {}, true, true, true, Some(""))

  /** No call fails but perhaps the reading of logs, whatever these are. */
  predicate FaultFree(f: Faults) {
    f == NO_FAULTS.(logs := f.logs)
  }

  /** An update of the object: metadata goes through, status is a subresource and does not. Removing the last
      finalizer of an object being deleted removes the object. */
  function PutObject(w: World, k: Key, finalizers: set<Finalizer>, record: Option<Record>): World {
    if k !in w.tasks then w
    else if w.tasks[k].deleting && finalizers == {} then w.(tasks := w.tasks - {k})
    else w.(tasks := w.tasks[k := w.tasks[k].(finalizers := finalizers, record := record)])
  }

  /** An update of the status subresource. */
  function PutStatus(w: World, k: Key, status: Status): World {
    if k !in w.tasks then w
    else w.(tasks := w.tasks[k := w.tasks[k].(status := status)])
  }

  /** A delete request: finalizers turn it into a mark. */
  function Deleted(w: World, k: Key): World {
    if k !in w.tasks then w
    else if w.tasks[k].finalizers == {} then w.(tasks := w.tasks - {k})
    else w.(tasks := w.tasks[k := w.tasks[k].(deleting := true)])
  }

  /** A merge patch that sets the replica count of one workload and nothing else. */
  function Patched(w: World, k: WKey, replicas: nat): World {
    if k !in w.workloads then w
    else w.(workloads := w.workloads[k := w.workloads[k].(replicas := Some(replicas))])
  }

  /** `now` is `before` with task `k` replaced (or gone), the counts in `scaled` set on workloads, and these jobs. */
  ghost predicate Changes(before: World, now: World, k: Key, task: Option<Task>, scaled: map<WKey, nat>,
                          jobs: map<Key, JobStatus>) {
    && (forall j :: j != k ==> (j in now.tasks <==> j in before.tasks))
    && (forall j :: j != k && j in before.tasks ==> now.tasks[j] == before.tasks[j])
    && (k in now.tasks <==> task.Some?)
    && (k in now.tasks ==> now.tasks[k] == task.value)
    && now.workloads.Keys == before.workloads.Keys
    && (forall j :: j in before.workloads ==> now.workloads[j] == SetTo(before.workloads[j], j, scaled))
    && now.jobs == jobs
    && now.pods == before.pods && now.replicaSets == before.replicaSets
  }

  function SetTo(wl: Workload, k: WKey, scaled: map<WKey, nat>): Workload {
    if k in scaled then wl.(replicas := Some(scaled[k])) else wl
  }

  /** UIDs identify workloads. */
  ghost predicate UniqueUids(w: World) {
    forall a, b :: a in w.workloads && b in w.workloads && w.workloads[a].uid == w.workloads[b].uid ==> a == b
  }

  /** The API server as the reconcilers see it. Every write says whether it is accepted. */
  class ApiServer {
    var w: World

    constructor (initial: World)
      ensures w == initial
    {
      w := initial;
    }

    method Update(k: Key, finalizers: set<Finalizer>, record: Option<Record>, accepted: bool) returns (err: bool)
      modifies this
      ensures err <==> !accepted || k !in old(w).tasks
      ensures w == if accepted then PutObject(old(w), k, finalizers, record) else old(w)
    {
      err := !accepted || k !in w.tasks;
      if accepted {
        w := PutObject(w, k, finalizers, record);
      }
    }

    method UpdateStatus(k: Key, status: Status, accepted: bool) returns (err: bool)
      modifies this
      ensures err <==> !accepted || k !in old(w).tasks
      ensures w == if accepted then PutStatus(old(w), k, status) else old(w)
    {
      err := !accepted || k !in w.tasks;
      if accepted {
        w := PutStatus(w, k, status);
      }
    }

    method Delete(k: Key, accepted: bool) returns (err: bool)
      modifies this
      ensures err <==> !accepted || k !in old(w).tasks
      ensures w == if accepted then Deleted(old(w), k) else old(w)
    {
      err := !accepted || k !in w.tasks;
      if accepted {
        w := Deleted(w, k);
      }
    }

    method Patch(k: WKey, replicas: nat, accepted: bool) returns (err: bool)
      modifies this
      ensures err <==> !accepted || k !in old(w).workloads
      ensures w == if accepted then Patched(old(w), k, replicas) else old(w)
    {
      err := !accepted || k !in w.workloads;
      if accepted {
        w := Patched(w, k, replicas);
      }
    }

    /** Creates a job. `taken` tells the already-exists refusal from any other. */
    method CreateJob(k: Key, accepted: bool) returns (err: bool, taken: bool)
      modifies this
      ensures taken <==> accepted && k in old(w).jobs
      ensures err <==> !accepted || k in old(w).jobs
      ensures w == if err then old(w) else old(w).(jobs := old(w).jobs[k := NO_JOB_STATUS])
    {
      taken := accepted && k in w.jobs;
      err := !accepted || k in w.jobs;
      if !err {
        w := w.(jobs := w.jobs[k := NO_JOB_STATUS]);
      }
    }
  }
}
