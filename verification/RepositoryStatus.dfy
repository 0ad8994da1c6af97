/** The status a config keeps for each of its repositories, and how it follows the spec. */
module RepositoryStatus {
  import opened Reconciling
  import opened Schedule
  import ResticArgs

  datatype RepoSpec = RepoSpec(repo: ResticArgs.Repo, backupSchedule: string, forgetSchedule: string)
  {
    function Target(): string {
      repo.target
    }
  }

  datatype RepoStatus = RepoStatus(target: string, initialized: bool, lastBackup: Option<Time>,
    lastForget: Option<Time>)

  function FreshStatus(target: string): RepoStatus {
    RepoStatus(target, false, None, None)
  }

  /** Status and spec agree, target by target. */
  predicate Mirrors(spec: seq<RepoSpec>, status: seq<RepoStatus>) {
    |status| == |spec| && forall i :: 0 <= i < |spec| ==> status[i].target == spec[i].Target()
  }

  /** The last status entry of a target. */
  function EntryOf(status: seq<RepoStatus>, target: string): Option<RepoStatus> {
    if status == [] then None
    else if status[|status| - 1].target == target then Some(status[|status| - 1])
    else EntryOf(status[..|status| - 1], target)
  }

  /** The entry a target has after a sync: the one it had, or a fresh one. */
  function KeptOrFresh(status: seq<RepoStatus>, target: string): RepoStatus {
    if EntryOf(status, target).Some? then EntryOf(status, target).value else FreshStatus(target)
  }

  /** What a sync makes of the status. */
  function Synced(spec: seq<RepoSpec>, status: seq<RepoStatus>): seq<RepoStatus> {
    if Mirrors(spec, status) then status
    else seq(|spec|, i requires 0 <= i < |spec| => KeptOrFresh(status, spec[i].Target()))
  }

  lemma {:induction false} EntryOfIs(status: seq<RepoStatus>, target: string)
    ensures EntryOf(status, target).Some? <==> exists i :: 0 <= i < |status| && status[i].target == target
    ensures EntryOf(status, target).Some? ==>
      EntryOf(status, target).value in status && EntryOf(status, target).value.target == target
  {
    if status != [] {
      var n := |status| - 1;
      EntryOfIs(status[..n], target);
      assert status == status[..n] + [status[n]];
    }
  }

  /** The stage that aligns the status: it reports a change exactly when spec and status do not mirror each other, which
      includes every removal, addition and reordering, and then rebuilds the status in the order of the spec. */
  method SyncRepositories(spec: seq<RepoSpec>, status: seq<RepoStatus>) returns (changed: bool, synced: seq<RepoStatus>)
    ensures changed <==> !Mirrors(spec, status)
    ensures synced == Synced(spec, status)
  {
    changed := false;
    var specTargets: set<string> := {};
    for i := 0 to |spec|
      invariant forall t :: t in specTargets <==> exists j :: 0 <= j < i && spec[j].Target() == t
    {
      specTargets := specTargets + {spec[i].Target()};
    }

    for i := 0 to |status|
      invariant changed ==> !Mirrors(spec, status)
    {
      if status[i].target !in specTargets {
        changed := true;
      }
    }

    var statusByTarget: map<string, RepoStatus> := map[];
    for i := 0 to |status|
      invariant forall t :: EntryOf(status[..i], t) == if t in statusByTarget then Some(statusByTarget[t]) else None
    {
      assert status[..i + 1][..i] == status[..i];
      statusByTarget := statusByTarget[status[i].target := status[i]];
    }
    assert status[..|status|] == status;

    var newStatus := [];
    for i := 0 to |spec|
      invariant |newStatus| == i
      invariant forall j :: 0 <= j < i ==> newStatus[j] == KeptOrFresh(status, spec[j].Target())
      invariant changed ==> !Mirrors(spec, status)
    {
      var target := spec[i].Target();
      EntryOfIs(status, target);
      if target in statusByTarget {
        newStatus := newStatus + [statusByTarget[target]];
      } else {
        assert EntryOf(status, target) == None;
        changed := true;
        newStatus := newStatus + [FreshStatus(target)];
      }
    }

    forall j | 0 <= j < |spec|
      ensures newStatus[j].target == spec[j].Target()
    {
      EntryOfIs(status, spec[j].Target());
    }
    if !changed {
      if |newStatus| != |status| {
        changed := true;
      } else {
        for i := 0 to |newStatus|
          invariant !changed
          invariant forall j :: 0 <= j < i ==> newStatus[j].target == status[j].target
        {
          if newStatus[i].target != status[i].target {
            changed := true;
            break;
          }
        }
      }
    }
    if !changed {
      return false, status;
    }
    return true, newStatus;
  }

  /** After a sync the status mirrors the spec, so that a second one changes nothing, whatever targets repeat. */
  lemma SyncIsIdempotent(spec: seq<RepoSpec>, status: seq<RepoStatus>)
    ensures Mirrors(spec, Synced(spec, status))
    ensures Synced(spec, Synced(spec, status)) == Synced(spec, status)
  {
    forall i | 0 <= i < |spec|
      ensures Synced(spec, status)[i].target == spec[i].Target()
    {
      EntryOfIs(status, spec[i].Target());
    }
  }

  predicate DistinctTargets(status: seq<RepoStatus>) {
    forall i, j :: 0 <= i < j < |status| ==> status[i].target != status[j].target
  }

  predicate DistinctSpec(spec: seq<RepoSpec>) {
    forall i, j :: 0 <= i < j < |spec| ==> spec[i].Target() != spec[j].Target()
  }

  predicate SpecHas(spec: seq<RepoSpec>, target: string) {
    exists i :: 0 <= i < |spec| && spec[i].Target() == target
  }

  lemma {:induction false} EntryAt(status: seq<RepoStatus>, i: nat)
    requires DistinctTargets(status) && i < |status|
    ensures EntryOf(status, status[i].target) == Some(status[i])
  {
    var n := |status| - 1;
    if i < n {
      EntryAt(status[..n], i);
    }
  }

  /** With distinct targets a sync keeps the entry, stamps and all, of every target that stays, and has none for a
      target that went. */
  lemma SyncKeepsEntries(spec: seq<RepoSpec>, status: seq<RepoStatus>, target: string)
    requires DistinctSpec(spec)
    ensures var synced := Synced(spec, status);
      && DistinctTargets(synced)
      && EntryOf(synced, target) == if SpecHas(spec, target) then Some(KeptOrFresh(status, target)) else None
  {
    var synced := Synced(spec, status);
    SyncIsIdempotent(spec, status);
    EntryOfIs(synced, target);
    EntryOfIs(status, target);
    if SpecHas(spec, target) {
      var i :| 0 <= i < |spec| && spec[i].Target() == target;
      EntryAt(synced, i);
    }
  }

  /** Over any sequence of spec edits, each followed by a sync, the entry of a target that is never removed stays. */
  lemma {:induction false} EntriesSurviveEdits(specs: seq<seq<RepoSpec>>, statuses: seq<seq<RepoStatus>>,
                                               target: string)
    requires |statuses| == |specs| + 1
    requires forall n :: 0 <= n < |specs| ==> DistinctSpec(specs[n]) && SpecHas(specs[n], target)
    requires forall n :: 0 <= n < |specs| ==> statuses[n + 1] == Synced(specs[n], statuses[n])
    requires EntryOf(statuses[0], target).Some?
    ensures EntryOf(statuses[|specs|], target) == EntryOf(statuses[0], target)
  {
    if specs != [] {
      var n := |specs| - 1;
      EntriesSurviveEdits(specs[..n], statuses[..n + 1], target);
      SyncKeepsEntries(specs[n], statuses[n], target);
    }
  }

  ghost predicate IsFirstSpec(spec: seq<RepoSpec>, target: string, found: RepoSpec) {
    exists i :: 0 <= i < |spec| && spec[i] == found && found.Target() == target
      && forall j :: 0 <= j < i ==> spec[j].Target() != target
  }

  /** The first spec of a status entry's target; there is one whenever the two mirror each other. */
  method FindRepositorySpec(spec: seq<RepoSpec>, target: string) returns (found: Option<RepoSpec>)
    ensures found.Some? <==> SpecHas(spec, target)
    ensures found.Some? ==> IsFirstSpec(spec, target, found.value)
  {
    for i := 0 to |spec|
      invariant forall j :: 0 <= j < i ==> spec[j].Target() != target
    {
      if spec[i].Target() == target {
        return Some(spec[i]);
      }
    }
    return None;
  }
}
