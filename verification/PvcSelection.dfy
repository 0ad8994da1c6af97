/** Which claims a config manages: the listing the Config reconciler works on, and the check by which a change of a
    claim wakes it up. */
module PvcSelection {
  import opened Reconciling
  import opened Schedule
  import opened Annotations

  type Labels = map<string, string>

  datatype Pvc = Pvc(
    uid: string,
    ns: string,
    name: string,
    labels: Labels,
    created: Time,
    deleting: bool,
    annotations: Annotations)

  /** An absent list or map is different from an empty one. */
  datatype Selector = Selector(matchLabels: Option<Labels>, matchNamespaces: Option<seq<string>>)

  const MAX_AGE_FOR_NEW: nat := 900 * SECOND

  /* ---- listing ---- */

  /** The namespace a list request is restricted to. Each namespace option replaces the one before it, and the empty
      name, like no option at all, stands for every namespace. */
  function ListNamespace(sel: Selector): string {
    if sel.matchNamespaces == None || sel.matchNamespaces.value == [] then ""
    else sel.matchNamespaces.value[|sel.matchNamespaces.value| - 1]
  }

  /** The API server returns the claim for this selector. A label must be there with its value. */
  predicate Lists(sel: Selector, pvc: Pvc) {
    && (ListNamespace(sel) == "" || pvc.ns == ListNamespace(sel))
    && (sel.matchLabels.Some? ==>
          forall k :: k in sel.matchLabels.value ==> k in pvc.labels && pvc.labels[k] == sel.matchLabels.value[k])
  }

  function Listed(sel: Selector, pvcs: seq<Pvc>): seq<Pvc> {
    if pvcs == [] then []
    else if Lists(sel, pvcs[0]) then [pvcs[0]] + Listed(sel, pvcs[1..])
    else Listed(sel, pvcs[1..])
  }

  predicate HasUid(pvcs: seq<Pvc>, uid: string) {
    exists p :: p in pvcs && p.uid == uid
  }

  ghost predicate UniqueUids(pvcs: seq<Pvc>) {
    forall i, j :: 0 <= i < j < |pvcs| ==> pvcs[i].uid != pvcs[j].uid
  }

  /** The claim is managed: some selector lists it and it is not being deleted. */
  predicate Manages(selectors: seq<Selector>, pvc: Pvc) {
    !pvc.deleting && exists sel :: sel in selectors && Lists(sel, pvc)
  }

  lemma {:induction false} ListedAre(sel: Selector, pvcs: seq<Pvc>)
    ensures forall p :: p in Listed(sel, pvcs) <==> p in pvcs && Lists(sel, p)
  {
    if pvcs != [] {
      ListedAre(sel, pvcs[1..]);
      assert pvcs == [pvcs[0]] + pvcs[1..];
    }
  }

  /** Every managed claim, each once, and nothing else. A list request that fails leaves nothing at all. */
  method GetPVCsForConfig(selectors: seq<Selector>, pvcs: seq<Pvc>, listFails: bool) returns (managed: seq<Pvc>)
    requires UniqueUids(pvcs)
    ensures listFails ==> managed == []
    ensures !listFails ==> forall p :: p in managed <==> p in pvcs && Manages(selectors, p)
    ensures UniqueUids(managed)
  {
    managed := [];
    var seen: set<string> := {};
    for i := 0 to |selectors|
      invariant listFails ==> i == 0 && managed == []
      invariant Collected(selectors[..i], pvcs, managed)
      invariant UniqueUids(managed) && seen == Uids(managed)
    {
      if listFails {
        return [];
      }
      var items := Listed(selectors[i], pvcs);
      ListedAre(selectors[i], pvcs);
      ghost var before := managed;
      for j := 0 to |items|
        invariant Extended(managed, before, items[..j])
        invariant UniqueUids(managed) && seen == Uids(managed)
      {
        var pvc := items[j];
        assert items[..j + 1] == items[..j] + [pvc];
        if pvc.uid in seen {
          SeenIsSame(pvcs, managed, pvc);
          continue;
        }
        if pvc.deleting {
          continue;
        }
        OneMoreUid(managed, pvc);
        seen := seen + {pvc.uid};
        managed := managed + [pvc];
      }
      assert items[..|items|] == items;
      assert selectors[..i + 1] == selectors[..i] + [selectors[i]];
    }
    assert selectors[..|selectors|] == selectors;
  }

  ghost function Uids(pvcs: seq<Pvc>): set<string> {
    set p | p in pvcs :: p.uid
  }

  /** `managed` has what it had before and those of `items` that stay. */
  ghost predicate Extended(managed: seq<Pvc>, before: seq<Pvc>, items: seq<Pvc>) {
    forall p :: p in managed <==> p in before || (p in items && !p.deleting)
  }

  lemma OneMoreUid(pvcs: seq<Pvc>, pvc: Pvc)
    requires UniqueUids(pvcs) && pvc.uid !in Uids(pvcs)
    ensures UniqueUids(pvcs + [pvc]) && Uids(pvcs + [pvc]) == Uids(pvcs) + {pvc.uid}
  {
    forall i | 0 <= i < |pvcs|
      ensures pvcs[i].uid in Uids(pvcs)
    {
    }
    assert pvc in pvcs + [pvc];
  }

  ghost predicate Collected(selectors: seq<Selector>, pvcs: seq<Pvc>, managed: seq<Pvc>) {
    forall p :: p in managed <==> p in pvcs && Manages(selectors, p)
  }

  lemma SeenIsSame(pvcs: seq<Pvc>, managed: seq<Pvc>, pvc: Pvc)
    requires UniqueUids(pvcs) && pvc in pvcs && pvc.uid in Uids(managed)
    requires forall p :: p in managed ==> p in pvcs
    ensures pvc in managed
  {
  }

  /** What a pass may work on: every managed claim, each once, in the order the API server lists them. */
  ghost predicate IsManagedList(selectors: seq<Selector>, pvcs: seq<Pvc>, managed: seq<Pvc>) {
    UniqueUids(managed) && Collected(selectors, pvcs, managed)
  }

  /* ---- filtering ---- */

  predicate IsNew(pvc: Pvc, now: Time) {
    now <= pvc.created + MAX_AGE_FOR_NEW
  }

  /** The claim has been handled by auto-restore. */
  predicate Processed(pvc: Pvc) {
    ValueOf(pvc.annotations, AnnAutoRestored) == "true"
  }

  predicate IsUnclaimed(pvc: Pvc) {
    !Processed(pvc) && ValueOf(pvc.annotations, AnnRestore) == ""
  }

  /** The claims young enough, in order. */
  function NewOnes(pvcs: seq<Pvc>, now: Time): (r: seq<Pvc>)
    ensures forall p :: p in r <==> p in pvcs && IsNew(p, now)
  {
    if pvcs == [] then []
    else
      var n := |pvcs| - 1;
      assert pvcs == pvcs[..n] + [pvcs[n]];
      if IsNew(pvcs[n], now) then NewOnes(pvcs[..n], now) + [pvcs[n]] else NewOnes(pvcs[..n], now)
  }

  /** The claims without mark and without restore trigger, in order. */
  function UnclaimedOnes(pvcs: seq<Pvc>): (r: seq<Pvc>)
    ensures forall p :: p in r <==> p in pvcs && IsUnclaimed(p)
  {
    if pvcs == [] then []
    else
      var n := |pvcs| - 1;
      assert pvcs == pvcs[..n] + [pvcs[n]];
      if IsUnclaimed(pvcs[n]) then UnclaimedOnes(pvcs[..n]) + [pvcs[n]] else UnclaimedOnes(pvcs[..n])
  }

  /** The claims that are both, in order. */
  function NewUnclaimed(managed: seq<Pvc>, now: Time): (r: seq<Pvc>)
    ensures forall p :: p in r <==> p in managed && IsNew(p, now) && IsUnclaimed(p)
  {
    if managed == [] then []
    else
      var n := |managed| - 1;
      var rest := NewUnclaimed(managed[..n], now);
      assert managed == managed[..n] + [managed[n]];
      if IsNew(managed[n], now) && IsUnclaimed(managed[n]) then rest + [managed[n]] else rest
  }

  /** One filter after the other. */
  lemma {:induction false} NewThenUnclaimed(pvcs: seq<Pvc>, now: Time)
    ensures UnclaimedOnes(NewOnes(pvcs, now)) == NewUnclaimed(pvcs, now)
  {
    if pvcs != [] {
      var n := |pvcs| - 1;
      NewThenUnclaimed(pvcs[..n], now);
      var front := NewOnes(pvcs[..n], now);
      assert (front + [pvcs[n]])[..|front|] == front;
    }
  }

  method FilterNewPVCs(managed: seq<Pvc>, now: Time) returns (newPvcs: seq<Pvc>)
    ensures newPvcs == NewOnes(managed, now)
    ensures forall p :: p in newPvcs <==> p in managed && now <= p.created + 15 * 60 * SECOND
  {
    newPvcs := [];
    for i := 0 to |managed|
      invariant newPvcs == NewOnes(managed[..i], now)
    {
      assert managed[..i + 1][..i] == managed[..i];
      if now > managed[i].created + MAX_AGE_FOR_NEW {
        continue;
      }
      newPvcs := newPvcs + [managed[i]];
    }
    assert managed[..|managed|] == managed;
  }

  method FilterUnclaimedPVCs(pvcs: seq<Pvc>) returns (unclaimed: seq<Pvc>)
    ensures unclaimed == UnclaimedOnes(pvcs)
    ensures forall p :: p in unclaimed <==>
      p in pvcs && ValueOf(p.annotations, AnnAutoRestored) != "true" && ValueOf(p.annotations, AnnRestore) == ""
  {
    unclaimed := [];
    for i := 0 to |pvcs|
      invariant unclaimed == UnclaimedOnes(pvcs[..i])
    {
      assert pvcs[..i + 1][..i] == pvcs[..i];
      if ValueOf(pvcs[i].annotations, AnnAutoRestored) == "true" {
        continue;
      }
      if ValueOf(pvcs[i].annotations, AnnRestore) != "" {
        continue;
      }
      unclaimed := unclaimed + [pvcs[i]];
    }
    assert pvcs[..|pvcs|] == pvcs;
  }

  /* ---- waking up ---- */

  function LabelOf(pvc: Pvc, key: string): string {
    if key in pvc.labels then pvc.labels[key] else ""
  }

  /** A change of the claim wakes the config up on account of this selector: its namespace is in the list, and no label
      has another value than the selector's. */
  predicate Wakes(sel: Selector, pvc: Pvc) {
    && (sel.matchNamespaces.Some? ==> pvc.ns in sel.matchNamespaces.value)
    && (sel.matchLabels.Some? ==>
          forall k :: k in sel.matchLabels.value ==> LabelOf(pvc, k) == sel.matchLabels.value[k])
  }

  method MatchesConfigSelectors(selectors: seq<Selector>, pvc: Pvc) returns (matches: bool)
    ensures matches <==> exists sel :: sel in selectors && Wakes(sel, pvc)
    ensures matches <==> exists sel ::
      && sel in selectors
      && (sel.matchNamespaces.Some? ==>
        exists i :: 0 <= i < |sel.matchNamespaces.value| && sel.matchNamespaces.value[i] == pvc.ns)
      && (sel.matchLabels.Some? ==>
            forall k :: k in sel.matchLabels.value ==>
              sel.matchLabels.value[k] == if k in pvc.labels then pvc.labels[k] else "")
  {
    for i := 0 to |selectors|
      invariant forall sel :: sel in selectors[..i] ==> !Wakes(sel, pvc)
    {
      var sel := selectors[i];
      if sel.matchNamespaces.Some? {
        var namespaceMatch := false;
        for j := 0 to |sel.matchNamespaces.value|
          invariant !namespaceMatch && pvc.ns !in sel.matchNamespaces.value[..j]
        {
          if pvc.ns == sel.matchNamespaces.value[j] {
            namespaceMatch := true;
            break;
          }
        }
        if !namespaceMatch {
          continue;
        }
      }
      if sel.matchLabels.Some? {
        var labelMatch := true;
        var keys := sel.matchLabels.value.Keys;
        while keys != {}
          invariant keys <= sel.matchLabels.value.Keys
          invariant labelMatch
          invariant forall k :: k in sel.matchLabels.value && k !in keys ==> LabelOf(pvc, k) == sel.matchLabels.value[k]
          decreases keys
        {
          var k :| k in keys;
          keys := keys - {k};
          if LabelOf(pvc, k) != sel.matchLabels.value[k] {
            labelMatch := false;
            break;
          }
        }
        if !labelMatch {
          continue;
        }
      }
      assert sel in selectors && Wakes(sel, pvc);
      return true;
    }
    assert selectors[..|selectors|] == selectors;
    return false;
  }

  /** No namespace list, or one whose last name is a name. */
  predicate NamesNamespaces(sel: Selector) {
    sel.matchNamespaces.Some? ==>
      var names := sel.matchNamespaces.value; names != [] && names[|names| - 1] != ""
  }

  /** What is listed lies in the last namespace of the list, whatever names stand before it. */
  lemma OnlyTheLastNamespaceIsListed(sel: Selector, pvc: Pvc, names: seq<string>, last: string)
    requires sel.matchNamespaces == Some(names + [last]) && last != "" && Lists(sel, pvc)
    ensures pvc.ns == last
  {
  }

  /** With one namespace to a selector, a claim it does not list wakes its config up exactly when it lacks a label that
      the selector wants empty. */
  lemma WakesBeyondListingExactly(sel: Selector, pvc: Pvc, name: string)
    requires sel.matchNamespaces == Some([name]) && name != "" && pvc.ns == name
    requires sel.matchLabels.Some? ==>
      forall k :: k in sel.matchLabels.value && k in pvc.labels ==> pvc.labels[k] == sel.matchLabels.value[k]
    ensures Lists(sel, pvc) <==> (sel.matchLabels.Some? ==> forall k :: k in sel.matchLabels.value ==> k in pvc.labels)
    ensures Wakes(sel, pvc) <==>
      (sel.matchLabels.Some? ==>
        forall k :: k in sel.matchLabels.value ==> k in pvc.labels || sel.matchLabels.value[k] == "")
  {
    if sel.matchLabels.Some? {
      assert forall k :: k in sel.matchLabels.value ==>
        (LabelOf(pvc, k) == sel.matchLabels.value[k] <==> k in pvc.labels || sel.matchLabels.value[k] == "");
    }
  }

  /** A namespace that is not in the list. */
  lemma {:induction false} FreshNamespace(names: seq<string>) returns (ns: string)
    ensures ns != "" && ns !in names
    ensures forall n :: n in names ==> |n| < |ns|
  {
    if names == [] {
      ns := "x";
    } else {
      var rest := FreshNamespace(names[1..]);
      ns := rest + names[0];
      assert names == [names[0]] + names[1..];
    }
  }

  /** Whatever a selector lists also wakes its config up, for every claim there can be, exactly when the selector has no
      namespace list or one that ends in a name. An empty list, or an empty name at its end, lists every namespace but
      wakes nothing up outside those it names. */
  lemma ListedWakesExactly(sel: Selector)
    ensures NamesNamespaces(sel) <==> forall pvc: Pvc :: pvc.ns != "" && Lists(sel, pvc) ==> Wakes(sel, pvc)
  {
    if !NamesNamespaces(sel) {
      var ns := FreshNamespace(sel.matchNamespaces.value);
      var labels: Labels := if sel.matchLabels.Some? then sel.matchLabels.value else map[];
      var pvc := Pvc("", ns, "", labels, 0, false, map[]);
      assert Lists(sel, pvc) && !Wakes(sel, pvc);
    }
  }

  /** Every claim a config manages wakes it up. */
  lemma NoMissedWakeUps(selectors: seq<Selector>, pvc: Pvc)
    requires forall sel :: sel in selectors ==> NamesNamespaces(sel)
    requires pvc.ns != "" && Manages(selectors, pvc)
    ensures exists sel :: sel in selectors && Wakes(sel, pvc)
  {
    var sel :| sel in selectors && Lists(sel, pvc);
    ListedWakesExactly(sel);
  }
}
