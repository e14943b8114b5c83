/** What the restored cluster is, and when a rollback that restored it also returns normally. */
module Restoration {
  import opened Basics
  import opened JsonTrees
  import opened Images
  import opened Ordering
  import opened Clusters
  import opened Inventories
  import opened Plans
  import opened RollbackSemantics
  import opened Rollback

  // ---- pinning, container by container ----

  lemma {:induction false} PinnedImage(containers: seq<Json>, images: map<string, string>, name: string)
    requires ReadableContainers(containers)
    ensures FindImage(Pin(containers, images), name)
            == if FindImage(containers, name).Some? && name in images then Some(images[name]) else FindImage(containers, name)
  {
    if containers != [] {
      var rest := containers[1..];
      assert Pin(containers, images)[1..] == Pin(rest, images);
      assert ReadableContainers(rest);
      PinnedImage(rest, images, name);
      assert ReadableContainer(containers[0]);
    }
  }

  lemma {:induction false} PinnedReadable(containers: seq<Json>, images: map<string, string>)
    requires ReadableContainers(containers)
    ensures ReadableContainers(Pin(containers, images))
  {
    forall i | 0 <= i < |containers|
      ensures ReadableContainer(Pin(containers, images)[i])
    {
      assert ReadableContainer(containers[i]);
    }
  }

  lemma {:induction false} HasImage(containers: seq<Json>, name: string)
    requires ReadableContainers(containers)
    ensures HasContainer(containers, name) <==> FindImage(containers, name).Some?
  {
    if i :| 0 <= i < |containers| && containers[i].JObject? && Get(containers[i], "name") == JString(name) {
      ImageOfContainer(containers, i);
    }
    FoundContainer(containers, name);
  }

  lemma {:induction false} FoundContainer(containers: seq<Json>, name: string)
    requires ReadableContainers(containers)
    ensures FindImage(containers, name).Some? ==>
              exists i :: 0 <= i < |containers| && containers[i].JObject? && Get(containers[i], "name") == JString(name)
  {
    if containers != [] && Get(containers[0], "name") != JString(name) {
      var rest := containers[1..];
      assert ReadableContainers(rest);
      FoundContainer(rest, name);
      if FindImage(rest, name).Some? {
        var i :| 0 <= i < |rest| && rest[i].JObject? && Get(rest[i], "name") == JString(name);
        assert containers[i + 1] == rest[i];
      }
    }
  }

  /** Setting every container to the image it already has changes nothing. */
  lemma {:induction false} PinnedSame(containers: seq<Json>, images: map<string, string>)
    requires ReadableContainers(containers)
    requires forall name :: name in images ==> FindImage(containers, name) == Some(images[name])
    ensures Pin(containers, images) == containers
  {
    forall i | 0 <= i < |containers|
      ensures PinOne(containers[i], images) == containers[i]
    {
      ImageOfContainer(containers, i);
      assert ReadableContainer(containers[i]);
      if Get(containers[i], "name").text in images {
        SameImageSameContainer(containers[i]);
      }
    }
  }

  // ---- the restored cluster ----

  predicate IsTargetAt(p: Plan, namespace: string, ident: Ident, i: nat) {
    i < |p.targets| && p.targets[i].namespace == namespace && TargetIdent(p.targets[i].resource, p.targets[i].container) == ident
  }

  lemma {:induction false} TargetReadable(p: Plan, before: State, id: Id)
    requires Fits(p, before) && IsTargetId(p, id)
    ensures id in before && ReadableTemplate(before[id].template)
  {
    var i :| 0 <= i < |p.targets| && id == Id(p.targets[i].namespace, NameOf(p.targets[i].resource));
    assert IdOf(TargetWorkload(p.targets[i])) == id;
  }

  lemma {:induction false} RestoredTarget(p: Plan, before: State, i: nat)
    requires WellFormed(p) && Fits(p, before) && i < |p.targets|
    ensures TargetLive(p.targets[i], Restored(p, before))
  {
    var t := p.targets[i];
    var id := IdOf(TargetWorkload(t));
    var images := ImagesAt(p.targets, TargetWorkload(t));
    assert IsTargetId(p, id) && ReadableTemplate(before[id].template);
    WorkloadOfId(p, i);
    ImagesAtTarget(p, i);
    HasImage(Containers(before[id].template).value, t.container);
    PinnedImage(Containers(before[id].template).value, images, t.container);
  }

  lemma {:induction false} RestoredOther(p: Plan, before: State, namespace: string, ident: Ident)
    requires WellFormed(p) && Fits(p, before)
    requires forall i :: !IsTargetAt(p, namespace, ident, i)
    ensures ImageAt(Restored(p, before), namespace, ident) == ImageAt(before, namespace, ident)
  {
    var id := Id(namespace, ident.deployment);
    if IsTargetId(p, id) {
      TargetReadable(p, before, id);
      var w := Workload(id.namespace, Resource(id.name));
      if ident.container in ImagesAt(p.targets, w) {
        var i := ImagesAtOnlyTargets(p.targets, w, ident.container);
        NameOfResource(id.name);
        assert IsTargetAt(p, namespace, ident, i);
      }
      PinnedImage(Containers(before[id].template).value, ImagesAt(p.targets, w), ident.container);
    }
  }

  lemma {:induction false} TargetOrProtected(p: Plan, i: nat, k: nat)
    requires WellFormed(p) && i < |p.targets| && k < |p.protectedTargets|
    ensures var t := p.protectedTargets[k];
            !IsTargetAt(p, t.namespace, TargetIdent(t.resource, t.container), i)
  {
    assert ValidTarget(p.targets[i]) && ValidProtected(p.protectedTargets[k]);
    ResourceOfName(p.targets[i].resource);
    ResourceOfName(p.protectedTargets[k].resource);
    assert Places(p)[i] == TargetPlaces(p.targets)[i];
    assert Places(p)[|p.targets| + |p.bootstrapTargets| + k] == ProtectedPlaces(p.protectedTargets)[k];
  }

  lemma {:induction false} ProtectedIsNoTarget(p: Plan, k: nat)
    requires WellFormed(p) && k < |p.protectedTargets|
    ensures var t := p.protectedTargets[k];
            forall i :: !IsTargetAt(p, t.namespace, TargetIdent(t.resource, t.container), i)
  {
    forall i: nat | i < |p.targets| {
      TargetOrProtected(p, i, k);
    }
  }

  ghost predicate ProtectedsLive(p: Plan, s: State) {
    forall i :: 0 <= i < |p.protectedTargets| ==> ProtectedLive(p.protectedTargets[i], s)
  }

  /** The final checks of a rollback pass on the restored cluster exactly when the protected containers were
      running the digests recorded for them when they were captured. */
  lemma {:induction false} RestoredPassesExactly(p: Plan, before: State)
    requires WellFormed(p) && Fits(p, before)
    ensures BootstrapsAbsent(p, Restored(p, before))
    ensures DigestsLive(p, Restored(p, before)) <==> ProtectedsLive(p, before)
  {
    RestoredTargetsLive(p, before);
    forall i | 0 <= i < |p.protectedTargets|
      ensures ProtectedLive(p.protectedTargets[i], Restored(p, before)) <==> ProtectedLive(p.protectedTargets[i], before)
    {
      var t := p.protectedTargets[i];
      ProtectedIsNoTarget(p, i);
      RestoredOther(p, before, t.namespace, TargetIdent(t.resource, t.container));
    }
    forall i, container | 0 <= i < |p.bootstrapTargets|
      ensures ImageAt(Restored(p, before), p.bootstrapTargets[i].namespace, TargetIdent(p.bootstrapTargets[i].resource, container)).None?
    {
      var t := p.bootstrapTargets[i];
      assert IsBootstrapId(p, Id(t.namespace, NameOf(t.resource)));
    }
  }

  ghost predicate TargetsLive(p: Plan, s: State) {
    forall i :: 0 <= i < |p.targets| ==> TargetLive(p.targets[i], s)
  }

  lemma {:induction false} RestoredTargetsLive(p: Plan, before: State)
    requires WellFormed(p) && Fits(p, before)
    ensures TargetsLive(p, Restored(p, before))
  {
    forall i | 0 <= i < |p.targets|
      ensures TargetLive(p.targets[i], Restored(p, before))
    {
      RestoredTarget(p, before, i);
    }
  }

  lemma {:induction false} LiveIsRestored(p: Plan, before: State)
    requires WellFormed(p) && Fits(p, before) && TargetsLive(p, before)
    ensures Restored(p, before) == before
  {
    var r := Restored(p, before);
    forall id | id in before
      ensures r[id] == before[id]
    {
      if IsTargetId(p, id) {
        RestoredSame(p, before, id);
      }
    }
  }

  /** The restored cluster is the captured one exactly when every target was running the digest recorded for it. */
  lemma {:induction false} RestoredIsBeforeExactly(p: Plan, before: State)
    requires WellFormed(p) && Fits(p, before)
    ensures Restored(p, before) == before <==> TargetsLive(p, before)
  {
    RestoredTargetsLive(p, before);
    if TargetsLive(p, before) {
      LiveIsRestored(p, before);
    }
  }

  lemma {:induction false} RestoredSame(p: Plan, before: State, id: Id)
    requires WellFormed(p) && Fits(p, before) && IsTargetId(p, id)
    requires TargetsLive(p, before)
    ensures id in before && Restored(p, before)[id] == before[id]
  {
    TargetReadable(p, before, id);
    var w, template := Workload(id.namespace, Resource(id.name)), before[id].template;
    forall name | name in ImagesAt(p.targets, w)
      ensures FindImage(Containers(template).value, name) == Some(ImagesAt(p.targets, w)[name])
    {
      var i := ImagesAtOnlyTargets(p.targets, w, name);
      NameOfResource(id.name);
      assert TargetLive(p.targets[i], before);
    }
    PinnedSame(Containers(template).value, ImagesAt(p.targets, w));
    SameContainersSameTemplate(template);
  }

  /** Restoring keeps every namespace inspectable that was. */
  lemma {:induction false} RestoredInspectable(p: Plan, before: State, namespace: string)
    requires Fits(p, before) && Inspectable(before, namespace)
    ensures Inspectable(Restored(p, before), namespace)
  {
    forall id | id in before && id.namespace == namespace
      ensures ReadableTemplate(Restored(p, before)[id].template)
    {
      if IsTargetId(p, id) {
        PinnedReadable(Containers(before[id].template).value, ImagesAt(p.targets, Workload(id.namespace, Resource(id.name))));
      }
    }
  }

  lemma {:induction false} MixedHasTargets(p: Plan, before: State, s: State)
    requires Mixed(p, before, s)
    ensures TargetsPresent(p, s)
  {
    forall i | 0 <= i < |p.targets|
      ensures IdOf(TargetWorkload(p.targets[i])) in s
    {
      assert IsTargetId(p, IdOf(TargetWorkload(p.targets[i])));
    }
  }

  /** A rollback in which no command faults and no status is late, begun anywhere an interrupted rollout may have stopped. */
  method RollBack(w: World, p: Plan, ghost before: State, context: string, timeout: string)
    returns (r: Result<()>, ghost deadline: real)
    requires w.Valid() && ValidContext(context) && IsTimeout(timeout)
    requires WellFormed(p) && CoversTargets(p) && Fits(p, before) && Mixed(p, before, w.cluster)
    modifies w
    ensures w.Valid() && old(w.log) <= w.log
    ensures old(w.clock) + TimeoutSeconds(timeout) <= deadline && Timely(w.log, |old(w.log)|, timeout, deadline)
    ensures Undelayed(w.log, |old(w.log)|, deadline) ==>
              && w.cluster == Restored(p, before)
              && (NamespacesInspectable(p, before) ==> (r.Ok? <==> ProtectedsLive(p, before)))
  {
    MixedHasTargets(p, before, w.cluster);
    RollbackRestores(p, before, w.cluster);
    r, deadline := ApplyPlan(w, p, context, timeout);
    RestoredPassesExactly(p, before);
    if NamespacesInspectable(p, before) {
      forall namespace | namespace in VerifiedNamespaces(p) || namespace in BootstrapNamespaces(p)
        ensures Inspectable(Restored(p, before), namespace)
      {
        RestoredInspectable(p, before, namespace);
      }
    }
  }
}
