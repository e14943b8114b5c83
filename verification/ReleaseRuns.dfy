/** Capture followed by an undisturbed reconciling rollout of the same manifest and repository. */
module ReleaseRuns {
  import opened Basics
  import opened JsonTrees
  import opened Images
  import opened Clusters
  import opened Inventories
  import opened Manifests
  import opened Plans
  import opened Capture
  import opened CaptureFacts
  import opened CapturedPlans
  import opened RollbackSemantics
  import opened Rollback
  import opened RolloutPlanning
  import opened PatchFacts
  import opened CreationFacts
  import opened WaveOrder
  import opened RolloutWaves
  import opened ImageWaves
  import opened Rollout
  import opened Interruption
  import opened Restoration
  import opened Protocol
  import opened Releases
  import opened Acceptance

  lemma {:induction false} LiveAccounted(p: Plan, q: Request, inv: Inventory, before: State)
    requires Records(p, q, inv, before) && WellFormed(p)
    ensures forall i :: 0 <= i < |p.protectedTargets| ==>
              ImageAt(before, q.namespace, ProtectedIdentOf(p.protectedTargets[i])).Some? && !IsTarget(p, ProtectedIdentOf(p.protectedTargets[i]))
    ensures forall i :: 0 <= i < |p.targets| ==>
              p.targets[i].namespace == q.namespace && ImageAt(before, q.namespace, TargetIdentOf(p.targets[i])).Some?
  {
    RecordedNamespaces(p, q, inv);
    forall i | 0 <= i < |p.protectedTargets|
      ensures ImageAt(before, q.namespace, ProtectedIdentOf(p.protectedTargets[i])).Some? && !IsTarget(p, ProtectedIdentOf(p.protectedTargets[i]))
    {
      var ident := RecordedProtected(p, q, inv, before, i);
      forall j | 0 <= j < |p.targets|
        ensures TargetIdentOf(p.targets[j]) != ProtectedIdentOf(p.protectedTargets[i])
      {
        TargetOrProtected(p, j, i);
      }
    }
    forall i | 0 <= i < |p.targets|
      ensures ImageAt(before, q.namespace, TargetIdentOf(p.targets[i])).Some?
    {
      var ident := RecordedTarget(p, q, inv, before, i);
    }
  }

  lemma {:induction false} BootstrapsNotThere(p: Plan, before: State)
    requires Fits(p, before)
    ensures forall i :: 0 <= i < |p.bootstrapTargets| ==> BootstrapSlot(p.bootstrapTargets[i]).id !in before
  {
    forall i | 0 <= i < |p.bootstrapTargets|
      ensures BootstrapSlot(p.bootstrapTargets[i]).id !in before
    {
      assert IsBootstrapId(p, BootstrapSlot(p.bootstrapTargets[i]).id);
    }
  }

  lemma {:induction false} SomethingToRollOut(p: Plan, q: Request, inv: Inventory)
    requires Ordered(inv) && Partitions(p, inv, q) && q.expected != []
    ensures p.targets != [] || p.bootstrapTargets != []
  {
    LiveAndAbsent(q.expected, inv);
  }

  lemma {:induction false} ReleaseUndrifted(p: Plan, o: Options, before: State, namespace: string)
    requires o.reconcile && PlannedPatches(p, o).Ok? && StatesFit(p, before)
    requires forall i :: 0 <= i < |PlannedPatches(p, o).value| ==> PlannedPatches(p, o).value[i].namespace == namespace
    ensures Undrifted(p, PlannedPatches(p, o).value, before, namespace)
  {
    var patches := PlannedPatches(p, o).value;
    forall i | 0 <= i < |patches|
      ensures var state := StateAt(p.deploymentStates, Workload(patches[i].namespace, patches[i].resource));
              && PatchId(patches[i]) in before
              && state.Some?
              && before[PatchId(patches[i])] == Deployment(state.value.strategy, state.value.template)
    {
      var k := PatchSource(p, o, i);
      var j := StateAtFound(p.deploymentStates, PatchWorkload(patches[i]));
      assert StateId(p.deploymentStates[j]) == PatchId(patches[i]);
    }
  }

  lemma {:induction false} NothingOfBootstraps(p: Plan, before: State, namespace: string)
    requires Fits(p, before) && forall i :: 0 <= i < |p.bootstrapTargets| ==> p.bootstrapTargets[i].namespace == namespace
    ensures forall i, container :: 0 <= i < |p.bootstrapTargets| ==>
              ImageAt(before, namespace, Ident(NameOf(p.bootstrapTargets[i].resource), container)).None?
  {
    BootstrapsNotThere(p, before);
  }

  lemma {:induction false} BeforeAccounted(p: Plan, q: Request, inv: Inventory, before: State, image: string)
    requires Records(p, q, inv, before) && WellFormed(p) && Attests(q.verified) && q.repository.Some?
    requires ImageRepository(image) == Ok(q.repository.value) && ProtectedsLive(p, before)
    ensures ClosedAt(p, q.repository.value, before, q.namespace)
    ensures p.bootstrapTargets == [] ==> RolloutVerifiedAt(p, image, before, q.namespace, false)
  {
    forall ident
      ensures Known(p, q.repository.value, ident, ImageAt(before, q.namespace, ident))
    {
      LiveKnown(p, q, inv, before, q.repository.value, ident);
    }
    LiveAccounted(p, q, inv, before);
    forall i | 0 <= i < |p.protectedTargets|
      ensures ImageAt(before, q.namespace, ProtectedIdentOf(p.protectedTargets[i])) == Some(p.protectedTargets[i].image)
    {
      var ident := RecordedProtected(p, q, inv, before, i);
      assert ProtectedLive(p.protectedTargets[i], before) && p.protectedTargets[i].namespace == q.namespace;
    }
    if p.bootstrapTargets == [] {
      AccountedVerified(p, q, inv, before, image, before, false);
    }
  }

  lemma {:induction false} ReleasePreflight(p: Plan, q: Request, inv: Inventory, before: State, o: Options)
    requires Records(p, q, inv, before) && Loadable(p) && Attests(q.verified) && SameRelease(p, q, o)
    requires Fits(p, before) && ProtectedsLive(p, before) && PlannedPatches(p, o).Ok?
    ensures PreflightHolds(p, o, before) && Only(RolloutNamespaces(p)) == Ok(q.namespace)
  {
    ExpectedContainersMeaning(o.manifest.value, ByRepository(q.repository.value));
    SomethingToRollOut(p, q, inv);
    OnlyCaptured(p, q, inv);
    RecordedNamespaces(p, q, inv);
    LiveAccounted(p, q, inv, before);
    BeforeAccounted(p, q, inv, before, o.image);
    NothingOfBootstraps(p, before, q.namespace);
    ReleasePatchesAccount(p, q, inv, before, o);
    ReleaseUndrifted(p, o, before, q.namespace);
  }

  lemma {:induction false} ReleaseCreations(p: Plan, o: Options, before: State)
    requires PlannedCreations(p, o).Ok? && o.manifest.Some? && Fits(p, before)
    ensures Accepts(before, Create(PlannedCreations(p, o).value))
    ensures FromManifestAll(PlannedCreations(p, o).value, o.manifest.value, p, o.image)
  {
    var creations := PlannedCreations(p, o).value;
    if p.bootstrapTargets != [] {
      CreationsComplete(p, o.manifest.value, o.image);
      CreationsWithin(p, o);
      forall i, j | 0 <= i < j < |creations|
        ensures creations[i].id != creations[j].id
      {
        assert CreationIds(creations)[i] != CreationIds(creations)[j];
      }
    }
  }

  /** After the creations: everything is accounted for, and the check that follows passes. */
  lemma {:induction false} ReleaseExtended(p: Plan, q: Request, inv: Inventory, before: State, o: Options)
    requires Records(p, q, inv, before) && WellFormed(p) && Attests(q.verified) && SameManifest(q, o)
    requires Fits(p, before) && ProtectedsLive(p, before) && PlannedCreations(p, o).Ok? && RenderedReadable(o.manifest.value, p)
    ensures var t := CreateAll(before, PlannedCreations(p, o).value);
            && Extends(before, PlannedCreations(p, o).value, t)
            && Readable(t, q.namespace)
            && Accounted(p, q.repository.value, o.image, before, t, q.namespace, false)
    ensures CreationsFit(p, o, before, q.namespace)
  {
    var creations := PlannedCreations(p, o).value;
    var t := CreateAll(before, creations);
    ReleaseCreations(p, o, before);
    CreationExtends(before, creations);
    ExtendedReadable(p, before, creations, t, o.manifest.value, o.image, q.namespace);
    ExtendedAccounted(p, q, inv, before, creations, t, o.manifest.value, o.image);
    AccountedVerified(p, q, inv, before, o.image, t, false);
  }

  lemma {:induction false} ReleaseBootstrapsPresent(p: Plan, o: Options, before: State, t: State)
    requires WellFormed(p) && Fits(p, before) && PlannedCreations(p, o).Ok? && o.manifest.Some?
    requires RenderedReadable(o.manifest.value, p) && Extends(before, PlannedCreations(p, o).value, t)
    ensures AllPresent(BootstrapIds(p), t)
  {
    ReleaseCreations(p, o, before);
    forall id | id in BootstrapIds(p)
      ensures id in t
    {
      var j :| 0 <= j < |p.bootstrapTargets| && BootstrapIds(p)[j] == id;
      var i := CreatedBootstrap(p, PlannedCreations(p, o).value, o.manifest.value, o.image, j);
    }
  }

  lemma {:induction false} ReleaseStatuses(p: Plan, o: Options)
    requires CoversTargets(p) && PlannedPatches(p, o).Ok? && o.reconcile
    ensures StatusesKnown(PlannedPatches(p, o).value, RolloutWorkloads(p))
  {
    var patches := PlannedPatches(p, o).value;
    forall patch | patch in patches
      ensures Workload(patch.namespace, patch.resource) in RolloutWorkloads(p)
    {
      var i :| 0 <= i < |patches| && patches[i] == patch;
      var j := PatchAtTarget(p, o, i);
      assert TargetWorkloads(p.targets)[j] in TargetWorkloadSet(p.targets);
    }
  }

  lemma {:induction false} ReleaseChanged(p: Plan, q: Request, inv: Inventory, before: State, o: Options, t: State)
    requires Records(p, q, inv, before) && Loadable(p) && Attests(q.verified) && SameRelease(p, q, o)
    requires Fits(p, before) && ProtectedsLive(p, before) && PlannedPatches(p, o).Ok?
    requires Readable(t, q.namespace) && Accounted(p, q.repository.value, o.image, before, t, q.namespace, false)
    requires forall id :: id in before ==> id in t
    ensures AllAccepted(t, PlannedChanges(p, o))
    ensures var u := RunAll(t, PlannedChanges(p, o));
            && Readable(u, q.namespace)
            && RolloutVerifiedAt(p, o.image, u, q.namespace, true)
  {
    var patches := PlannedPatches(p, o).value;
    ReleasePatchesAccount(p, q, inv, before, o);
    PlannedPatchesDistinct(p, o);
    forall patch | patch in patches
      ensures PatchId(patch) in t
    {
      var i :| 0 <= i < |patches| && patches[i] == patch;
    }
    PatchesRun(t, patches);
    var u := RunAll(t, PatchCommands(patches));
    PatchedStaysReadable(p, o, before, t, patches, u, q.namespace);
    LiveAccounted(p, q, inv, before);
    BootstrapsNotThere(p, before);
    RecordedNamespaces(p, q, inv);
    PatchedAccounted(p, q.repository.value, o.image, before, t, patches, u, q.namespace);
    AccountedVerified(p, q, inv, before, o.image, u, true);
  }

  lemma {:induction false} ReleaseChangesFit(p: Plan, q: Request, inv: Inventory, before: State, o: Options)
    requires Records(p, q, inv, before) && Loadable(p) && Attests(q.verified) && SameRelease(p, q, o)
    requires Fits(p, before) && ProtectedsLive(p, before)
    requires PlannedPatches(p, o).Ok? && PlannedCreations(p, o).Ok? && RenderedReadable(o.manifest.value, p)
    ensures CreationsFit(p, o, before, q.namespace)
    ensures ChangesFit(p, o, CreateAll(before, PlannedCreations(p, o).value))
    ensures Readable(RolledOut(p, o, before), q.namespace)
    ensures RolloutVerifiedAt(p, o.image, RolledOut(p, o, before), q.namespace, true)
  {
    var t := CreateAll(before, PlannedCreations(p, o).value);
    ReleaseExtended(p, q, inv, before, o);
    ReleaseBootstrapsPresent(p, o, before, t);
    ReleaseStatuses(p, o);
    ReleaseChanged(p, q, inv, before, o, t);
  }

  lemma {:induction false} ReleaseReady(p: Plan, q: Request, inv: Inventory, before: State, o: Options)
    requires Records(p, q, inv, before) && Loadable(p) && Attests(q.verified) && SameRelease(p, q, o)
    requires Fits(p, before) && ProtectedsLive(p, before)
    requires PlannedPatches(p, o).Ok? && PlannedCreations(p, o).Ok? && RenderedReadable(o.manifest.value, p)
    ensures Ready(p, o, before)
  {
    ReleasePreflight(p, q, inv, before, o);
    ReleaseChangesFit(p, q, inv, before, o);
  }

  /** The manifest suits the plan: each captured workload has one document, which agrees with its namespace, keeps
      its live containers and pins its sidecars; each missing one has one document, which holds its containers and
      names every container and its image. */
  ghost predicate ManifestSuits(p: Plan, o: Options)
    requires o.manifest.Some?
  {
    var manifest := o.manifest.value;
    && (p.deploymentStates != [] ==>
          && AllPatchable(manifest, p, o.image)
          && NoDuplicates(WorkloadsNamed(manifest, p))
          && forall w :: w in StateWorkloadSet(p.deploymentStates) ==> w in WorkloadsNamed(manifest, p))
    && (p.bootstrapTargets != [] ==> CreationsSuit(p, manifest, o.image))
  }

  ghost predicate CreationsSuit(p: Plan, manifest: seq<Json>, image: string) {
    && AllRenderable(manifest, p, image)
    && AllPlacesNamed(manifest, p) == BootstrapPlaceSet(p.bootstrapTargets)
    && NoDuplicates(AllIdsNamed(manifest, p))
    && RenderedReadable(manifest, p)
  }

  lemma {:induction false} NothingRendered(p: Plan, manifest: seq<Json>)
    requires p.bootstrapTargets == []
    ensures RenderedReadable(manifest, p)
  {
  }

  lemma {:induction false} CreationsSuitExactly(p: Plan, o: Options)
    requires IsImageDigest(o.image) && o.manifest.Some?
    ensures PlannedCreations(p, o).Ok? && RenderedReadable(o.manifest.value, p) <==>
              (p.bootstrapTargets != [] ==> CreationsSuit(p, o.manifest.value, o.image))
  {
    RenderBootstrapExactly(p, o.manifest.value, o.image);
    if p.bootstrapTargets == [] {
      NothingRendered(p, o.manifest.value);
    }
  }

  lemma {:induction false} SuitsExactly(p: Plan, o: Options)
    requires OptionsValid(p, o) && o.reconcile
    ensures PlannedPatches(p, o).Ok? && PlannedCreations(p, o).Ok? && RenderedReadable(o.manifest.value, p) <==> ManifestSuits(p, o)
  {
    SpecPatchesExactly(p, o.manifest.value, o.image);
    CreationsSuitExactly(p, o);
  }

  /** Once created, an unreadable document would make the next inventory fail. */
  lemma {:induction false} CreationsReadable(p: Plan, q: Request, inv: Inventory, o: Options, before: State)
    requires Ordered(inv) && Partitions(p, inv, q) && Fits(p, before) && o.manifest.Some?
    requires CreationsFit(p, o, before, q.namespace)
    ensures RenderedReadable(o.manifest.value, p)
  {
    if p.bootstrapTargets == [] {
      NothingRendered(p, o.manifest.value);
    } else {
      var manifest, creations := o.manifest.value, PlannedCreations(p, o).value;
      var t := CreateAll(before, creations);
      RecordedNamespaces(p, q, inv);
      CreationExtends(before, creations);
      forall k | 0 <= k < |manifest| && IsRenderedDocument(manifest[k], p)
        ensures ReadableContainers(ContainersOf(manifest[k]))
      {
        var i := DocumentCreated(p, manifest, o.image, k);
        assert creations[i].id in t && t[creations[i].id] == creations[i].deployment;
        ReadableBack(creations[i], manifest[k], p, o.image);
      }
    }
  }

  lemma {:induction false} ReadableBack(c: Creation, document: Json, p: Plan, image: string)
    requires RenderedFrom(c, document, p, image) && ReadableTemplate(c.deployment.template)
    ensures ReadableContainers(ContainersOf(document))
  {
    var before, after := ContainersOf(document), Containers(c.deployment.template).value;
    forall i | 0 <= i < |before|
      ensures ReadableContainer(before[i]) && Get(before[i], "name") == Get(after[i], "name")
    {
      assert IsRendered(before[i], after[i], Workload(c.id.namespace, Resource(c.id.name)), p, image);
      assert ReadableContainer(after[i]);
    }
  }

  /** Capture, then reconcile with the same manifest and repository: no check on the way can trip, provided the
      manifest suits the plan and the protected containers are pinned; and only then. */
  lemma {:induction false} ReleaseReadyExactly(p: Plan, q: Request, inv: Inventory, before: State, o: Options)
    requires Records(p, q, inv, before) && Loadable(p) && Attests(q.verified) && SameRelease(p, q, o) && Fits(p, before)
    ensures Ready(p, o, before) <==>
              AllPinned(OutsideOf(inv, q), inv) && ManifestSuits(p, o)
  {
    SuitsExactly(p, o);
    ProtectedsPinnedExactly(p, q, inv, before);
    if Ready(p, o, before) {
      PreflightPinsProtecteds(p, o, q, inv, before);
      OnlyCaptured(p, q, inv);
      CreationsReadable(p, q, inv, o, before);
    } else if AllPinned(OutsideOf(inv, q), inv) && ManifestSuits(p, o) {
      ReleaseReady(p, q, inv, before, o);
    }
  }

  /** What the live namespace looks like after a verified rollout: the repository runs in exactly the containers
      the plan knows, at the new image, or at the captured one where the plan protects them. */
  lemma {:induction false} VerifiedRepository(p: Plan, image: string, s: State, namespace: string, ident: Ident)
    requires WellFormed(p) && RolloutVerifiedAt(p, image, s, namespace, true)
    ensures (ImageAt(s, namespace, ident).Some? && ImageRepository(ImageAt(s, namespace, ident).value) == ImageRepository(image)) <==>
              IsTarget(p, ident) || IsBootstrap(p, ident) || IsProtected(p, ident)
    ensures IsTarget(p, ident) || IsBootstrap(p, ident) ==> ImageAt(s, namespace, ident) == Some(image)
    ensures IsProtected(p, ident) ==>
              exists t :: t in p.protectedTargets && ProtectedIdentOf(t) == ident && ImageAt(s, namespace, ident) == Some(t.image)
  {
    if i :| 0 <= i < |p.protectedTargets| && ProtectedIdentOf(p.protectedTargets[i]) == ident {
      assert p.protectedTargets[i] in p.protectedTargets;
      assert ImageRepository(p.protectedTargets[i].image) == ImageRepository(image);
    }
  }

  /** The whole release: a rollout that nothing disturbs returns normally exactly under the condition above, and
      then the cluster shows the plan and nothing else of the repository. */
  method ReleaseRun(w: World, p: Plan, o: Options, ghost q: Request, ghost items: seq<Item>)
    returns (r: Result<()>, ghost inv: Inventory, ghost deadline: real)
    requires w.Valid() && CapturedFrom(p, q, items, w.cluster) && Admissible(w.cluster, q.namespace) && SameRelease(p, q, o)
    modifies w
    ensures w.Valid() && old(w.log) <= w.log && old(w.history) <= w.history
    ensures LiveImages(items) == Ok(inv) && Ordered(inv)
    ensures Begins(w.log, |old(w.log)|, old(w.clock), o.timeout, deadline)
    ensures Disciplined(w.history, w.log, |old(w.log)|, p, o, deadline)
    ensures UndisturbedSince(w.log, |old(w.log)|) ==>
              (r.Ok? <==> AllPinned(OutsideOf(inv, q), inv) && ManifestSuits(p, o))
    ensures r.Ok? ==> Confirmed(w.log, |old(w.log)|, p, o)
    ensures r.Ok? ==> Ends(p, o, old(w.cluster), w.cluster) && RolloutVerifiedAt(p, o.image, w.cluster, q.namespace, true)
  {
    inv := CapturedRecords(p, q, items, w.cluster);
    CapturedFitsExactly(p, q, inv, w.cluster);
    ReleaseReadyExactly(p, q, inv, w.cluster, o);
    OnlyCaptured(p, q, inv);
    ghost var before := w.cluster;
    r, deadline := RollOut(w, p, o);
    if r.Ok? {
      EndedSuits(p, q, inv, before, o, w.cluster);
    }
  }

  lemma {:induction false} EndedSuits(p: Plan, q: Request, inv: Inventory, before: State, o: Options, end: State)
    requires Records(p, q, inv, before) && Attests(q.verified) && SameRelease(p, q, o) && Fits(p, before)
    requires PreflightHolds(p, o, before) && Ends(p, o, before, end)
    ensures AllPinned(OutsideOf(inv, q), inv) && ManifestSuits(p, o)
  {
    OnlyCaptured(p, q, inv);
    SuitsExactly(p, o);
    ProtectedsPinnedExactly(p, q, inv, before);
    PreflightPinsProtecteds(p, o, q, inv, before);
    CreationsReadable(p, q, inv, o, before);
  }
}
