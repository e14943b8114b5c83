/** Capture followed by an undisturbed rollout of the other kind, which only sets images. */
module ImageReleases {
  import opened Basics
  import opened JsonTrees
  import opened Images
  import opened Clusters
  import opened Inventories
  import opened Manifests
  import opened Plans
  import opened Capture
  import opened CaptureFacts
  import opened RollbackSemantics
  import opened Rollback
  import opened RolloutPlanning
  import opened ImageWaves
  import opened Rollout
  import opened Restoration
  import opened Protocol
  import opened Releases
  import opened ReleaseRuns

  // ---- setting images ----

  function SlotIdent(slot: Slot): Ident {
    Ident(slot.id.name, slot.container)
  }

  predicate HasSlot(slots: seq<Slot>, ident: Ident) {
    exists i :: 0 <= i < |slots| && SlotIdent(slots[i]) == ident
  }

  /** Every container to be set is live, and all of them are in one readable namespace. */
  ghost predicate SlotsLive(s: State, namespace: string, slots: seq<Slot>) {
    && Readable(s, namespace)
    && forall i :: 0 <= i < |slots| ==>
         slots[i].id.namespace == namespace && ImageAt(s, namespace, SlotIdent(slots[i])).Some?
  }

  /** The containers with a slot show the image, and all others what they showed before. */
  ghost predicate ImagesShown(s: State, namespace: string, slots: seq<Slot>, image: string, t: State) {
    && Readable(t, namespace)
    && forall ident :: ImageAt(t, namespace, ident) == if HasSlot(slots, ident) then Some(image) else ImageAt(s, namespace, ident)
  }

  lemma {:induction false} OneImage(s: State, namespace: string, slot: Slot, image: string)
    requires SlotsLive(s, namespace, [slot])
    ensures Accepts(s, SetImageOf(slot, image))
    ensures ImagesShown(s, namespace, [slot], image, Effect(s, SetImageOf(slot, image)))
  {
    assert [slot][0] == slot && ImageAt(s, namespace, SlotIdent(slot)).Some?;
    var template, images := s[slot.id].template, map[slot.container := image];
    var containers := Containers(template).value;
    HasImage(containers, slot.container);
    PinnedReadable(containers, images);
    var t := Effect(s, SetImageOf(slot, image));
    assert t[slot.id].template == PinTemplate(template, images);
    forall ident
      ensures ImageAt(t, namespace, ident) == if HasSlot([slot], ident) then Some(image) else ImageAt(s, namespace, ident)
    {
      PinnedImage(containers, images, ident.container);
      assert HasSlot([slot], ident) <==> SlotIdent([slot][0]) == ident;
    }
  }

  lemma {:induction false} ImagesRun(s: State, namespace: string, slots: seq<Slot>, image: string)
    requires SlotsLive(s, namespace, slots)
    ensures AllAccepted(s, ImageCommandsFor(slots, image))
    ensures ImagesShown(s, namespace, slots, image, RunAll(s, ImageCommandsFor(slots, image)))
    decreases |slots|
  {
    if slots != [] {
      var first, rest := slots[0], slots[1..];
      OneImage(s, namespace, first, image);
      var t := Effect(s, SetImageOf(first, image));
      assert forall i :: 0 <= i < |rest| ==> rest[i] == slots[i + 1];
      ImagesRun(t, namespace, rest, image);
      assert ImageCommandsFor(slots, image)[1..] == ImageCommandsFor(rest, image);
      FirstSlot(slots);
    }
  }

  lemma {:induction false} FirstSlot(slots: seq<Slot>)
    requires slots != []
    ensures forall ident :: HasSlot(slots, ident) <==> HasSlot([slots[0]], ident) || HasSlot(slots[1..], ident)
  {
    forall ident
      ensures HasSlot(slots, ident) <==> HasSlot([slots[0]], ident) || HasSlot(slots[1..], ident)
    {
      assert [slots[0]][0] == slots[0];
      assert forall i :: 0 <= i < |slots[1..]| ==> slots[1..][i] == slots[i + 1];
      assert forall i :: 0 < i < |slots| ==> slots[i] == slots[1..][i - 1];
    }
  }

  // ---- the rollout ----

  /** The repository the plan was captured with, and, where something is to be created, the manifest as well. A capture
      expects something, whether it asked a manifest or a repository. */
  ghost predicate SameImages(p: Plan, q: Request, o: Options) {
    && OptionsValid(p, o) && !o.reconcile && q.expected != []
    && q.repository.Some? && ImageRepository(o.image) == Ok(q.repository.value)
    && (o.manifest.Some? && p.bootstrapTargets != [] ==> SameManifest(q, o))
  }

  /** What has to be created can be. */
  ghost predicate Creatable(p: Plan, o: Options) {
    p.bootstrapTargets != [] ==> o.manifest.Some? && CreationsSuit(p, o.manifest.value, o.image)
  }

  lemma {:induction false} CreatableExactly(p: Plan, o: Options)
    requires OptionsValid(p, o)
    ensures Creatable(p, o) <==>
              PlannedCreations(p, o).Ok? && (p.bootstrapTargets != [] ==> RenderedReadable(o.manifest.value, p))
  {
    if o.manifest.Some? {
      CreationsSuitExactly(p, o);
    }
  }

  lemma {:induction false} SlotAt(p: Plan, i: nat)
    requires i < |RolloutSlots(p)|
    ensures i < |p.targets| ==>
              && SlotIdent(RolloutSlots(p)[i]) == TargetIdentOf(p.targets[i])
              && RolloutSlots(p)[i].id.namespace == p.targets[i].namespace
    ensures i >= |p.targets| ==>
              && i - |p.targets| < |p.bootstrapTargets|
              && SlotIdent(RolloutSlots(p)[i]) == BootstrapIdentOf(p.bootstrapTargets[i - |p.targets|])
              && RolloutSlots(p)[i].id.namespace == p.bootstrapTargets[i - |p.targets|].namespace
  {
  }

  lemma {:induction false} SlotIsKnown(p: Plan, ident: Ident)
    ensures HasSlot(RolloutSlots(p), ident) <==> IsTarget(p, ident) || IsBootstrap(p, ident)
  {
    if i :| 0 <= i < |RolloutSlots(p)| && SlotIdent(RolloutSlots(p)[i]) == ident {
      SlotAt(p, i);
    }
    if i :| 0 <= i < |p.targets| && TargetIdentOf(p.targets[i]) == ident {
      SlotAt(p, i);
    }
    if i :| 0 <= i < |p.bootstrapTargets| && BootstrapIdentOf(p.bootstrapTargets[i]) == ident {
      SlotAt(p, |p.targets| + i);
    }
  }

  /** With nothing to create, the captured cluster itself is accounted for. */
  lemma {:induction false} LiveIsAccounted(p: Plan, q: Request, inv: Inventory, before: State, image: string)
    requires Records(p, q, inv, before) && WellFormed(p) && Attests(q.verified) && q.repository.Some? && p.bootstrapTargets == []
    ensures Accounted(p, q.repository.value, image, before, before, q.namespace, false)
  {
    LiveAccounted(p, q, inv, before);
    forall ident
      ensures Known(p, q.repository.value, ident, ImageAt(before, q.namespace, ident))
    {
      LiveKnown(p, q, inv, before, q.repository.value, ident);
    }
  }

  lemma {:induction false} ImagesUnextended(p: Plan, q: Request, inv: Inventory, before: State, o: Options)
    requires Records(p, q, inv, before) && WellFormed(p) && Attests(q.verified) && SameImages(p, q, o)
    requires p.bootstrapTargets == []
    ensures CreationsFit(p, o, before, q.namespace) && CreateAll(before, PlannedCreations(p, o).value) == before
    ensures Accounted(p, q.repository.value, o.image, before, before, q.namespace, false)
  {
    LiveIsAccounted(p, q, inv, before, o.image);
    NothingCreated(p, o, before, q.namespace);
  }

  lemma {:induction false} NothingCreated(p: Plan, o: Options, s: State, namespace: string)
    requires p.bootstrapTargets == []
    ensures CreationsFit(p, o, s, namespace) && CreateAll(s, PlannedCreations(p, o).value) == s
  {
  }

  /** Before any image is set: everything is accounted for, and the check passes. */
  lemma {:induction false} ImagesExtended(p: Plan, q: Request, inv: Inventory, before: State, o: Options)
    requires Records(p, q, inv, before) && WellFormed(p) && Attests(q.verified) && SameImages(p, q, o) && Creatable(p, o)
    requires Fits(p, before) && ProtectedsLive(p, before)
    ensures CreationsFit(p, o, before, q.namespace)
    ensures var t := CreateAll(before, PlannedCreations(p, o).value);
            Readable(t, q.namespace) && Accounted(p, q.repository.value, o.image, before, t, q.namespace, false)
  {
    CreatableExactly(p, o);
    if p.bootstrapTargets == [] {
      ImagesUnextended(p, q, inv, before, o);
    } else {
      ReleaseExtended(p, q, inv, before, o);
    }
  }

  lemma {:induction false} AccountedSlots(p: Plan, q: Request, inv: Inventory, before: State, image: string, t: State)
    requires Ordered(inv) && Partitions(p, inv, q) && q.repository.Some?
    requires Readable(t, q.namespace) && Accounted(p, q.repository.value, image, before, t, q.namespace, false)
    ensures SlotsLive(t, q.namespace, RolloutSlots(p))
  {
    RecordedNamespaces(p, q, inv);
    forall i | 0 <= i < |RolloutSlots(p)|
      ensures RolloutSlots(p)[i].id.namespace == q.namespace && ImageAt(t, q.namespace, SlotIdent(RolloutSlots(p)[i])).Some?
    {
      SlotAt(p, i);
    }
  }

  lemma {:induction false} ProtectedHasNoSlot(p: Plan, q: Request, inv: Inventory, before: State, i: nat)
    requires Records(p, q, inv, before) && WellFormed(p) && Fits(p, before) && i < |p.protectedTargets|
    ensures !HasSlot(RolloutSlots(p), ProtectedIdentOf(p.protectedTargets[i]))
  {
    var ident := ProtectedIdentOf(p.protectedTargets[i]);
    SlotIsKnown(p, ident);
    LiveAccounted(p, q, inv, before);
    BootstrapsNotThere(p, before);
    RecordedNamespaces(p, q, inv);
    forall k | 0 <= k < |p.bootstrapTargets|
      ensures BootstrapIdentOf(p.bootstrapTargets[k]) != ident
    {
      assert BootstrapSlot(p.bootstrapTargets[k]).id == Id(q.namespace, BootstrapIdentOf(p.bootstrapTargets[k]).deployment);
    }
  }

  /** Once all images are set: everything is accounted for, the targets at the new image as well. */
  lemma {:induction false} ImagesAccounted(p: Plan, q: Request, inv: Inventory, before: State, image: string, t: State, u: State)
    requires Records(p, q, inv, before) && WellFormed(p) && Fits(p, before)
    requires q.repository.Some? && ImageRepository(image) == Ok(q.repository.value)
    requires Accounted(p, q.repository.value, image, before, t, q.namespace, false)
    requires ImagesShown(t, q.namespace, RolloutSlots(p), image, u)
    ensures Accounted(p, q.repository.value, image, before, u, q.namespace, true)
  {
    forall ident
      ensures Known(p, q.repository.value, ident, ImageAt(u, q.namespace, ident))
      ensures IsTarget(p, ident) || IsBootstrap(p, ident) ==> ImageAt(u, q.namespace, ident) == Some(image)
    {
      SlotIsKnown(p, ident);
    }
    forall i | 0 <= i < |p.protectedTargets|
      ensures ImageAt(u, q.namespace, ProtectedIdentOf(p.protectedTargets[i])) == ImageAt(before, q.namespace, ProtectedIdentOf(p.protectedTargets[i]))
    {
      ProtectedHasNoSlot(p, q, inv, before, i);
    }
    assert forall i :: 0 <= i < |p.targets| ==> IsTarget(p, TargetIdentOf(p.targets[i]));
    assert forall i :: 0 <= i < |p.bootstrapTargets| ==> IsBootstrap(p, BootstrapIdentOf(p.bootstrapTargets[i]));
  }

  lemma {:induction false} ImagesPreflight(p: Plan, q: Request, inv: Inventory, before: State, o: Options)
    requires Records(p, q, inv, before) && WellFormed(p) && Attests(q.verified) && SameImages(p, q, o)
    requires Fits(p, before) && ProtectedsLive(p, before)
    ensures PreflightHolds(p, o, before) && Only(RolloutNamespaces(p)) == Ok(q.namespace)
  {
    SomethingToRollOut(p, q, inv);
    OnlyCaptured(p, q, inv);
    RecordedNamespaces(p, q, inv);
    LiveAccounted(p, q, inv, before);
    BeforeAccounted(p, q, inv, before, o.image);
    NothingOfBootstraps(p, before, q.namespace);
  }

  lemma {:induction false} ImagesReady(p: Plan, q: Request, inv: Inventory, before: State, o: Options)
    requires Records(p, q, inv, before) && WellFormed(p) && Attests(q.verified) && SameImages(p, q, o) && Creatable(p, o)
    requires Fits(p, before) && ProtectedsLive(p, before)
    ensures Ready(p, o, before)
  {
    ImagesPreflight(p, q, inv, before, o);
    ImagesExtended(p, q, inv, before, o);
    var t := CreateAll(before, PlannedCreations(p, o).value);
    AccountedSlots(p, q, inv, before, o.image, t);
    ImagesRun(t, q.namespace, RolloutSlots(p), o.image);
    var u := RunAll(t, ImageCommandsFor(RolloutSlots(p), o.image));
    ImagesAccounted(p, q, inv, before, o.image, t, u);
    AccountedVerified(p, q, inv, before, o.image, u, true);
  }

  lemma {:induction false} ReadyCreatable(p: Plan, q: Request, inv: Inventory, before: State, o: Options)
    requires Records(p, q, inv, before) && Attests(q.verified) && SameImages(p, q, o) && Fits(p, before)
    requires Ready(p, o, before)
    ensures AllPinned(OutsideOf(inv, q), inv) && Creatable(p, o)
  {
    OnlyCaptured(p, q, inv);
    EndedCreatable(p, q, inv, before, o);
  }

  /** Capture, then set the images of the same repository: no check on the way can trip, provided the protected
      containers are pinned and what is missing can be created; and only then. */
  lemma {:induction false} ImagesReadyExactly(p: Plan, q: Request, inv: Inventory, before: State, o: Options)
    requires Records(p, q, inv, before) && WellFormed(p) && Attests(q.verified) && SameImages(p, q, o) && Fits(p, before)
    ensures Ready(p, o, before) <==> AllPinned(OutsideOf(inv, q), inv) && Creatable(p, o)
  {
    ProtectedsPinnedExactly(p, q, inv, before);
    if Ready(p, o, before) {
      ReadyCreatable(p, q, inv, before, o);
    } else if AllPinned(OutsideOf(inv, q), inv) && Creatable(p, o) {
      ImagesReady(p, q, inv, before, o);
    }
  }

  lemma {:induction false} EndedCreatable(p: Plan, q: Request, inv: Inventory, before: State, o: Options)
    requires Records(p, q, inv, before) && Attests(q.verified) && SameImages(p, q, o) && Fits(p, before)
    requires PreflightHolds(p, o, before) && CreationsFit(p, o, before, q.namespace) && Only(RolloutNamespaces(p)) == Ok(q.namespace)
    ensures AllPinned(OutsideOf(inv, q), inv) && Creatable(p, o)
  {
    ProtectedsPinnedExactly(p, q, inv, before);
    PreflightPinsProtecteds(p, o, q, inv, before);
    CreatableExactly(p, o);
    if p.bootstrapTargets != [] {
      CreationsReadable(p, q, inv, o, before);
    }
  }

  /** The whole release by setting images: a rollout that nothing disturbs returns normally exactly under the condition
      above, and then the repository is verified at the new image. */
  method ImageRelease(w: World, p: Plan, o: Options, ghost q: Request, ghost items: seq<Item>)
    returns (r: Result<()>, ghost inv: Inventory, ghost deadline: real)
    requires w.Valid() && CapturedFrom(p, q, items, w.cluster) && Admissible(w.cluster, q.namespace) && SameImages(p, q, o)
    modifies w
    ensures w.Valid() && old(w.log) <= w.log && old(w.history) <= w.history
    ensures LiveImages(items) == Ok(inv) && Ordered(inv)
    ensures Begins(w.log, |old(w.log)|, old(w.clock), o.timeout, deadline)
    ensures Disciplined(w.history, w.log, |old(w.log)|, p, o, deadline)
    ensures UndisturbedSince(w.log, |old(w.log)|) ==>
              (r.Ok? <==> AllPinned(OutsideOf(inv, q), inv) && Creatable(p, o))
    ensures r.Ok? ==> Confirmed(w.log, |old(w.log)|, p, o)
    ensures r.Ok? ==> Ends(p, o, old(w.cluster), w.cluster) && RolloutVerifiedAt(p, o.image, w.cluster, q.namespace, true)
  {
    inv := CapturedRecords(p, q, items, w.cluster);
    CapturedFitsExactly(p, q, inv, w.cluster);
    ImagesReadyExactly(p, q, inv, w.cluster, o);
    OnlyCaptured(p, q, inv);
    ghost var before := w.cluster;
    r, deadline := RollOut(w, p, o);
    if r.Ok? {
      EndedCreatable(p, q, inv, before, o);
    }
  }
}
