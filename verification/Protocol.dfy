/** Capture, rollout and rollback together. */
module Protocol {
  import opened Basics
  import opened JsonTrees
  import opened Images
  import opened Clusters
  import opened Inventories
  import opened Manifests
  import opened Plans
  import opened Capture
  import opened CaptureFacts
  import opened CapturedPlans
  import opened RollbackSemantics
  import opened Rollback
  import opened RolloutPlanning
  import opened PatchFacts
  import opened ImageWaves
  import opened Rollout
  import opened Interruption
  import opened Restoration

  /** The plan was captured from this cluster and survives its file. */
  ghost predicate CapturedFrom(p: Plan, q: Request, items: seq<Item>, before: State) {
    && IsListing(items, before, q.namespace)
    && NoDuplicates(q.expected)
    && Attests(q.verified)
    && PlanOf(q, items) == Ok(p)
    && Loadable(p)
  }

  /** What the API server itself enforces: a Deployment has a valid name and at least one container. */
  ghost predicate Admissible(s: State, namespace: string) {
    forall id :: id in s && id.namespace == namespace ==>
      IsKubernetesName(id.name) && Containers(s[id].template).Some? && Containers(s[id].template).value != []
  }

  ghost predicate StatesFit(p: Plan, before: State) {
    forall i :: 0 <= i < |p.deploymentStates| ==>
      var state := p.deploymentStates[i];
      StateId(state) in before && before[StateId(state)] == Deployment(state.strategy, state.template)
  }

  /** What a capture establishes, in terms of the inventory it read. */
  ghost predicate Records(p: Plan, q: Request, inv: Inventory, before: State) {
    && Ordered(inv)
    && Readable(before, q.namespace) && Shows(inv.images, before, q.namespace)
    && Partitions(p, inv, q)
    && StatesFit(p, before)
  }

  lemma {:induction false} CapturedRecords(p: Plan, q: Request, items: seq<Item>, before: State) returns (inv: Inventory)
    requires CapturedFrom(p, q, items, before)
    ensures LiveImages(items) == Ok(inv) && Records(p, q, inv, before)
  {
    PlanPartitions(q, items);
    ListingShowsCluster(items, before, q.namespace);
    inv := LiveImages(items).value;
    CapturedStates(p, q, items, before);
  }

  lemma {:induction false} CapturedStates(p: Plan, q: Request, items: seq<Item>, before: State)
    requires IsListing(items, before, q.namespace) && PlanOf(q, items) == Ok(p)
    ensures StatesFit(p, before)
  {
    var r, resources := PlanStates(q, items);
    PlanCoversTargets(q, items);
    forall i | 0 <= i < |p.deploymentStates|
      ensures var state := p.deploymentStates[i];
              StateId(state) in before && before[StateId(state)] == Deployment(state.strategy, state.template)
    {
      var state := p.deploymentStates[i];
      var k :| 0 <= k < |items| && items[k] == Item(NameOf(state.resource), Deployment(state.strategy, state.template));
    }
  }

  lemma {:induction false} RecordedTarget(p: Plan, q: Request, inv: Inventory, before: State, i: nat) returns (ident: Ident)
    requires Records(p, q, inv, before) && i < |p.targets|
    ensures i < |LiveAmong(q.expected, inv)| && ident == LiveAmong(q.expected, inv)[i]
    ensures ident in inv.images && Recorded(inv.images[ident], q.verified).Some?
    ensures p.targets[i] == TargetOf(ident, inv, q)
    ensures TargetIdent(p.targets[i].resource, p.targets[i].container) == ident
    ensures IdOf(TargetWorkload(p.targets[i])) == Id(q.namespace, ident.deployment)
    ensures ImageAt(before, q.namespace, ident) == Some(inv.images[ident])
  {
    ident := LiveAmong(q.expected, inv)[i];
    NameOfResource(ident.deployment);
  }

  lemma {:induction false} RecordedBootstrap(p: Plan, q: Request, inv: Inventory, before: State, i: nat) returns (ident: Ident)
    requires Records(p, q, inv, before) && i < |p.bootstrapTargets|
    ensures i < |AbsentAmong(q.expected, inv)| && ident == AbsentAmong(q.expected, inv)[i]
    ensures ident in q.expected && ident !in inv.images && !IsLiveDeployment(inv, ident.deployment)
    ensures p.bootstrapTargets[i] == BootstrapOf(ident, q)
    ensures NameOf(p.bootstrapTargets[i].resource) == ident.deployment
  {
    ident := AbsentAmong(q.expected, inv)[i];
    NameOfResource(ident.deployment);
    LiveAmongMeaning(q.expected, inv);
    assert ident in AbsentAmong(q.expected, inv);
    var k :| 0 <= k < |q.expected| && q.expected[k] == ident;
    assert Capturable(q.expected[k], inv, q);
  }

  lemma {:induction false} RecordedProtected(p: Plan, q: Request, inv: Inventory, before: State, i: nat) returns (ident: Ident)
    requires Records(p, q, inv, before) && i < |p.protectedTargets|
    ensures i < |OutsideOf(inv, q)| && ident == OutsideOf(inv, q)[i]
    ensures ident in inv.images && Recorded(inv.images[ident], q.verified).Some?
    ensures p.protectedTargets[i] == ProtectedOf(ident, inv, q)
    ensures TargetIdent(p.protectedTargets[i].resource, p.protectedTargets[i].container) == ident
    ensures ImageAt(before, q.namespace, ident) == Some(inv.images[ident])
  {
    ident := OutsideOf(inv, q)[i];
    NameOfResource(ident.deployment);
  }

  // ---- a captured plan fits its cluster ----

  lemma {:induction false} TargetFits(p: Plan, q: Request, inv: Inventory, before: State, i: nat)
    requires Records(p, q, inv, before) && i < |p.targets|
    ensures var id := IdOf(TargetWorkload(p.targets[i]));
            && id in before
            && ReadableTemplate(before[id].template)
            && HasContainer(Containers(before[id].template).value, p.targets[i].container)
  {
    var ident := RecordedTarget(p, q, inv, before, i);
    HasImage(Containers(before[Id(q.namespace, ident.deployment)].template).value, ident.container);
  }

  lemma {:induction false} LiveIfThere(inv: Inventory, before: State, id: Id)
    requires Readable(before, id.namespace) && Shows(inv.images, before, id.namespace) && Admissible(before, id.namespace)
    requires id in before
    ensures IsLiveDeployment(inv, id.name)
  {
    var containers := Containers(before[id].template).value;
    assert ReadableTemplate(before[id].template);
    ImageOfContainer(containers, 0);
    var ident := Ident(id.name, Get(containers[0], "name").text);
    assert ImageAt(before, id.namespace, ident).Some?;
    assert ident in inv.images;
  }

  lemma {:induction false} BootstrapNotThere(p: Plan, q: Request, inv: Inventory, before: State, i: nat)
    requires Records(p, q, inv, before) && i < |p.bootstrapTargets| && Admissible(before, q.namespace)
    ensures Id(p.bootstrapTargets[i].namespace, NameOf(p.bootstrapTargets[i].resource)) !in before
  {
    var ident := RecordedBootstrap(p, q, inv, before, i);
    if Id(q.namespace, ident.deployment) in before {
      LiveIfThere(inv, before, Id(q.namespace, ident.deployment));
    }
  }

  /** A captured plan fits its cluster as soon as none of the workloads it would create exists, even empty. */
  lemma {:induction false} CapturedFitsExactly(p: Plan, q: Request, inv: Inventory, before: State)
    requires Records(p, q, inv, before)
    ensures Fits(p, before) <==> forall id :: IsBootstrapId(p, id) ==> id !in before
    ensures Admissible(before, q.namespace) ==> Fits(p, before)
  {
    forall i | 0 <= i < |p.targets|
      ensures var id := IdOf(TargetWorkload(p.targets[i]));
              && id in before
              && ReadableTemplate(before[id].template)
              && HasContainer(Containers(before[id].template).value, p.targets[i].container)
    {
      TargetFits(p, q, inv, before, i);
    }
    if Admissible(before, q.namespace) {
      forall i | 0 <= i < |p.bootstrapTargets|
        ensures Id(p.bootstrapTargets[i].namespace, NameOf(p.bootstrapTargets[i].resource)) !in before
      {
        BootstrapNotThere(p, q, inv, before, i);
      }
    }
  }

  // ---- digest-pinned captures ----

  predicate AllPinned(idents: seq<Ident>, inv: Inventory) {
    forall i :: 0 <= i < |idents| ==> idents[i] in inv.images && IsImageDigest(inv.images[idents[i]])
  }

  lemma {:induction false} TargetsPinnedExactly(p: Plan, q: Request, inv: Inventory, before: State)
    requires Records(p, q, inv, before) && Attests(q.verified)
    ensures TargetsLive(p, before) <==>
            AllPinned(LiveAmong(q.expected, inv), inv)
  {
    var live := LiveAmong(q.expected, inv);
    assert |live| == |p.targets|;
    forall i | 0 <= i < |live|
      ensures live[i] in inv.images
      ensures TargetLive(p.targets[i], before) <==> IsImageDigest(inv.images[live[i]])
    {
      var ident := RecordedTarget(p, q, inv, before, i);
    }
  }

  lemma {:induction false} ProtectedsPinnedExactly(p: Plan, q: Request, inv: Inventory, before: State)
    requires Records(p, q, inv, before) && Attests(q.verified)
    ensures ProtectedsLive(p, before) <==> AllPinned(OutsideOf(inv, q), inv)
  {
    var outside := OutsideOf(inv, q);
    assert |outside| == |p.protectedTargets|;
    forall i | 0 <= i < |outside|
      ensures outside[i] in inv.images
      ensures ProtectedLive(p.protectedTargets[i], before) <==> IsImageDigest(inv.images[outside[i]])
    {
      var ident := RecordedProtected(p, q, inv, before, i);
    }
  }

  // ---- the one namespace ----

  lemma {:induction false} RecordedNamespaces(p: Plan, q: Request, inv: Inventory)
    requires Ordered(inv) && Partitions(p, inv, q)
    ensures forall i :: 0 <= i < |p.targets| ==> p.targets[i].namespace == q.namespace
    ensures forall i :: 0 <= i < |p.bootstrapTargets| ==> p.bootstrapTargets[i].namespace == q.namespace
    ensures forall i :: 0 <= i < |p.protectedTargets| ==> p.protectedTargets[i].namespace == q.namespace
  {
  }

  lemma {:induction false} InspectedNamespaces(p: Plan, q: Request, inv: Inventory)
    requires Ordered(inv) && Partitions(p, inv, q)
    ensures forall namespace :: namespace in VerifiedNamespaces(p) || namespace in BootstrapNamespaces(p) ==> namespace == q.namespace
  {
    RecordedNamespaces(p, q, inv);
  }

  /** A captured plan rolls out in the one namespace it was captured from. */
  lemma {:induction false} OnlyCaptured(p: Plan, q: Request, inv: Inventory)
    requires Ordered(inv) && Partitions(p, inv, q)
    ensures Only(RolloutNamespaces(p)).Ok? <==> p.targets != [] || p.bootstrapTargets != []
    ensures Only(RolloutNamespaces(p)).Ok? ==> Only(RolloutNamespaces(p)).value == q.namespace
  {
    RecordedNamespaces(p, q, inv);
    OnlyOne(p, q.namespace);
  }

  lemma {:induction false} OnlyOne(p: Plan, namespace: string)
    requires forall i :: 0 <= i < |p.targets| ==> p.targets[i].namespace == namespace
    requires forall i :: 0 <= i < |p.bootstrapTargets| ==> p.bootstrapTargets[i].namespace == namespace
    ensures Only(RolloutNamespaces(p)).Ok? <==> p.targets != [] || p.bootstrapTargets != []
    ensures Only(RolloutNamespaces(p)).Ok? ==> Only(RolloutNamespaces(p)).value == namespace
  {
    var slots := RolloutSlots(p);
    forall i | 0 <= i < |slots|
      ensures slots[i].id.namespace == namespace
    {
      if i >= |p.targets| {
        assert slots[i] == BootstrapSlot(p.bootstrapTargets[i - |p.targets|]);
      }
    }
    OnlyMeaning(RolloutNamespaces(p));
    if slots != [] {
      assert slots[0] in slots;
      assert RolloutNamespaces(p) == {namespace};
    } else {
      assert RolloutNamespaces(p) == {};
    }
  }

  // ---- the headline ----

  lemma {:induction false} CapturedSummary(p: Plan, q: Request, items: seq<Item>, before: State) returns (inv: Inventory)
    requires CapturedFrom(p, q, items, before) && Admissible(before, q.namespace)
    ensures LiveImages(items) == Ok(inv) && Ordered(inv)
    ensures Fits(p, before) && NamespacesInspectable(p, before)
    ensures Restored(p, before) == before <==> AllPinned(LiveAmong(q.expected, inv), inv)
    ensures ProtectedsLive(p, before) <==> AllPinned(OutsideOf(inv, q), inv)
  {
    inv := CapturedRecords(p, q, items, before);
    CapturedFitsExactly(p, q, inv, before);
    TargetsPinnedExactly(p, q, inv, before);
    ProtectedsPinnedExactly(p, q, inv, before);
    InspectedNamespaces(p, q, inv);
    RestoredIsBeforeExactly(p, before);
  }

  function RepositoryOf(managed: Managed): Option<string> {
    if managed.ByRepository? then Some(managed.repository) else None
  }

  /** The containers of the manifest or, for a repository with no manifest, the live ones. */
  function ExpectedFor(items: seq<Item>, manifest: Option<seq<Json>>, managed: Managed): Result<seq<Ident>> {
    if managed.AllContainers? || (manifest.None? && managed.ByImage?) then Err
    else if manifest.Some? then ExpectedContainers(manifest.value, managed)
    else
      var inv :- LiveImages(items);
      InventoryOrdered(items);
      ExpectedRepositoryContainers(inv, managed.repository)
  }

  /** What a capture makes of a listing: the plan, as the next script reads it back from its file. */
  function CaptureOf(
    items: seq<Item>, namespace: string, sha: string, manifest: Option<seq<Json>>, managed: Managed, attestations: seq<string>):
    Result<Plan>
  {
    var verified :- AddAttestations(map[], attestations);
    var expected :- ExpectedFor(items, manifest, managed);
    var p :- PlanOf(Capture.Request(expected, namespace, sha, verified, RepositoryOf(managed)), items);
    LoadPlan(WritePlan(p))
  }

  lemma {:induction false} ExpectedOnce(items: seq<Item>, manifest: Option<seq<Json>>, managed: Managed)
    requires ExpectedFor(items, manifest, managed).Ok?
    ensures NoDuplicates(ExpectedFor(items, manifest, managed).value)
  {
    if manifest.None? {
      InventoryOrdered(items);
      InRepositoryMeaning(LiveImages(items).value.order, LiveImages(items).value, managed.repository);
    }
  }

  /** A capture that yields a plan has the parts the other scripts rely on. */
  lemma {:induction false} CaptureMeaning(
    items: seq<Item>, namespace: string, sha: string, manifest: Option<seq<Json>>, managed: Managed, attestations: seq<string>,
    before: State) returns (q: Request)
    requires IsListing(items, before, namespace)
    requires CaptureOf(items, namespace, sha, manifest, managed, attestations).Ok?
    ensures CapturedFrom(CaptureOf(items, namespace, sha, manifest, managed, attestations).value, q, items, before)
    ensures q.namespace == namespace && q.repository == RepositoryOf(managed)
    ensures ExpectedFor(items, manifest, managed) == Ok(q.expected) && AddAttestations(map[], attestations) == Ok(q.verified)
  {
    var verified, expected := AddAttestations(map[], attestations).value, ExpectedFor(items, manifest, managed).value;
    q := Capture.Request(expected, namespace, sha, verified, RepositoryOf(managed));
    AttestationsMeaning(map[], attestations);
    ExpectedOnce(items, manifest, managed);
    PlanRoundTrip(PlanOf(q, items).value);
  }

  /** `capture`, and the plan as the next script reads it back. Nothing is changed, and nothing but a failed command
      or check keeps the plan from being written. */
  method CapturePlan(
    w: World, context: string, namespace: string, sha: string, manifest: Option<seq<Json>>, managed: Managed, attestations: seq<string>)
    returns (r: Result<Plan>, ghost q: Request, ghost items: seq<Item>)
    requires w.Valid()
    modifies w
    ensures w.Valid() && old(w.log) <= w.log && old(w.history) <= w.history && w.cluster == old(w.cluster)
    ensures w.log == old(w.log) || ReadsForCapture(w.log, |old(w.log)|, namespace)
    ensures FaultlessSince(w.log, |old(w.log)|) && ValidContext(context) && AddAttestations(map[], attestations).Ok? ==>
              && IsListing(items, w.cluster, namespace)
              && r == CaptureOf(items, namespace, sha, manifest, managed, attestations)
    ensures r.Ok? ==>
              && ValidContext(context) && |w.log| == |old(w.log)| + 2 && AllDoneSince(w.log, |old(w.log)|)
              && CapturedFrom(r.value, q, items, w.cluster)
              && q.namespace == namespace && q.repository == RepositoryOf(managed)
              && ExpectedFor(items, manifest, managed) == Ok(q.expected) && AddAttestations(map[], attestations) == Ok(q.verified)
  {
    q, items := Capture.Request([], namespace, sha, map[], None), [];
    var verified := ParseVerifiedLiveImages(attestations);
    if verified.Err? || !ValidContext(context) {
      return Err, q, items;
    }
    var live := ReadForCapture(w, namespace);
    if live.Err? {
      return Err, q, items;
    }
    items := live.value;
    var expected := ReadExpected(live.value, manifest, managed);
    if expected.Err? {
      return Err, q, items;
    }
    var p := BuildPlan(Capture.Request(expected.value, namespace, sha, verified.value, RepositoryOf(managed)), live.value);
    if p.Err? {
      return Err, q, items;
    }
    r := LoadPlan(WritePlan(p.value));
    assert r == CaptureOf(items, namespace, sha, manifest, managed, attestations);
    if r.Ok? {
      q := CaptureMeaning(items, namespace, sha, manifest, managed, attestations, w.cluster);
    }
  }

  method ReadExpected(items: seq<Item>, manifest: Option<seq<Json>>, managed: Managed) returns (r: Result<seq<Ident>>)
    ensures r == ExpectedFor(items, manifest, managed)
  {
    if managed.AllContainers? {
      return Err;
    }
    if manifest.Some? {
      r := ExpectedDeploymentContainers(manifest.value, managed);
    } else if managed.ByRepository? {
      var inv := LiveDeploymentImages(items);
      if inv.Err? {
        return Err;
      }
      InventoryOrdered(items);
      r := ExpectedRepositoryContainers(inv.value, managed.repository);
    } else {
      r := Err;
    }
  }

  /** The context is looked up and, once it is found, the namespace is listed; there is nothing else. */
  predicate ReadsForCapture(log: seq<Event>, n: nat, namespace: string) {
    && n < |log| <= n + 2 && log[n].command == CheckContext
    && (|log| == n + 2 <==> log[n].outcome.Done?)
    && (|log| == n + 2 ==> log[n + 1].command == GetDeployments(namespace))
  }

  method ReadForCapture(w: World, namespace: string) returns (r: Result<seq<Item>>)
    requires w.Valid()
    modifies w
    ensures w.Valid() && old(w.log) <= w.log && old(w.history) <= w.history && w.cluster == old(w.cluster)
    ensures ReadsForCapture(w.log, |old(w.log)|, namespace)
    ensures FaultlessSince(w.log, |old(w.log)|) ==> r.Ok?
    ensures r.Ok? ==> IsListing(r.value, w.cluster, namespace) && |w.log| == |old(w.log)| + 2 && AllDoneSince(w.log, |old(w.log)|)
  {
    var found := w.RunWithDeadline(CheckContext, None);
    assert IsStep(w.history, w.log, |w.log| - 1);
    if !found.Done? {
      return Err;
    }
    r := w.GetDeployments(namespace, None);
  }

  /** A rollout of a captured plan, stopped after any of its commands with any failures on the way. */
  ghost predicate StoppedRollout(
    p: Plan, o: Options, deadline: real, before: State, history: seq<State>, log: seq<Event>, n: nat, stopped: State)
  {
    && IsRun(history, log) && n <= |log| && history[n] == before
    && Disciplined(history, log, n, p, o, deadline)
    && exists k :: n <= k <= |log| && history[k] == stopped
  }

  /** Rollouts and rollbacks of a captured plan in any number and order, each stopped anywhere. */
  ghost predicate StoppedAttempts(p: Plan, before: State, history: seq<State>, log: seq<Event>, n: nat, stopped: State) {
    && IsRun(history, log) && n <= |log| && history[n] == before
    && OfPlanSince(p, log, n)
    && exists k :: n <= k <= |log| && history[k] == stopped
  }

  /** Capture a plan, let any number of rollouts and rollbacks of it fail or stop anywhere, then run a rollback in
      which no command faults and no status is late: the captured cluster is back, with attested tags replaced by their
      digests, and the rollback returns normally exactly when the containers outside the plan's scope were pinned by
      digest. */
  method AttemptsRollBack(
    w: World, p: Plan, ghost q: Request, ghost items: seq<Item>, ghost before: State,
    ghost history: seq<State>, ghost log: seq<Event>, ghost n: nat,
    context: string, timeout: string) returns (r: Result<()>, ghost inv: Inventory, ghost deadline: real)
    requires CapturedFrom(p, q, items, before) && Admissible(before, q.namespace)
    requires w.Valid() && StoppedAttempts(p, before, history, log, n, w.cluster)
    requires ValidContext(context) && IsTimeout(timeout)
    modifies w
    ensures w.Valid() && old(w.log) <= w.log
    ensures LiveImages(items) == Ok(inv) && Ordered(inv)
    ensures old(w.clock) + TimeoutSeconds(timeout) <= deadline && Timely(w.log, |old(w.log)|, timeout, deadline)
    ensures Undelayed(w.log, |old(w.log)|, deadline) ==>
              && w.cluster == Restored(p, before)
              && (w.cluster == before <==> AllPinned(LiveAmong(q.expected, inv), inv))
              && (r.Ok? <==> AllPinned(OutsideOf(inv, q), inv))
  {
    inv := CapturedSummary(p, q, items, before);
    StoppedIsMixed(p, before, history, log, n, w.cluster);
    r, deadline := RollBack(w, p, before, context, timeout);
  }

  lemma {:induction false} StoppedIsMixed(p: Plan, before: State, history: seq<State>, log: seq<Event>, n: nat, stopped: State)
    requires Loadable(p) && Fits(p, before)
    requires StoppedAttempts(p, before, history, log, n, stopped)
    ensures Mixed(p, before, stopped)
  {
    var k :| n <= k <= |log| && history[k] == stopped;
    AttemptsRestorable(p, before, history, log, n, k);
  }

  /** Capture a plan, run any part of a rollout with any failures, then such a rollback: the captured
      cluster is back, with attested tags replaced by their digests, and the rollback returns normally exactly
      when the containers outside the rollout's scope were pinned by digest. */
  method StoppedRolloutRollsBack(
    w: World, p: Plan, ghost q: Request, ghost items: seq<Item>, ghost before: State,
    ghost o: Options, ghost ended: real, ghost history: seq<State>, ghost log: seq<Event>, ghost n: nat,
    context: string, timeout: string) returns (r: Result<()>, ghost inv: Inventory, ghost deadline: real)
    requires CapturedFrom(p, q, items, before) && Admissible(before, q.namespace)
    requires w.Valid() && StoppedRollout(p, o, ended, before, history, log, n, w.cluster)
    requires ValidContext(context) && IsTimeout(timeout)
    modifies w
    ensures w.Valid() && old(w.log) <= w.log
    ensures LiveImages(items) == Ok(inv) && Ordered(inv)
    ensures old(w.clock) + TimeoutSeconds(timeout) <= deadline && Timely(w.log, |old(w.log)|, timeout, deadline)
    ensures Undelayed(w.log, |old(w.log)|, deadline) ==>
              && w.cluster == Restored(p, before)
              && (w.cluster == before <==> AllPinned(LiveAmong(q.expected, inv), inv))
              && (r.Ok? <==> AllPinned(OutsideOf(inv, q), inv))
  {
    RolloutOfPlan(history, log, n, p, o, ended);
    r, inv, deadline := AttemptsRollBack(w, p, q, items, before, history, log, n, context, timeout);
  }

  /** A protected container captured under an attested tag makes every rollout refuse before its first mutation. */
  lemma {:induction false} AttestedProtectedRefused(
    p: Plan, q: Request, inv: Inventory, before: State, o: Options, deadline: real, history: seq<State>, log: seq<Event>, n: nat)
    requires Records(p, q, inv, before) && Attests(q.verified)
    requires n <= |log| < |history| && history[n] == before && Disciplined(history, log, n, p, o, deadline)
    requires !AllPinned(OutsideOf(inv, q), inv)
    ensures forall k :: n <= k < |log| ==> !IsMutation(log[k].command)
  {
    ProtectedsPinnedExactly(p, q, inv, before);
    OnlyCaptured(p, q, inv);
    forall k | n <= k < |log|
      ensures !IsMutation(log[k].command)
    {
      assert Proper(history, log, n, k, p, o, deadline);
      if PreflightHolds(p, o, before) {
        PreflightPinsProtecteds(p, o, q, inv, before);
      }
    }
  }

  lemma {:induction false} PreflightPinsProtecteds(p: Plan, o: Options, q: Request, inv: Inventory, before: State)
    requires Records(p, q, inv, before) && PreflightHolds(p, o, before)
    ensures ProtectedsLive(p, before)
  {
    OnlyCaptured(p, q, inv);
    ClosedPinsProtecteds(p, ImageRepository(o.image).value, before, q.namespace);
    RecordedNamespaces(p, q, inv);
  }

  lemma {:induction false} ClosedPinsProtecteds(p: Plan, repository: string, s: State, namespace: string)
    requires ClosedAt(p, repository, s, namespace)
    ensures forall i :: 0 <= i < |p.protectedTargets| && p.protectedTargets[i].namespace == namespace ==>
              ProtectedLive(p.protectedTargets[i], s)
  {
    forall i | 0 <= i < |p.protectedTargets| && p.protectedTargets[i].namespace == namespace
      ensures ProtectedLive(p.protectedTargets[i], s)
    {
      assert ImageAt(s, namespace, ProtectedIdentOf(p.protectedTargets[i])) == Some(p.protectedTargets[i].image);
    }
  }
}
