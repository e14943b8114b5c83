/** The rollout script: checks, creations, waves and a final check under one deadline. */
module Rollout {
  import opened Basics
  import opened JsonTrees
  import opened Images
  import opened Clusters
  import opened Inventories
  import opened Plans
  import opened Capture
  import opened CapturedPlans
  import Rollback
  import opened PatchFacts
  import opened RollbackSemantics
  import opened RolloutPlanning
  import opened Waves
  import opened WaveOrder
  import opened RolloutWaves
  import opened ImageWaves

  datatype Options = Options(
    context: string,
    image: string,
    timeout: string,
    manifest: Option<seq<Json>>,
    reconcile: bool,
    evidence: bool)

  // ---- what a rollout sets out to do ----

  predicate OptionsValid(p: Plan, o: Options) {
    && (o.reconcile ==> o.manifest.Some?)
    && (o.reconcile && p.targets != [] ==> p.deploymentStates != [])
    && (o.evidence ==> o.reconcile)
    && Rollback.ValidContext(o.context)
    && IsImageDigest(o.image)
    && IsTimeout(o.timeout)
  }

  /** What is refused before anything is asked of the cluster, and nothing else is. */
  lemma {:induction false} OptionsExactly(p: Plan, o: Options)
    ensures OptionsValid(p, o) <==>
              && o.context != "" && (forall i :: 0 <= i < |o.context| ==> !IsSpace(o.context[i]))
              && (exists repository, digest :: IsPinnedBy(o.image, repository, digest))
              && (exists n: nat, unit :: IsDuration(o.timeout, n, unit))
              && (o.reconcile ==> o.manifest.Some? && (p.targets != [] ==> p.deploymentStates != []))
              && (o.evidence ==> o.reconcile)
  {
    DigestExactly(o.image);
    DurationExactly(o.timeout);
    ContextExactly(o.context);
  }

  lemma {:induction false} ContextExactly(context: string)
    ensures Rollback.ValidContext(context) <==> context != "" && forall i :: 0 <= i < |context| ==> !IsSpace(context[i])
  {
  }

  function PlannedPatches(p: Plan, o: Options): Result<seq<Patch>> {
    if !o.reconcile then Ok([])
    else if o.manifest.None? then Err
    else SpecPatches(p, o.manifest.value, o.image)
  }

  function PlannedCreations(p: Plan, o: Options): Result<seq<Creation>> {
    if p.bootstrapTargets == [] then Ok([])
    else if o.manifest.None? then Err
    else RenderBootstrap(p, o.manifest.value, o.image)
  }

  /** The changes to existing workloads, in the order of the waves. */
  function PlannedChanges(p: Plan, o: Options): seq<Command> {
    if !o.reconcile then ImageCommandsFor(RolloutSlots(p), o.image)
    else if PlannedPatches(p, o).Ok? then PatchCommands(PlannedPatches(p, o).value)
    else []
  }

  function RolloutNamespaces(p: Plan): set<string> {
    set slot | slot in RolloutSlots(p) :: slot.id.namespace
  }

  lemma {:induction false} OnlyExactly(namespaces: set<string>, namespace: string)
    ensures Only(namespaces) == Ok(namespace) <==> namespaces == {namespace}
  {
    if |namespaces| == 1 {
      SingletonOnly(namespaces);
    }
  }

  predicate NamesNamespace(p: Plan, namespace: string) {
    || (exists i :: 0 <= i < |p.targets| && p.targets[i].namespace == namespace)
    || (exists i :: 0 <= i < |p.bootstrapTargets| && p.bootstrapTargets[i].namespace == namespace)
  }

  lemma {:induction false} SlotNamespace(p: Plan, k: nat)
    requires k < |RolloutSlots(p)|
    ensures NamesNamespace(p, RolloutSlots(p)[k].id.namespace)
  {
    if k >= |p.targets| {
      assert RolloutSlots(p)[|p.targets| + (k - |p.targets|)] == BootstrapSlot(p.bootstrapTargets[k - |p.targets|]);
    }
  }

  lemma {:induction false} NamespaceNamed(p: Plan, namespace: string)
    ensures namespace in RolloutNamespaces(p) <==> NamesNamespace(p, namespace)
  {
    if namespace in RolloutNamespaces(p) {
      var slot :| slot in RolloutSlots(p) && slot.id.namespace == namespace;
      var k :| 0 <= k < |RolloutSlots(p)| && RolloutSlots(p)[k] == slot;
      SlotNamespace(p, k);
    }
    if i :| 0 <= i < |p.targets| && p.targets[i].namespace == namespace {
      assert RolloutSlots(p)[i] in RolloutSlots(p);
    }
    if i :| 0 <= i < |p.bootstrapTargets| && p.bootstrapTargets[i].namespace == namespace {
      assert RolloutSlots(p)[|p.targets| + i] in RolloutSlots(p);
    }
  }

  predicate AllIn(p: Plan, namespace: string) {
    && (forall i :: 0 <= i < |p.targets| ==> p.targets[i].namespace == namespace)
    && (forall i :: 0 <= i < |p.bootstrapTargets| ==> p.bootstrapTargets[i].namespace == namespace)
  }

  lemma {:induction false} NamedAlone(p: Plan, namespace: string)
    ensures (forall n :: NamesNamespace(p, n) <==> n == namespace) <==>
              (p.targets != [] || p.bootstrapTargets != []) && AllIn(p, namespace)
  {
    if forall n :: NamesNamespace(p, n) <==> n == namespace {
      assert NamesNamespace(p, namespace);
      forall i | 0 <= i < |p.targets| ensures p.targets[i].namespace == namespace {
        assert NamesNamespace(p, p.targets[i].namespace);
      }
      forall i | 0 <= i < |p.bootstrapTargets| ensures p.bootstrapTargets[i].namespace == namespace {
        assert NamesNamespace(p, p.bootstrapTargets[i].namespace);
      }
    }
    if p.targets != [] && AllIn(p, namespace) {
      assert p.targets[0].namespace == namespace;
    } else if p.bootstrapTargets != [] && AllIn(p, namespace) {
      assert p.bootstrapTargets[0].namespace == namespace;
    }
  }

  /** A rollout has a namespace exactly when it has something to roll out, and all of it is in that one. */
  lemma {:induction false} NamespaceExactly(p: Plan, namespace: string)
    ensures Only(RolloutNamespaces(p)) == Ok(namespace) <==>
              (p.targets != [] || p.bootstrapTargets != []) && AllIn(p, namespace)
  {
    OnlyExactly(RolloutNamespaces(p), namespace);
    NamedAlone(p, namespace);
    forall n
      ensures n in RolloutNamespaces(p) <==> NamesNamespace(p, n)
    {
      NamespaceNamed(p, n);
    }
  }

  function RolloutWorkloads(p: Plan): set<Workload> {
    TargetWorkloadSet(p.targets) + set t | t in p.bootstrapTargets :: Workload(t.namespace, t.resource)
  }

  /** The live workload is still as captured. */
  ghost predicate Undrifted(p: Plan, patches: seq<Patch>, s: State, namespace: string) {
    forall i :: 0 <= i < |patches| ==>
      var state := StateAt(p.deploymentStates, Workload(patches[i].namespace, patches[i].resource));
      && patches[i].namespace == namespace
      && PatchId(patches[i]) in s
      && state.Some?
      && s[PatchId(patches[i])] == Deployment(state.value.strategy, state.value.template)
  }

  predicate ItemsUndrifted(p: Plan, patches: seq<Patch>, items: seq<Item>, namespace: string) {
    forall i :: 0 <= i < |patches| ==>
      var state := StateAt(p.deploymentStates, Workload(patches[i].namespace, patches[i].resource));
      var item := FindItem(items, NameOf(patches[i].resource));
      && patches[i].namespace == namespace
      && item.Some?
      && state.Some?
      && item.value.spec == Deployment(state.value.strategy, state.value.template)
  }

  ghost predicate FitsBefore(p: Plan, o: Options, patches: seq<Patch>, s: State, namespace: string) {
    && Readable(s, namespace)
    && (if p.bootstrapTargets != [] then PreRolloutVerifiedAt(p, o.image, s, namespace)
        else RolloutVerifiedAt(p, o.image, s, namespace, false))
    && (o.evidence ==> Undrifted(p, patches, s, namespace))
  }

  /** What is checked before the first mutation. */
  ghost predicate PreflightHolds(p: Plan, o: Options, s: State) {
    && OptionsValid(p, o)
    && PlannedPatches(p, o).Ok?
    && Only(RolloutNamespaces(p)).Ok?
    && FitsBefore(p, o, PlannedPatches(p, o).value, s, Only(RolloutNamespaces(p)).value)
  }

  // ---- reading the cluster ----

  /** Reads only, and none of them late. */
  predicate OnlyReads(log: seq<Event>, n: nat, deadline: real) {
    forall k :: n <= k < |log| ==> !IsMutation(log[k].command) && OnTime(log[k], deadline) && !log[k].outcome.Cancelled?
  }

  datatype Listing = Listing(items: seq<Item>, images: map<Ident, string>)

  method ListImages(w: World, namespace: string, deadline: real) returns (r: Result<Listing>)
    requires w.Valid()
    modifies w
    ensures w.Valid() && old(w.log) <= w.log && old(w.history) <= w.history && w.cluster == old(w.cluster)
    ensures OnlyReads(w.log, |old(w.log)|, deadline)
    ensures r.Ok? ==> && AllDoneSince(w.log, |old(w.log)|) && Readable(w.cluster, namespace)
                      && IsListing(r.value.items, w.cluster, namespace) && Shows(r.value.images, w.cluster, namespace)
    ensures UndisturbedSince(w.log, |old(w.log)|) && Readable(w.cluster, namespace) ==> r.Ok?
  {
    var items := w.GetDeployments(namespace, Some(deadline));
    if items.Err? {
      return Err;
    }
    ListingShowsCluster(items.value, w.cluster, namespace);
    var inv := LiveDeploymentImages(items.value);
    return if inv.Ok? then Ok(Listing(items.value, inv.value.images)) else Err;
  }

  /** `verify_repository_rollout` on a fresh inventory. */
  method CheckRepository(w: World, p: Plan, image: string, namespace: string, deadline: real, exact: bool) returns (ok: bool)
    requires w.Valid()
    modifies w
    ensures w.Valid() && old(w.log) <= w.log && old(w.history) <= w.history && w.cluster == old(w.cluster)
    ensures OnlyReads(w.log, |old(w.log)|, deadline)
    ensures ok ==> AllDoneSince(w.log, |old(w.log)|) && Readable(w.cluster, namespace) && RolloutVerifiedAt(p, image, w.cluster, namespace, exact)
    ensures UndisturbedSince(w.log, |old(w.log)|) && Readable(w.cluster, namespace) && RolloutVerifiedAt(p, image, w.cluster, namespace, exact)
            ==> ok
  {
    var listing := ListImages(w, namespace, deadline);
    if listing.Err? {
      return false;
    }
    ChecksMeaning(p, image, listing.value.images, w.cluster, namespace);
    return VerifyRepositoryRollout(p, image, listing.value.images, exact);
  }

  /** The first inventory: the plan still fits the cluster, and no workload has drifted when evidence is written. */
  method CheckBefore(w: World, p: Plan, o: Options, patches: seq<Patch>, namespace: string, deadline: real) returns (ok: bool)
    requires w.Valid()
    modifies w
    ensures w.Valid() && old(w.log) <= w.log && old(w.history) <= w.history && w.cluster == old(w.cluster)
    ensures OnlyReads(w.log, |old(w.log)|, deadline)
    ensures ok ==> AllDoneSince(w.log, |old(w.log)|) && FitsBefore(p, o, patches, w.cluster, namespace)
    ensures UndisturbedSince(w.log, |old(w.log)|) && FitsBefore(p, o, patches, w.cluster, namespace) ==> ok
  {
    var listing := ListImages(w, namespace, deadline);
    if listing.Err? {
      return false;
    }
    ChecksMeaning(p, o.image, listing.value.images, w.cluster, namespace);
    DriftMeaning(p, patches, listing.value.items, w.cluster, namespace);
    if p.bootstrapTargets != [] {
      ok := VerifyPreRolloutState(p, o.image, listing.value.images);
    } else {
      ok := VerifyRepositoryRollout(p, o.image, listing.value.images, false);
    }
    ok := ok && (o.evidence ==> ItemsUndrifted(p, patches, listing.value.items, namespace));
  }

  lemma {:induction false} DriftMeaning(p: Plan, patches: seq<Patch>, items: seq<Item>, s: State, namespace: string)
    requires IsListing(items, s, namespace)
    ensures ItemsUndrifted(p, patches, items, namespace) <==> Undrifted(p, patches, s, namespace)
  {
    forall i | 0 <= i < |patches| && patches[i].namespace == namespace
      ensures FindItem(items, NameOf(patches[i].resource)).Some? <==> PatchId(patches[i]) in s
      ensures PatchId(patches[i]) in s ==> FindItem(items, NameOf(patches[i].resource)).value.spec == s[PatchId(patches[i])]
    {
      ListedItem(items, s, namespace, NameOf(patches[i].resource));
    }
  }

  lemma {:induction false} ListedItem(items: seq<Item>, s: State, namespace: string, name: string)
    requires IsListing(items, s, namespace)
    ensures FindItem(items, name).Some? <==> Id(namespace, name) in s
    ensures Id(namespace, name) in s ==> FindItem(items, name).value.spec == s[Id(namespace, name)]
  {
    FoundItem(items, name);
    if Id(namespace, name) in s {
      var k :| 0 <= k < |items| && items[k] == Item(name, s[Id(namespace, name)]);
    }
  }

  /** The deadline is set before the first command, which looks up the context; if that fails nothing follows. */
  predicate Begins(log: seq<Event>, n: nat, clock: real, timeout: string, deadline: real)
    requires IsTimeout(timeout)
  {
    && n < |log| && log[n].command == CheckContext
    && clock + TimeoutSeconds(timeout) <= deadline <= log[n].start + TimeoutSeconds(timeout)
    && (log[n].outcome.Done? || |log| == n + 1)
  }

  datatype Preparation = Preparation(patches: seq<Patch>, namespace: string, deadline: real)

  /** Everything up to the first mutation. */
  method Preflight(w: World, p: Plan, o: Options) returns (r: Result<Preparation>, ghost deadline: real)
    requires w.Valid()
    modifies w
    ensures w.Valid() && old(w.log) <= w.log && old(w.history) <= w.history && w.cluster == old(w.cluster)
    ensures OnlyReads(w.log, |old(w.log)|, deadline)
    ensures OptionsValid(p, o) ==> Begins(w.log, |old(w.log)|, old(w.clock), o.timeout, deadline)
    ensures !OptionsValid(p, o) ==> w.log == old(w.log)
    ensures r.Ok? ==>
              && AllDoneSince(w.log, |old(w.log)|) && PreflightHolds(p, o, w.cluster)
              && r.value.deadline == deadline && Ok(r.value.patches) == PlannedPatches(p, o)
              && Ok(r.value.namespace) == Only(RolloutNamespaces(p))
    ensures UndisturbedSince(w.log, |old(w.log)|) && PreflightHolds(p, o, w.cluster) ==> r.Ok?
  {
    deadline := 0.0;
    if !OptionsValid(p, o) {
      return Err, deadline;
    }
    var now := w.Now();
    var until := now + TimeoutSeconds(o.timeout);
    deadline := until;
    ghost var log0 := w.log;
    var found := FindContext(w, until);
    ghost var log1 := w.log;
    if !found {
      return Err, deadline;
    }
    var patches: Result<seq<Patch>> := Ok([]);
    if o.reconcile {
      patches := ExistingDeploymentSpecPatches(p, o.manifest.value, o.image);
    }
    var namespace := Only(RolloutNamespaces(p));
    if patches.Err? || namespace.Err? {
      return Err, deadline;
    }
    var ok := CheckBefore(w, p, o, patches.value, namespace.value, until);
    ReadsSum(log0, log1, w.log, deadline);
    return if ok then Ok(Preparation(patches.value, namespace.value, until)) else Err, deadline;
  }

  method FindContext(w: World, deadline: real) returns (ok: bool)
    requires w.Valid()
    modifies w
    ensures w.Valid() && old(w.log) <= w.log && old(w.history) <= w.history && w.cluster == old(w.cluster)
    ensures OnlyReads(w.log, |old(w.log)|, deadline)
    ensures |w.log| == |old(w.log)| + 1 && w.log[|old(w.log)|].command == CheckContext && w.log[|old(w.log)|].start >= old(w.clock)
    ensures ok <==> AllDoneSince(w.log, |old(w.log)|)
    ensures UndisturbedSince(w.log, |old(w.log)|) ==> ok
  {
    var found := w.RunWithDeadline(CheckContext, Some(deadline));
    assert IsStep(w.history, w.log, |w.log| - 1);
    return found.Done?;
  }

  lemma {:induction false} ReadsSum(l0: seq<Event>, l1: seq<Event>, l2: seq<Event>, deadline: real)
    requires l0 <= l1 <= l2 && OnlyReads(l1, |l0|, deadline) && OnlyReads(l2, |l1|, deadline)
    ensures OnlyReads(l2, |l0|, deadline)
    ensures AllDoneSince(l1, |l0|) && AllDoneSince(l2, |l1|) ==> AllDoneSince(l2, |l0|)
    ensures UndisturbedSince(l2, |l0|) ==> UndisturbedSince(l2, |l1|) && UndisturbedSince(l1, |l0|)
  {
    assert forall k :: 0 <= k < |l1| ==> l2[k] == l1[k];
  }

  // ---- creating what is missing ----

  function BootstrapIds(p: Plan): (r: seq<Id>)
    ensures |r| == |p.bootstrapTargets|
    ensures forall i :: 0 <= i < |r| ==> r[i] == BootstrapSlot(p.bootstrapTargets[i]).id
  {
    seq(|p.bootstrapTargets|, i requires 0 <= i < |p.bootstrapTargets| => BootstrapSlot(p.bootstrapTargets[i]).id)
  }

  /** The creations are accepted, and the cluster with them in it passes the check. */
  ghost predicate CreationsFit(p: Plan, o: Options, s: State, namespace: string) {
    && PlannedCreations(p, o).Ok?
    && Accepts(s, Create(PlannedCreations(p, o).value))
    && var t := CreateAll(s, PlannedCreations(p, o).value);
       p.bootstrapTargets != [] ==> Readable(t, namespace) && RolloutVerifiedAt(p, o.image, t, namespace, false)
  }

  /** At most one creation, and it comes first. */
  predicate CreatesFirst(log: seq<Event>, n: nat, creations: Result<seq<Creation>>, deadline: real) {
    forall k :: n <= k < |log| ==>
      && OnTime(log[k], deadline) && !log[k].outcome.Cancelled?
      && (IsMutation(log[k].command) ==> k == n && creations.Ok? && log[k].command == Create(creations.value))
  }

  /** `create_bootstrap_deployments` and the check that follows it. */
  method CreateBootstraps(w: World, p: Plan, o: Options, namespace: string, deadline: real) returns (ok: bool)
    requires w.Valid()
    modifies w
    ensures w.Valid() && old(w.log) <= w.log && old(w.history) <= w.history
    ensures CreatesFirst(w.log, |old(w.log)|, PlannedCreations(p, o), deadline)
    ensures ok ==> && AllDoneSince(w.log, |old(w.log)|) && CreationsFit(p, o, old(w.cluster), namespace)
                   && w.cluster == CreateAll(old(w.cluster), PlannedCreations(p, o).value)
    ensures UndisturbedSince(w.log, |old(w.log)|) && CreationsFit(p, o, old(w.cluster), namespace) ==> ok
  {
    if p.bootstrapTargets == [] {
      return true;
    }
    if o.manifest.None? {
      return false;
    }
    var rendered := RenderBootstrapManifest(p, o.manifest.value, o.image);
    if rendered.Err? {
      return false;
    }
    ghost var log0 := w.log;
    var created := w.RunWithDeadline(Create(rendered.value), Some(deadline));
    ghost var log1 := w.log;
    assert log0 <= log1 && IsStep(w.history, w.log, |log0|);
    if !created.Done? {
      return false;
    }
    ok := CheckRepository(w, p, o.image, namespace, deadline, false);
    CreateThenReads(log0, log1, w.log, PlannedCreations(p, o), deadline);
  }

  lemma {:induction false} CreateThenReads(
    l0: seq<Event>, l1: seq<Event>, l2: seq<Event>, creations: Result<seq<Creation>>, deadline: real)
    requires l0 <= l1 <= l2 && |l1| == |l0| + 1
    requires CreatesFirst(l1, |l0|, creations, deadline) && OnlyReads(l2, |l1|, deadline)
    ensures CreatesFirst(l2, |l0|, creations, deadline)
    ensures AllDoneSince(l1, |l0|) && AllDoneSince(l2, |l1|) ==> AllDoneSince(l2, |l0|)
    ensures UndisturbedSince(l2, |l0|) ==> UndisturbedSince(l2, |l1|) && UndisturbedSince(l1, |l0|)
  {
    assert forall k :: 0 <= k < |l1| ==> l2[k] == l1[k];
  }

  // ---- changing what exists ----

  /** The changes are accepted in turn, and every status that will be asked for can be. */
  ghost predicate ChangesFit(p: Plan, o: Options, s: State) {
    && AllAccepted(s, PlannedChanges(p, o))
    && (o.reconcile && PlannedPatches(p, o).Ok? ==> StatusesKnown(PlannedPatches(p, o).value, RolloutWorkloads(p)))
    && (o.reconcile ==> AllPresent(BootstrapIds(p), s))
  }

  lemma {:induction false} PlannedChangesChange(p: Plan, o: Options)
    ensures AllChange(PlannedChanges(p, o))
  {
  }

  lemma {:induction false} PlannedPatchesDistinct(p: Plan, o: Options)
    requires PlannedPatches(p, o).Ok?
    ensures NoDuplicates(PatchIds(PlannedPatches(p, o).value))
  {
    if o.reconcile {
      var patches := PlannedPatches(p, o).value;
      PatchesDistinct(p, o.manifest.value, o.image);
      forall i, j | 0 <= i < j < |patches|
        ensures PatchIds(patches)[i] != PatchIds(patches)[j]
      {
        assert PatchWorkloads(patches)[i] != PatchWorkloads(patches)[j];
        if PatchIds(patches)[i] == PatchIds(patches)[j] {
          IdInjective(PatchWorkload(patches[i]), PatchWorkload(patches[j]));
        }
      }
    }
  }

  /** Nothing existing is changed before the new workloads are up. */
  ghost predicate BootstrapsFirst(log: seq<Event>, n: nat, p: Plan) {
    forall k :: n <= k < |log| && Changes(log[k].command) ==> BootstrapsUp(log, n, k, p)
  }

  ghost predicate BootstrapsUp(log: seq<Event>, n: nat, k: nat, p: Plan)
    requires k <= |log|
  {
    forall id :: id in BootstrapIds(p) ==> exists j :: n <= j < k && Confirms(log[j]) && WorkloadOf(log[j]) == id
  }

  /** Every planned change was made and then reported rolled out, nothing is left unconfirmed and nothing failed; with
      specs reconciled, the new workloads have been reported rolled out too. */
  ghost predicate Confirmed(log: seq<Event>, n: nat, p: Plan, o: Options)
    requires n <= |log|
  {
    && AllChange(PlannedChanges(p, o)) && AllConfirmed(log, n, PlannedChanges(p, o), |PlannedChanges(p, o)|)
    && (o.reconcile ==> BootstrapsUp(log, n, |log|, p))
  }

  lemma {:induction false} ConfirmedBetween(l0: seq<Event>, l1: seq<Event>, n: nat, m: nat, p: Plan, o: Options)
    requires n <= m <= |l0| && l0 <= l1 && Confirmed(l0, m, p, o)
    requires forall k :: n <= k < m || |l0| <= k < |l1| ==> l1[k].outcome.Done? && !Changes(l1[k].command)
    ensures Confirmed(l1, n, p, o)
  {
    ConfirmedLater(l0, l1, m, PlannedChanges(p, o), |PlannedChanges(p, o)|);
    ConfirmedFromEarlier(l1, n, m, PlannedChanges(p, o), |PlannedChanges(p, o)|);
    if o.reconcile {
      forall id | id in BootstrapIds(p)
        ensures exists j :: n <= j < |l1| && Confirms(l1[j]) && WorkloadOf(l1[j]) == id
      {
        var j :| m <= j < |l0| && Confirms(l0[j]) && WorkloadOf(l0[j]) == id;
        assert l1[j] == l0[j];
      }
    }
  }

  method ReconcileExisting(w: World, p: Plan, o: Options, patches: seq<Patch>, deadline: real) returns (ok: bool)
    requires w.Valid() && o.reconcile && PlannedPatches(p, o) == Ok(patches) && AllChange(PlannedChanges(p, o))
    modifies w
    ensures w.Valid() && old(w.log) <= w.log && old(w.history) <= w.history
    ensures WavesKept(w.log, |old(w.log)|, PlannedChanges(p, o), deadline) && BootstrapsFirst(w.log, |old(w.log)|, p)
    ensures ok ==> Confirmed(w.log, |old(w.log)|, p, o) && PatchesApplied(old(w.cluster), patches, w.cluster)
    ensures UndisturbedSince(w.log, |old(w.log)|) ==>
            PatchesPresent(patches, old(w.cluster)) && StatusesKnown(patches, RolloutWorkloads(p)) ==>
            AllPresent(BootstrapIds(p), old(w.cluster)) ==> ok
  {
    ghost var log0 := w.log;
    var up := WaitForRolloutStatuses(w, FirstOccurrences(BootstrapIds(p)), deadline);
    ghost var log1 := w.log;
    StatusesKeepWaves(log0, log1, log1, p, PlannedChanges(p, o), deadline, up);
    if !up {
      return false;
    }
    PlannedPatchesDistinct(p, o);
    ok := ReconcileWaves(w, patches, RolloutWorkloads(p), deadline);
    StatusesKeepWaves(log0, log1, w.log, p, PlannedChanges(p, o), deadline, up);
    if ok {
      StatusesConfirm(log0, log1, w.log, p, o);
    }
  }

  lemma {:induction false} StatusesConfirm(l0: seq<Event>, l1: seq<Event>, l2: seq<Event>, p: Plan, o: Options)
    requires l0 <= l1 <= l2 && AllChange(PlannedChanges(p, o))
    requires AllDoneSince(l1, |l0|) && forall k :: |l0| <= k < |l1| ==> l1[k].command.RolloutStatus?
    requires AllConfirmedIn(l1, |l0|, FirstOccurrences(BootstrapIds(p)))
    requires AllConfirmed(l2, |l1|, PlannedChanges(p, o), |PlannedChanges(p, o)|)
    ensures Confirmed(l2, |l0|, p, o)
  {
    assert forall k :: 0 <= k < |l1| ==> l2[k] == l1[k];
    ConfirmedFromEarlier(l2, |l0|, |l1|, PlannedChanges(p, o), |PlannedChanges(p, o)|);
    forall id | id in BootstrapIds(p)
      ensures exists j :: |l0| <= j < |l2| && Confirms(l2[j]) && WorkloadOf(l2[j]) == id
    {
      var j :| |l0| <= j < |l1| && Confirms(l1[j]) && WorkloadOf(l1[j]) == id;
      assert Confirms(l2[j]) && WorkloadOf(l2[j]) == id;
    }
  }

  lemma {:induction false} StatusesKeepWaves(
    l0: seq<Event>, l1: seq<Event>, l2: seq<Event>, p: Plan, commands: seq<Command>, deadline: real, up: bool)
    requires l0 <= l1 <= l2 && AllChange(commands)
    requires OnlyStatuses(l1, |l0|, FirstOccurrences(BootstrapIds(p)), deadline) && CancelsLate(l1, |l0|)
    requires up ==> AllDoneSince(l1, |l0|) && AllConfirmedIn(l1, |l0|, FirstOccurrences(BootstrapIds(p)))
    requires up || l2 == l1
    requires WavesKept(l2, |l1|, commands, deadline)
    ensures WavesKept(l2, |l0|, commands, deadline) && BootstrapsFirst(l2, |l0|, p)
    ensures up && AllDoneSince(l2, |l1|) ==> AllDoneSince(l2, |l0|)
    ensures UndisturbedSince(l2, |l0|) ==> UndisturbedSince(l1, |l0|) && UndisturbedSince(l2, |l1|)
  {
    assert forall k :: 0 <= k < |l1| ==> l2[k] == l1[k];
    KeepsWavesFromEarlier(l2, |l0|, |l1|, ChangedIds(commands));
    InOrderFromEarlier(l2, |l0|, |l1|, commands);
    CancelsLaterSum(l0, l1, l2);
    if up {
      forall k, id | |l0| <= k < |l2| && Changes(l2[k].command) && id in BootstrapIds(p)
        ensures exists j :: |l0| <= j < k && Confirms(l2[j]) && WorkloadOf(l2[j]) == id
      {
        var j :| |l0| <= j < |l1| && Confirms(l1[j]) && WorkloadOf(l1[j]) == id;
        assert Confirms(l2[j]) && WorkloadOf(l2[j]) == id;
      }
    }
  }

  /** Where nothing is changed, nothing becomes unconfirmed. */
  lemma {:induction false} KeepsWavesFromEarlier(log: seq<Event>, n: nat, m: nat, ids: seq<Id>)
    requires n <= m <= |log| && KeepsWaves(log, m, ids)
    requires forall k :: n <= k < m ==> !Mutates(log[k])
    ensures KeepsWaves(log, n, ids)
  {
    UnconfirmedWithin(log, n, m, {});
    forall k | n <= k < |log| && Mutates(log[k])
      ensures exists j :: 0 <= j < |ids| && ids[j] == WorkloadOf(log[k]) && Unconfirmed(log, n, k) <= WaveOf(ids, j)
    {
      UnconfirmedFrom(log, n, m, k);
      var j :| 0 <= j < |ids| && ids[j] == WorkloadOf(log[k]) && Unconfirmed(log, m, k) <= WaveOf(ids, j);
    }
  }

  /** The mutating part, in either of its two forms. */
  method ChangeExisting(w: World, p: Plan, o: Options, patches: seq<Patch>, deadline: real) returns (ok: bool)
    requires w.Valid() && PlannedPatches(p, o) == Ok(patches) && AllChange(PlannedChanges(p, o))
    modifies w
    ensures w.Valid() && old(w.log) <= w.log && old(w.history) <= w.history
    ensures WavesKept(w.log, |old(w.log)|, PlannedChanges(p, o), deadline)
    ensures o.reconcile ==> BootstrapsFirst(w.log, |old(w.log)|, p)
    ensures ok ==> Confirmed(w.log, |old(w.log)|, p, o) && Performed(old(w.cluster), PlannedChanges(p, o), w.cluster)
    ensures UndisturbedSince(w.log, |old(w.log)|) && ChangesFit(p, o, old(w.cluster)) ==> ok
  {
    if !o.reconcile {
      ok := SetImageWaves(w, RolloutSlots(p), o.image, deadline);
    } else {
      ok := ReconcileExisting(w, p, o, patches, deadline);
      PlannedPatchesDistinct(p, o);
      if ok {
        AppliedIsRun(old(w.cluster), patches, w.cluster);
      }
      if ChangesFit(p, o, old(w.cluster)) {
        ChangesKeepWorkloads(old(w.cluster), PatchCommands(patches));
        AcceptedPresent(old(w.cluster), patches);
      }
    }
  }

  lemma {:induction false} AcceptedPresent(s: State, patches: seq<Patch>)
    requires forall i :: 0 <= i < |patches| ==> PatchCommands(patches)[i].id in s
    ensures PatchesPresent(patches, s)
  {
    forall patch | patch in patches
      ensures PatchId(patch) in s
    {
      var i :| 0 <= i < |patches| && patches[i] == patch;
      assert PatchCommands(patches)[i].id == PatchId(patch);
    }
  }

  // ---- the whole run ----

  ghost predicate VerifiedAt(p: Plan, o: Options, s: State, exact: bool) {
    && Only(RolloutNamespaces(p)).Ok?
    && Readable(s, Only(RolloutNamespaces(p)).value)
    && RolloutVerifiedAt(p, o.image, s, Only(RolloutNamespaces(p)).value, exact)
  }

  ghost predicate VerifiedBefore(history: seq<State>, n: nat, k: nat, p: Plan, o: Options)
    requires k < |history|
  {
    exists j :: n <= j <= k && VerifiedAt(p, o, history[j], false)
  }

  /** What the k-th command of a rollout may be, given everything before it. */
  ghost predicate Proper(history: seq<State>, log: seq<Event>, n: nat, k: nat, p: Plan, o: Options, deadline: real)
    requires n <= k < |log| < |history|
  {
    var command := log[k].command;
    && OnTime(log[k], deadline)
    && !command.Delete?
    && (IsMutation(command) ==> PreflightHolds(p, o, history[n]))
    && (command.Create? ==> history[k] == history[n] && PlannedCreations(p, o).Ok? && command == Create(PlannedCreations(p, o).value))
    && (Changes(command) ==>
          && command in PlannedChanges(p, o)
          && VerifiedBefore(history, n, k, p, o)
          && (o.reconcile ==> BootstrapsUp(log, n, k, p)))
  }

  /** Commands n onwards are a rollout's: each is proper, the waves are kept, and the changes come in order. */
  ghost predicate Disciplined(history: seq<State>, log: seq<Event>, n: nat, p: Plan, o: Options, deadline: real)
    requires n <= |log| < |history|
  {
    && (forall k :: n <= k < |log| ==> Proper(history, log, n, k, p, o, deadline))
    && AllChange(PlannedChanges(p, o))
    && KeepsWaves(log, n, ChangedIds(PlannedChanges(p, o)))
    && InOrder(log, n, PlannedChanges(p, o))
    && CancelsLate(log, n)
  }

  /** The checks that remain after the first one, and what the cluster becomes. */
  ghost predicate ApplyFits(p: Plan, o: Options, s: State) {
    && Only(RolloutNamespaces(p)).Ok?
    && CreationsFit(p, o, s, Only(RolloutNamespaces(p)).value)
    && ChangesFit(p, o, CreateAll(s, PlannedCreations(p, o).value))
  }

  ghost function RolledOut(p: Plan, o: Options, s: State): State
    requires PlannedCreations(p, o).Ok? && AllAccepted(CreateAll(s, PlannedCreations(p, o).value), PlannedChanges(p, o))
  {
    RunAll(CreateAll(s, PlannedCreations(p, o).value), PlannedChanges(p, o))
  }

  /** What the creations leave has been checked, by the first check when there were none. */
  lemma {:induction false} CheckedInTime(p: Plan, o: Options, s: State, namespace: string)
    requires PreflightHolds(p, o, s) && CreationsFit(p, o, s, namespace) && Only(RolloutNamespaces(p)) == Ok(namespace)
    ensures VerifiedAt(p, o, CreateAll(s, PlannedCreations(p, o).value), false)
  {
  }

  lemma {:induction false} ChangesDisciplined(
    history: seq<State>, l0: seq<Event>, l1: seq<Event>, l2: seq<Event>, p: Plan, o: Options, deadline: real)
    requires l0 <= l1 <= l2 && |l2| < |history| && AllChange(PlannedChanges(p, o))
    requires PreflightHolds(p, o, history[|l0|])
    requires CreatesFirst(l1, |l0|, PlannedCreations(p, o), deadline)
    requires |l1| < |l2| ==> VerifiedAt(p, o, history[|l1|], false) && AllDoneSince(l1, |l0|)
    requires WavesKept(l2, |l1|, PlannedChanges(p, o), deadline)
    requires o.reconcile ==> BootstrapsFirst(l2, |l1|, p)
    ensures Disciplined(history, l2, |l0|, p, o, deadline)
    ensures AllDoneSince(l1, |l0|) && AllDoneSince(l2, |l1|) ==> AllDoneSince(l2, |l0|)
    ensures UndisturbedSince(l2, |l0|) ==> UndisturbedSince(l1, |l0|) && UndisturbedSince(l2, |l1|)
  {
    assert forall k :: 0 <= k < |l1| ==> l2[k] == l1[k];
    KeepsWavesFromEarlier(l2, |l0|, |l1|, ChangedIds(PlannedChanges(p, o)));
    InOrderFromEarlier(l2, |l0|, |l1|, PlannedChanges(p, o));
    CancelsLaterSum(l0, l1, l2);
    forall k | |l0| <= k < |l2|
      ensures Proper(history, l2, |l0|, k, p, o, deadline)
    {
      if k >= |l1| {
        WaveEventProper(history, l2, |l0|, |l1|, k, p, o, deadline);
      }
    }
  }

  lemma {:induction false} WaveEventProper(
    history: seq<State>, log: seq<Event>, n: nat, m: nat, k: nat, p: Plan, o: Options, deadline: real)
    requires n <= m <= k < |log| < |history| && AllChange(PlannedChanges(p, o))
    requires PreflightHolds(p, o, history[n]) && VerifiedAt(p, o, history[m], false)
    requires WavesKept(log, m, PlannedChanges(p, o), deadline)
    requires o.reconcile ==> BootstrapsFirst(log, m, p)
    ensures Proper(history, log, n, k, p, o, deadline)
  {
    var command := log[k].command;
    if command in PlannedChanges(p, o) {
      var i :| 0 <= i < |PlannedChanges(p, o)| && PlannedChanges(p, o)[i] == command;
      assert Changes(command) && VerifiedBefore(history, n, k, p, o);
      if o.reconcile {
        assert BootstrapsUp(log, m, k, p);
        BootstrapsUpFromEarlier(log, n, m, k, p);
      }
    }
  }

  lemma {:induction false} BootstrapsUpFromEarlier(log: seq<Event>, n: nat, m: nat, k: nat, p: Plan)
    requires n <= m <= k <= |log| && BootstrapsUp(log, m, k, p)
    ensures BootstrapsUp(log, n, k, p)
  {
    forall id | id in BootstrapIds(p)
      ensures exists j :: n <= j < k && Confirms(log[j]) && WorkloadOf(log[j]) == id
    {
      var j :| m <= j < k && Confirms(log[j]) && WorkloadOf(log[j]) == id;
    }
  }

  method ApplyChanges(w: World, p: Plan, o: Options, prep: Preparation) returns (ok: bool)
    requires w.Valid() && PreflightHolds(p, o, w.cluster)
    requires Ok(prep.patches) == PlannedPatches(p, o) && Ok(prep.namespace) == Only(RolloutNamespaces(p))
    modifies w
    ensures w.Valid() && old(w.log) <= w.log && old(w.history) <= w.history
    ensures Disciplined(w.history, w.log, |old(w.log)|, p, o, prep.deadline)
    ensures ok ==> Confirmed(w.log, |old(w.log)|, p, o) && Ends(p, o, old(w.cluster), w.cluster)
    ensures UndisturbedSince(w.log, |old(w.log)|) && ApplyFits(p, o, old(w.cluster)) ==> ok
  {
    PlannedChangesChange(p, o);
    ghost var log0, cluster0 := w.log, w.cluster;
    var created := CreateBootstraps(w, p, o, prep.namespace, prep.deadline);
    ghost var log1 := w.log;
    if !created {
      ChangesDisciplined(w.history, log0, log1, log1, p, o, prep.deadline);
      return false;
    }
    CheckedInTime(p, o, cluster0, prep.namespace);
    ok := ChangeExisting(w, p, o, prep.patches, prep.deadline);
    ChangesDisciplined(w.history, log0, log1, w.log, p, o, prep.deadline);
    if ok {
      CreatesThenConfirmed(log0, log1, w.log, p, o, prep.deadline);
    }
  }

  lemma {:induction false} CreatesThenConfirmed(
    l0: seq<Event>, l1: seq<Event>, l2: seq<Event>, p: Plan, o: Options, deadline: real)
    requires l0 <= l1 <= l2 && CreatesFirst(l1, |l0|, PlannedCreations(p, o), deadline) && AllDoneSince(l1, |l0|)
    requires Confirmed(l2, |l1|, p, o)
    ensures Confirmed(l2, |l0|, p, o)
  {
    assert forall k :: 0 <= k < |l1| ==> l2[k] == l1[k];
    ConfirmedBetween(l2, l2, |l0|, |l1|, p, o);
  }

  /** What a rollout promises itself before it starts: every check passes on the way. */
  ghost predicate Ready(p: Plan, o: Options, s: State) {
    && PreflightHolds(p, o, s)
    && ApplyFits(p, o, s)
    && VerifiedAt(p, o, RolledOut(p, o, s), true)
  }

  method ApplyAndVerify(w: World, p: Plan, o: Options, prep: Preparation) returns (ok: bool)
    requires w.Valid() && PreflightHolds(p, o, w.cluster)
    requires Ok(prep.patches) == PlannedPatches(p, o) && Ok(prep.namespace) == Only(RolloutNamespaces(p))
    modifies w
    ensures w.Valid() && old(w.log) <= w.log && old(w.history) <= w.history
    ensures Disciplined(w.history, w.log, |old(w.log)|, p, o, prep.deadline)
    ensures ok ==> Confirmed(w.log, |old(w.log)|, p, o) && Ends(p, o, old(w.cluster), w.cluster) && VerifiedAt(p, o, w.cluster, true)
    ensures UndisturbedSince(w.log, |old(w.log)|) && Ready(p, o, old(w.cluster)) ==> ok
  {
    ghost var log0 := w.log;
    var applied := ApplyChanges(w, p, o, prep);
    ghost var log1, history1 := w.log, w.history;
    if !applied {
      return false;
    }
    ok := CheckRepository(w, p, o.image, prep.namespace, prep.deadline, true);
    DisciplinedThenReads(history1, log1, w.history, w.log, |log0|, p, o, prep.deadline);
    if ok {
      ConfirmedBetween(log1, w.log, |log0|, |log0|, p, o);
    }
  }

  /** The creations passed their check, and the cluster is the one the rollout set out to reach. */
  ghost predicate Ends(p: Plan, o: Options, s: State, t: State) {
    && Only(RolloutNamespaces(p)).Ok? && CreationsFit(p, o, s, Only(RolloutNamespaces(p)).value)
    && Performed(CreateAll(s, PlannedCreations(p, o).value), PlannedChanges(p, o), t)
  }

  lemma {:induction false} DisciplinedThenReads(
    h0: seq<State>, l0: seq<Event>, h1: seq<State>, l1: seq<Event>, n: nat, p: Plan, o: Options, deadline: real)
    requires n <= |l0| < |h0| && |l1| < |h1| && l0 <= l1 && h0 <= h1
    requires Disciplined(h0, l0, n, p, o, deadline) && OnlyReads(l1, |l0|, deadline)
    ensures Disciplined(h1, l1, n, p, o, deadline)
    ensures AllDoneSince(l0, n) && AllDoneSince(l1, |l0|) ==> AllDoneSince(l1, n)
    ensures UndisturbedSince(l1, n) ==> UndisturbedSince(l0, n) && UndisturbedSince(l1, |l0|)
  {
    assert forall k :: 0 <= k < |l0| ==> l1[k] == l0[k];
    forall k | n <= k < |l1|
      ensures Proper(h1, l1, n, k, p, o, deadline)
    {
      if k < |l0| {
        ProperLater(h0, l0, h1, l1, n, k, p, o, deadline);
      }
    }
    var ids := ChangedIds(PlannedChanges(p, o));
    InOrderLater(l0, l1, n, PlannedChanges(p, o));
    CancelsSum(l0, l1, n);
    forall k | n <= k < |l1| && Mutates(l1[k])
      ensures exists j :: 0 <= j < |ids| && ids[j] == WorkloadOf(l1[k]) && Unconfirmed(l1, n, k) <= WaveOf(ids, j)
    {
      assert k < |l0| && Mutates(l0[k]);
      UnconfirmedPrefix(l0, l1, n, k);
    }
  }

  lemma {:induction false} VerifiedBeforeLater(h0: seq<State>, h1: seq<State>, n: nat, k: nat, p: Plan, o: Options)
    requires k < |h0| && h0 <= h1 && VerifiedBefore(h0, n, k, p, o)
    ensures VerifiedBefore(h1, n, k, p, o)
  {
    var j :| n <= j <= k && VerifiedAt(p, o, h0[j], false);
    assert h1[j] == h0[j];
  }

  lemma {:induction false} BootstrapsUpLater(l0: seq<Event>, l1: seq<Event>, n: nat, k: nat, p: Plan)
    requires k <= |l0| && l0 <= l1 && BootstrapsUp(l0, n, k, p)
    ensures BootstrapsUp(l1, n, k, p)
  {
    forall id | id in BootstrapIds(p)
      ensures exists i :: n <= i < k && Confirms(l1[i]) && WorkloadOf(l1[i]) == id
    {
      var i :| n <= i < k && Confirms(l0[i]) && WorkloadOf(l0[i]) == id;
      assert l1[i] == l0[i];
    }
  }

  lemma {:induction false} ProperLater(
    h0: seq<State>, l0: seq<Event>, h1: seq<State>, l1: seq<Event>, n: nat, k: nat, p: Plan, o: Options, deadline: real)
    requires n <= k < |l0| < |h0| && |l1| < |h1| && l0 <= l1 && h0 <= h1
    requires Proper(h0, l0, n, k, p, o, deadline)
    ensures Proper(h1, l1, n, k, p, o, deadline)
  {
    assert l1[k] == l0[k] && h1[n] == h0[n] && h1[k] == h0[k];
    if Changes(l0[k].command) {
      VerifiedBeforeLater(h0, h1, n, k, p, o);
      if o.reconcile {
        BootstrapsUpLater(l0, l1, n, k, p);
      }
    }
  }

  lemma {:induction false} ReadsThenDisciplined(
    history: seq<State>, l0: seq<Event>, l1: seq<Event>, l2: seq<Event>, p: Plan, o: Options, deadline: real)
    requires l0 <= l1 <= l2 && |l2| < |history| && history[|l1|] == history[|l0|]
    requires OnlyReads(l1, |l0|, deadline) && Disciplined(history, l2, |l1|, p, o, deadline)
    requires |l1| < |l2| ==> AllDoneSince(l1, |l0|)
    ensures Disciplined(history, l2, |l0|, p, o, deadline)
    ensures AllDoneSince(l1, |l0|) && AllDoneSince(l2, |l1|) ==> AllDoneSince(l2, |l0|)
    ensures UndisturbedSince(l2, |l0|) ==> UndisturbedSince(l1, |l0|) && UndisturbedSince(l2, |l1|)
  {
    assert forall k :: 0 <= k < |l1| ==> l2[k] == l1[k];
    KeepsWavesFromEarlier(l2, |l0|, |l1|, ChangedIds(PlannedChanges(p, o)));
    InOrderFromEarlier(l2, |l0|, |l1|, PlannedChanges(p, o));
    CancelsLaterSum(l0, l1, l2);
    forall k | |l0| <= k < |l2|
      ensures Proper(history, l2, |l0|, k, p, o, deadline)
    {
      if k >= |l1| {
        ProperFromEarlier(history, l2, |l0|, |l1|, k, p, o, deadline);
      }
    }
  }

  lemma {:induction false} ProperFromEarlier(
    history: seq<State>, log: seq<Event>, n: nat, m: nat, k: nat, p: Plan, o: Options, deadline: real)
    requires n <= m <= k < |log| < |history| && history[m] == history[n]
    requires Proper(history, log, m, k, p, o, deadline)
    ensures Proper(history, log, n, k, p, o, deadline)
  {
    if Changes(log[k].command) {
      var j :| m <= j <= k && VerifiedAt(p, o, history[j], false);
      assert VerifiedBefore(history, n, k, p, o);
      if o.reconcile {
        BootstrapsUpFromEarlier(log, n, m, k, p);
      }
    }
  }

  lemma {:induction false} ReadsThenConfirmed(
    l0: seq<Event>, l1: seq<Event>, l2: seq<Event>, p: Plan, o: Options, deadline: real)
    requires l0 <= l1 <= l2 && OnlyReads(l1, |l0|, deadline) && AllDoneSince(l1, |l0|) && Confirmed(l2, |l1|, p, o)
    ensures Confirmed(l2, |l0|, p, o)
  {
    assert forall k :: 0 <= k < |l1| ==> l2[k] == l1[k];
    ConfirmedBetween(l2, l2, |l0|, |l1|, p, o);
  }

  lemma {:induction false} NothingIssued(history: seq<State>, log: seq<Event>, p: Plan, o: Options, deadline: real)
    requires |log| < |history|
    ensures Disciplined(history, log, |log|, p, o, deadline)
  {
  }

  /** `rollout`. Whatever fails, every command is proper and the waves are kept; a normal return means that every
      check passed, every change was confirmed and the cluster is the planned one; and nothing but a failed command or
      check prevents it. */
  method RollOut(w: World, p: Plan, o: Options) returns (r: Result<()>, ghost deadline: real)
    requires w.Valid()
    modifies w
    ensures w.Valid() && old(w.log) <= w.log && old(w.history) <= w.history
    ensures OptionsValid(p, o) ==> Begins(w.log, |old(w.log)|, old(w.clock), o.timeout, deadline)
    ensures !OptionsValid(p, o) ==> r.Err? && w.log == old(w.log)
    ensures Disciplined(w.history, w.log, |old(w.log)|, p, o, deadline)
    ensures r.Ok? ==> && Confirmed(w.log, |old(w.log)|, p, o) && PreflightHolds(p, o, old(w.cluster))
                      && Ends(p, o, old(w.cluster), w.cluster) && VerifiedAt(p, o, w.cluster, true)
    ensures UndisturbedSince(w.log, |old(w.log)|) && Ready(p, o, old(w.cluster)) ==> r.Ok?
  {
    ghost var log0 := w.log;
    var prep;
    prep, deadline := Preflight(w, p, o);
    ghost var log1 := w.log;
    if prep.Err? {
      NothingIssued(w.history, log1, p, o, deadline);
      ReadsThenDisciplined(w.history, log0, log1, log1, p, o, deadline);
      return Err, deadline;
    }
    var ok := ApplyAndVerify(w, p, o, prep.value);
    ReadsThenDisciplined(w.history, log0, log1, w.log, p, o, deadline);
    if ok {
      ReadsThenConfirmed(log0, log1, w.log, p, o, deadline);
    }
    return if ok then Ok(()) else Err, deadline;
  }

  /** As long as no command faults and none begins after the deadline, none expires either. */
  lemma {:induction false} InTimeIsUndisturbed(history: seq<State>, log: seq<Event>, n: nat, p: Plan, o: Options, deadline: real)
    requires n <= |log| < |history| && Disciplined(history, log, n, p, o, deadline)
    requires FaultlessSince(log, n) && forall k :: n <= k < |log| ==> log[k].start < deadline
    ensures UndisturbedSince(log, n)
  {
    forall k | n <= k < |log|
      ensures !log[k].outcome.Expired?
    {
      assert Proper(history, log, n, k, p, o, deadline);
    }
  }

  /** At every point of every rollout at most eight existing workloads are changed and not yet confirmed. */
  lemma {:induction false} BoundedExposure(
    history: seq<State>, log: seq<Event>, n: nat, p: Plan, o: Options, deadline: real, k: nat)
    requires n <= k <= |log| < |history| && Disciplined(history, log, n, p, o, deadline)
    ensures |Unconfirmed(log, n, k)| <= 8
  {
    AtMostEightUnconfirmed(log, n, ChangedIds(PlannedChanges(p, o)), k);
  }

  /** The waves are kept by time as well: when a workload is to be changed, whether that then succeeds or not, every
      change of every earlier wave has been made and reported rolled out, and nothing at all has failed before. */
  lemma {:induction false} EarlierWavesConfirmed(
    history: seq<State>, log: seq<Event>, n: nat, p: Plan, o: Options, deadline: real, k: nat) returns (j: nat, s: nat)
    requires n <= k < |log| < |history| && Disciplined(history, log, n, p, o, deadline) && Changes(log[k].command)
    ensures AllChange(PlannedChanges(p, o)) && j < |PlannedChanges(p, o)| && PlannedChanges(p, o)[j] == log[k].command
    ensures n <= s <= k && forall m :: n <= m < s ==> log[m].outcome.Done?
    ensures forall i :: 0 <= i < |PlannedChanges(p, o)| && i / MAX_WORKERS < j / MAX_WORKERS ==>
              Settled(log, n, s, PlannedChanges(p, o)[i])
  {
    var commands := PlannedChanges(p, o);
    assert HasTurn(log, n, k, commands);
    j :| 0 <= j < |commands| && InTurn(log, n, k, commands, j);
    s :| n <= s <= k && FirstSettled(log, n, s, commands, WaveBegin(j));
    forall i | 0 <= i < |commands| && i / MAX_WORKERS < j / MAX_WORKERS
      ensures i < WaveBegin(j)
    {
    }
  }

  /** In a loaded plan no change is planned twice, so that place in the list is the only one. */
  lemma {:induction false} PlannedOnce(p: Plan, o: Options)
    requires WellFormed(p)
    ensures NoDuplicates(PlannedChanges(p, o))
  {
    var commands := PlannedChanges(p, o);
    if o.reconcile && PlannedPatches(p, o).Ok? {
      PlannedPatchesDistinct(p, o);
      forall i, j | 0 <= i < j < |commands|
        ensures commands[i] != commands[j]
      {
        assert PatchIds(PlannedPatches(p, o).value)[i] != PatchIds(PlannedPatches(p, o).value)[j];
      }
    } else if !o.reconcile {
      forall i, j | 0 <= i < j < |commands|
        ensures commands[i] != commands[j]
      {
        SlotsDiffer(p, i, j);
        assert RolloutSlots(p)[i].container in commands[i].images;
      }
    }
  }

  lemma {:induction false} SlotsDiffer(p: Plan, i: nat, j: nat)
    requires WellFormed(p) && i < j < |RolloutSlots(p)|
    ensures RolloutSlots(p)[i] != RolloutSlots(p)[j]
  {
    var a, b := Places(p)[i], Places(p)[j];
    assert a != b && StartsWith(a.resource, DEPLOYMENT_PREFIX) && StartsWith(b.resource, DEPLOYMENT_PREFIX);
    assert RolloutSlots(p)[i] == Slot(Id(a.namespace, NameOf(a.resource)), a.container);
    assert RolloutSlots(p)[j] == Slot(Id(b.namespace, NameOf(b.resource)), b.container);
    if RolloutSlots(p)[i] == RolloutSlots(p)[j] {
      IdInjective(Workload(a.namespace, a.resource), Workload(b.namespace, b.resource));
    }
  }
}
