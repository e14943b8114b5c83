/** Captured plans: when capture succeeds, when the plan survives its file, and what it says of the cluster. */
module CapturedPlans {
  import opened Basics
  import opened JsonTrees
  import opened Images
  import opened Ordering
  import opened Clusters
  import opened Inventories
  import opened Plans
  import opened Capture
  import opened CaptureFacts

  // ---- captured states ----

  lemma {:induction false} StatesCaptured(acc: seq<DeploymentState>, resources: seq<string>, items: seq<Item>, namespace: string)
    ensures CaptureStates(acc, resources, items, namespace).Ok? <==>
              forall i :: 0 <= i < |resources| ==> CaptureState(resources[i], items, namespace).Ok?
    ensures CaptureStates(acc, resources, items, namespace).Ok? ==>
              var r := CaptureStates(acc, resources, items, namespace).value;
              && |r| == |acc| + |resources|
              && acc <= r
              && forall i :: 0 <= i < |resources| ==> CaptureState(resources[i], items, namespace) == Ok(r[|acc| + i])
    decreases |resources|
  {
    if resources != [] {
      var rest := resources[1..];
      assert forall i :: 0 < i < |resources| ==> resources[i] == rest[i - 1];
      var state := CaptureState(resources[0], items, namespace);
      if state.Ok? {
        var next := acc + [state.value];
        StatesCaptured(next, rest, items, namespace);
        assert forall i :: 0 <= i < |rest| ==> rest[i] == resources[i + 1];
        if CaptureStates(acc, resources, items, namespace).Ok? {
          var r := CaptureStates(next, rest, items, namespace).value;
          assert r[|acc|] == next[|acc|];
          forall i | 0 <= i < |resources|
            ensures CaptureState(resources[i], items, namespace) == Ok(r[|acc| + i])
          {
            if i > 0 {
              assert CaptureState(rest[i - 1], items, namespace) == Ok(r[|next| + (i - 1)]);
            }
          }
        }
      }
    }
  }

  lemma {:induction false} FoundItem(items: seq<Item>, name: string)
    ensures FindItem(items, name).None? ==> forall i :: 0 <= i < |items| ==> items[i].name != name
    ensures FindItem(items, name).Some? ==> FindItem(items, name).value in items && FindItem(items, name).value.name == name
  {
    if items != [] {
      FoundItem(items[1..], name);
      assert forall i :: 0 < i < |items| ==> items[i] == items[1..][i - 1];
    }
  }

  function StateResources(states: seq<DeploymentState>): (r: seq<string>)
    ensures |r| == |states| && forall i :: 0 <= i < |r| ==> r[i] == states[i].resource
  {
    seq(|states|, i requires 0 <= i < |states| => states[i].resource)
  }

  /** The captured states are, once each and in order of name, the live workloads that own a target. */
  ghost predicate StatesCoverTargets(p: Plan, items: seq<Item>) {
    && Ascending(StateResources(p.deploymentStates), Less)
    && CoversTargets(p)
    && forall i :: 0 <= i < |p.deploymentStates| ==>
         var state := p.deploymentStates[i];
         && state.strategy.JObject?
         && Item(NameOf(state.resource), Deployment(state.strategy, state.template)) in items
  }

  lemma {:induction false} PlanStates(q: Request, items: seq<Item>) returns (p: Plan, resources: seq<string>)
    requires PlanOf(q, items).Ok?
    ensures p == PlanOf(q, items).value
    ensures resources == SortedSet(TargetResources(p.targets), Less)
    ensures Ascending(resources, Less) && NoDuplicates(resources)
    ensures forall resource :: resource in resources <==> resource in TargetResources(p.targets)
    ensures |p.deploymentStates| == |resources|
    ensures forall i :: 0 <= i < |resources| ==>
              && p.deploymentStates[i].namespace == q.namespace
              && p.deploymentStates[i].resource == resources[i]
              && CaptureState(resources[i], items, q.namespace) == Ok(p.deploymentStates[i])
  {
    PlanPartitions(q, items);
    p := PlanOf(q, items).value;
    resources := SortedResources(p.targets);
    StatesInOrder(resources, items, q.namespace, p.deploymentStates);
  }

  lemma {:induction false} SortedResources(targets: seq<RollbackTarget>) returns (resources: seq<string>)
    ensures resources == SortedSet(TargetResources(targets), Less)
    ensures Ascending(resources, Less) && NoDuplicates(resources)
    ensures forall resource :: resource in resources <==> resource in TargetResources(targets)
  {
    resources := SortedSet(TargetResources(targets), Less);
    LessIsStrictOrder();
    SortedSetMeaning(TargetResources(targets), Less);
  }

  lemma {:induction false} StatesInOrder(resources: seq<string>, items: seq<Item>, namespace: string, states: seq<DeploymentState>)
    requires CaptureStates([], resources, items, namespace) == Ok(states)
    ensures |states| == |resources|
    ensures forall i :: 0 <= i < |resources| ==>
              && states[i].namespace == namespace && states[i].resource == resources[i]
              && CaptureState(resources[i], items, namespace) == Ok(states[i])
  {
    StatesCaptured([], resources, items, namespace);
  }

  lemma {:induction false} PlanCoversTargets(q: Request, items: seq<Item>)
    requires PlanOf(q, items).Ok?
    ensures StatesCoverTargets(PlanOf(q, items).value, items)
    ensures NoDuplicates(StateWorkloads(PlanOf(q, items).value.deploymentStates))
  {
    var p, resources := PlanStates(q, items);
    TargetNamespaces(q, items);
    ResourcesCover(p, resources, q.namespace);
    assert StateResources(p.deploymentStates) == resources;
    forall i | 0 <= i < |p.deploymentStates|
      ensures p.deploymentStates[i].strategy.JObject?
      ensures Item(NameOf(p.deploymentStates[i].resource),
                   Deployment(p.deploymentStates[i].strategy, p.deploymentStates[i].template)) in items
    {
      FoundItem(items, NameOf(resources[i]));
    }
  }

  lemma {:induction false} TargetNamespaces(q: Request, items: seq<Item>)
    requires PlanOf(q, items).Ok?
    ensures forall i :: 0 <= i < |PlanOf(q, items).value.targets| ==> PlanOf(q, items).value.targets[i].namespace == q.namespace
  {
    PlanPartitions(q, items);
  }

  lemma {:induction false} ResourcesCover(p: Plan, resources: seq<string>, namespace: string)
    requires forall resource :: resource in resources <==> resource in TargetResources(p.targets)
    requires NoDuplicates(resources) && |p.deploymentStates| == |resources|
    requires forall i :: 0 <= i < |resources| ==>
               p.deploymentStates[i].namespace == namespace && p.deploymentStates[i].resource == resources[i]
    requires forall i :: 0 <= i < |p.targets| ==> p.targets[i].namespace == namespace
    ensures CoversTargets(p) && NoDuplicates(StateWorkloads(p.deploymentStates))
  {
    var ws, ts := StateWorkloads(p.deploymentStates), TargetWorkloads(p.targets);
    forall w | w in ts
      ensures w in ws
    {
      var i :| 0 <= i < |ts| && ts[i] == w;
      assert TargetResources(p.targets)[i] in TargetResources(p.targets);
      var k :| 0 <= k < |resources| && resources[k] == p.targets[i].resource;
      assert ws[k] == w;
    }
    forall w | w in ws
      ensures w in ts
    {
      var k :| 0 <= k < |ws| && ws[k] == w;
      assert resources[k] in TargetResources(p.targets);
      var i :| 0 <= i < |p.targets| && TargetResources(p.targets)[i] == resources[k];
      assert ts[i] == w;
    }
  }

  // ---- the plan survives its file exactly when every recorded name is a Kubernetes name ----

  ghost predicate ValidNames(q: Request, inv: Inventory)
    requires Ordered(inv)
  {
    forall ident :: ident in q.expected || ident in OutsideOf(inv, q) ==>
      IsKubernetesName(ident.deployment) && IsKubernetesName(ident.container)
  }

  function PlaceOf(ident: Ident, namespace: string): Place {
    Place(namespace, Resource(ident.deployment), ident.container)
  }

  lemma {:induction false} PlaceInjective(a: Ident, b: Ident, namespace: string)
    requires a != b
    ensures PlaceOf(a, namespace) != PlaceOf(b, namespace)
  {
    NameOfResource(a.deployment);
    NameOfResource(b.deployment);
  }

  lemma {:induction false} ResourceValid(name: string)
    ensures IsDeploymentResource(Resource(name)) <==> IsKubernetesName(name)
  {
    assert Resource(name)[..|DEPLOYMENT_PREFIX|] == DEPLOYMENT_PREFIX;
    assert Resource(name)[|DEPLOYMENT_PREFIX|..] == name;
  }

  /** Every container the plan records, in the plan's own order. */
  function RecordedIdents(inv: Inventory, q: Request): seq<Ident>
    requires Ordered(inv)
  {
    LiveAmong(q.expected, inv) + AbsentAmong(q.expected, inv) + OutsideOf(inv, q)
  }

  lemma {:induction false} RecordedOnce(inv: Inventory, q: Request)
    requires Ordered(inv) && NoDuplicates(q.expected)
    ensures NoDuplicates(RecordedIdents(inv, q))
  {
    var live, absent, outside := LiveAmong(q.expected, inv), AbsentAmong(q.expected, inv), OutsideOf(inv, q);
    LiveAmongMeaning(q.expected, inv);
    if q.repository.Some? {
      OutsideAmongMeaning(inv.order, inv, q);
    }
    DisjointConcat(live, absent);
    DisjointConcat(live + absent, outside);
  }

  lemma {:induction false} DisjointConcat<T>(a: seq<T>, b: seq<T>)
    requires NoDuplicates(a) && NoDuplicates(b)
    requires forall x :: x in a ==> x !in b
    ensures NoDuplicates(a + b)
  {
    forall i, j | 0 <= i < j < |a + b|
      ensures (a + b)[i] != (a + b)[j]
    {
      if i < |a| <= j {
        assert a[i] in a && b[j - |a|] in b;
      }
    }
  }

  lemma {:induction false} PlanPlaces(p: Plan, inv: Inventory, q: Request)
    requires Ordered(inv) && Partitions(p, inv, q) && NoDuplicates(q.expected)
    ensures |Places(p)| == |q.expected| + |OutsideOf(inv, q)|
    ensures NoDuplicates(Places(p))
  {
    var idents := RecordedIdents(inv, q);
    RecordedOnce(inv, q);
    LiveAndAbsent(q.expected, inv);
    PlacesRecorded(p, inv, q);
    forall i, j | 0 <= i < j < |idents|
      ensures Places(p)[i] != Places(p)[j]
    {
      PlaceInjective(idents[i], idents[j], q.namespace);
    }
  }

  lemma {:induction false} PlacesRecorded(p: Plan, inv: Inventory, q: Request)
    requires Ordered(inv) && Partitions(p, inv, q)
    ensures |Places(p)| == |RecordedIdents(inv, q)|
    ensures forall i :: 0 <= i < |Places(p)| ==> Places(p)[i] == PlaceOf(RecordedIdents(inv, q)[i], q.namespace)
  {
  }

  lemma {:induction false} LiveTemplateNotEmpty(items: seq<Item>, ident: Ident)
    requires DistinctNames(items) && LiveImages(items).Ok? && ident in LiveImages(items).value.images
    requires FindItem(items, ident.deployment).Some?
    ensures var template := FindItem(items, ident.deployment).value.spec.template;
            Containers(template).Some? && Containers(template).value != []
  {
    AddItemsAdds(EMPTY, items);
    FoundItem(items, ident.deployment);
    var i :| 0 <= i < |items| && items[i].name == ident.deployment && TemplateImage(items[i].spec.template, ident.container).Some?;
    var k :| 0 <= k < |items| && items[k] == FindItem(items, ident.deployment).value;
    assert i == k;
  }

  lemma {:induction false} StatesValid(q: Request, items: seq<Item>, i: nat)
    requires PlanOf(q, items).Ok?
    requires i < |PlanOf(q, items).value.deploymentStates|
    ensures var state := PlanOf(q, items).value.deploymentStates[i];
            ValidState(state) <==> IsKubernetesName(NameOf(state.resource))
    ensures exists k :: 0 <= k < |q.expected| && q.expected[k].deployment == NameOf(PlanOf(q, items).value.deploymentStates[i].resource)
  {
    var p, resources := PlanStates(q, items);
    PlanPartitions(q, items);
    var inv := LiveImages(items).value;
    assert resources[i] in TargetResources(p.targets);
    var t :| 0 <= t < |p.targets| && TargetResources(p.targets)[t] == resources[i];
    var ident := LiveAmong(q.expected, inv)[t];
    assert ident in LiveAmong(q.expected, inv);
    LiveAmongMeaning(q.expected, inv);
    NameOfResource(ident.deployment);
    ResourceValid(ident.deployment);
    LiveTemplateNotEmpty(items, ident);
  }

  predicate ValidIdent(ident: Ident) {
    IsKubernetesName(ident.deployment) && IsKubernetesName(ident.container)
  }

  predicate AllValid(idents: seq<Ident>) {
    forall i :: 0 <= i < |idents| ==> ValidIdent(idents[i])
  }

  lemma {:induction false} TargetsValid(targets: seq<RollbackTarget>, idents: seq<Ident>, inv: Inventory, q: Request)
    requires RecordsTargets(targets, idents, inv, q) && Attests(q.verified) && IsKubernetesName(q.namespace)
    ensures AllValid(idents) <==>
            (forall i :: 0 <= i < |targets| ==> ValidTarget(targets[i]))
  {
    forall i | 0 <= i < |idents|
      ensures ValidIdent(idents[i]) <==> ValidTarget(targets[i])
    {
      ResourceValid(idents[i].deployment);
    }
  }

  lemma {:induction false} BootstrapsValid(targets: seq<BootstrapTarget>, idents: seq<Ident>, q: Request)
    requires RecordsBootstraps(targets, idents, q) && IsKubernetesName(q.namespace)
    ensures AllValid(idents) <==>
            (forall i :: 0 <= i < |targets| ==> ValidBootstrap(targets[i]))
  {
    forall i | 0 <= i < |idents|
      ensures ValidIdent(idents[i]) <==> ValidBootstrap(targets[i])
    {
      ResourceValid(idents[i].deployment);
    }
  }

  lemma {:induction false} ProtectedsValid(targets: seq<ProtectedTarget>, idents: seq<Ident>, inv: Inventory, q: Request)
    requires RecordsProtecteds(targets, idents, inv, q) && Attests(q.verified) && IsKubernetesName(q.namespace)
    ensures AllValid(idents) <==>
            (forall i :: 0 <= i < |targets| ==> ValidProtected(targets[i]))
  {
    forall i | 0 <= i < |idents|
      ensures ValidIdent(idents[i]) <==> ValidProtected(targets[i])
    {
      ResourceValid(idents[i].deployment);
    }
  }

  lemma {:induction false} NamesSplit(q: Request, inv: Inventory)
    requires Ordered(inv)
    ensures ValidNames(q, inv) <==>
              AllValid(LiveAmong(q.expected, inv)) && AllValid(AbsentAmong(q.expected, inv)) && AllValid(OutsideOf(inv, q))
  {
    LiveAmongMeaning(q.expected, inv);
    AllValidMeaning(LiveAmong(q.expected, inv));
    AllValidMeaning(AbsentAmong(q.expected, inv));
    AllValidMeaning(OutsideOf(inv, q));
  }

  lemma {:induction false} AllValidMeaning(idents: seq<Ident>)
    ensures AllValid(idents) <==> forall ident :: ident in idents ==> ValidIdent(ident)
  {
    assert forall i :: 0 <= i < |idents| ==> idents[i] in idents;
  }

  lemma {:induction false} PartsValid(p: Plan, inv: Inventory, q: Request)
    requires Ordered(inv) && Partitions(p, inv, q) && Attests(q.verified) && IsKubernetesName(q.namespace)
    ensures ValidNames(q, inv) <==>
              && (forall i :: 0 <= i < |p.targets| ==> ValidTarget(p.targets[i]))
              && (forall i :: 0 <= i < |p.bootstrapTargets| ==> ValidBootstrap(p.bootstrapTargets[i]))
              && (forall i :: 0 <= i < |p.protectedTargets| ==> ValidProtected(p.protectedTargets[i]))
  {
    NamesSplit(q, inv);
    TargetsValid(p.targets, LiveAmong(q.expected, inv), inv, q);
    BootstrapsValid(p.bootstrapTargets, AbsentAmong(q.expected, inv), q);
    ProtectedsValid(p.protectedTargets, OutsideOf(inv, q), inv, q);
  }

  /** A captured plan passes all of `load_plan`'s checks, after being written, exactly when the names are valid. */
  lemma {:induction false} CapturedPlanLoads(q: Request, items: seq<Item>)
    requires PlanOf(q, items).Ok?
    requires NoDuplicates(q.expected) && Attests(q.verified)
    ensures LiveImages(items).Ok? && Ordered(LiveImages(items).value)
    ensures var p := PlanOf(q, items).value;
            LoadPlan(WritePlan(p)) == if ValidNames(q, LiveImages(items).value) then Ok(p) else Err
  {
    PlanPartitions(q, items);
    PlanCoversTargets(q, items);
    var p, inv := PlanOf(q, items).value, LiveImages(items).value;
    PlanRoundTrip(p);
    PlanPlaces(p, inv, q);
    PartsValid(p, inv, q);
    forall i | 0 <= i < |p.deploymentStates|
      ensures ValidNames(q, inv) ==> ValidState(p.deploymentStates[i])
    {
      StatesValid(q, items, i);
    }
  }

  // ---- when capture succeeds ----

  ghost predicate CaptureAllowed(q: Request, items: seq<Item>)
  {
    && DistinctNames(items)
    && IsKubernetesName(q.namespace)
    && IsGitSha(q.previousReleaseSha)
    && ReadableItems(items)
    && LiveImages(items).Ok? && Ordered(LiveImages(items).value)
    && ContainersAllowed(q, items, LiveImages(items).value)
  }

  ghost predicate ContainersAllowed(q: Request, items: seq<Item>, inv: Inventory)
    requires Ordered(inv)
  {
    && (forall i :: 0 <= i < |q.expected| ==> Capturable(q.expected[i], inv, q))
    && (q.repository.Some? ==> forall i :: 0 <= i < |inv.order| ==> Protectable(inv.order[i], inv, q))
    && q.verified.Keys <= TagsOf(LiveAmong(q.expected, inv), inv) + TagsOf(OutsideOf(inv, q), inv)
    && (q.expected != [] || OutsideOf(inv, q) != [])
    && StrategiesReadable(LiveAmong(q.expected, inv), items)
  }

  /** The workloads that own one of these containers have an object for their strategy. */
  predicate StrategiesReadable(idents: seq<Ident>, items: seq<Item>) {
    forall t :: 0 <= t < |idents| ==>
      FindItem(items, idents[t].deployment).Some? ==> FindItem(items, idents[t].deployment).value.spec.strategy.JObject?
  }

  lemma {:induction false} LiveAndAbsent(idents: seq<Ident>, inv: Inventory)
    ensures |LiveAmong(idents, inv)| + |AbsentAmong(idents, inv)| == |idents|
  {
    if idents != [] {
      LiveAndAbsent(idents[1..], inv);
    }
  }

  /** Capture refuses exactly the inputs its checks name; nothing else can stop it. */
  lemma {:induction false} CaptureSucceedsExactly(q: Request, items: seq<Item>)
    ensures PlanOf(q, items).Ok? <==> CaptureAllowed(q, items)
  {
    InventoryOrdered(items);
    if DistinctNames(items) {
      AddItemsAccepts(EMPTY, items);
    }
    if LiveImages(items).Ok? && DistinctNames(items) {
      ContainersExactly(q, items);
    }
  }

  lemma {:induction false} ContainersExactly(q: Request, items: seq<Item>)
    requires LiveImages(items).Ok? && DistinctNames(items)
    ensures Ordered(LiveImages(items).value)
    ensures var draft := CaptureDraft(LiveImages(items).value, q);
            (draft.Ok? && Complete(draft.value, q)
             && CaptureStates([], SortedSet(TargetResources(draft.value.targets), Less), items, q.namespace).Ok?)
            <==> ContainersAllowed(q, items, LiveImages(items).value)
  {
    InventoryOrdered(items);
    var inv := LiveImages(items).value;
    ExpectedPassAccepts(EMPTY_DRAFT, q.expected, inv, q);
    LiveAndAbsent(q.expected, inv);
    if CaptureAllExpected(EMPTY_DRAFT, q.expected, inv, q).Ok? {
      ExpectedPass(EMPTY_DRAFT, q.expected, inv, q);
      var first := CaptureAllExpected(EMPTY_DRAFT, q.expected, inv, q).value;
      if q.repository.Some? {
        ProtectedPassAccepts(first, inv.order, inv, q);
      }
      if CaptureDraft(inv, q).Ok? {
        if q.repository.Some? {
          ProtectedPass(first, inv.order, inv, q);
        }
        StatesCapturable(q, items, CaptureDraft(inv, q).value);
      }
    }
  }

  lemma {:induction false} StatesCapturable(q: Request, items: seq<Item>, d: Draft)
    requires DistinctNames(items) && LiveImages(items).Ok?
    requires RecordsTargets(d.targets, LiveAmong(q.expected, LiveImages(items).value), LiveImages(items).value, q)
    ensures CaptureStates([], SortedSet(TargetResources(d.targets), Less), items, q.namespace).Ok? <==>
              StrategiesReadable(LiveAmong(q.expected, LiveImages(items).value), items)
  {
    var resources := SortedSet(TargetResources(d.targets), Less);
    var live := LiveAmong(q.expected, LiveImages(items).value);
    LessIsStrictOrder();
    SortedSetMeaning(TargetResources(d.targets), Less);
    StatesCaptured([], resources, items, q.namespace);
    forall t | 0 <= t < |live|
      ensures CaptureState(TargetResources(d.targets)[t], items, q.namespace).Ok? <==>
                (FindItem(items, live[t].deployment).Some? ==> FindItem(items, live[t].deployment).value.spec.strategy.JObject?)
    {
      OneStateCapturable(items, live[t], q.namespace);
    }
    if forall t :: 0 <= t < |live| ==> CaptureState(TargetResources(d.targets)[t], items, q.namespace).Ok? {
      forall m | 0 <= m < |resources|
        ensures CaptureState(resources[m], items, q.namespace).Ok?
      {
        assert resources[m] in TargetResources(d.targets);
      }
    } else {
      var t :| 0 <= t < |live| && CaptureState(TargetResources(d.targets)[t], items, q.namespace).Err?;
      assert TargetResources(d.targets)[t] in resources;
    }
  }

  lemma {:induction false} OneStateCapturable(items: seq<Item>, ident: Ident, namespace: string)
    requires DistinctNames(items) && LiveImages(items).Ok? && ident in LiveImages(items).value.images
    ensures FindItem(items, ident.deployment).Some?
    ensures CaptureState(Resource(ident.deployment), items, namespace).Ok? <==>
              FindItem(items, ident.deployment).value.spec.strategy.JObject?
  {
    NameOfResource(ident.deployment);
    FoundItem(items, ident.deployment);
    AddItemsAdds(EMPTY, items);
    LiveTemplateNotEmpty(items, ident);
  }

  // ---- capture without a manifest ----

  predicate IsRepositoryName(repository: string) {
    && repository != "" && !HasSpace(repository) && '@' !in repository
    && LastIndex(repository, ':') <= LastIndex(repository, '/')
  }

  function InRepository(idents: seq<Ident>, inv: Inventory, repository: string): Result<seq<Ident>>
    requires AllLive(idents, inv)
  {
    if idents == [] then Ok([])
    else
      var first :- ImageRepository(inv.images[idents[0]]);
      var rest :- InRepository(idents[1..], inv, repository);
      Ok((if first == repository then [idents[0]] else []) + rest)
  }

  /** `expected_repository_containers`. */
  function ExpectedRepositoryContainers(inv: Inventory, repository: string): Result<seq<Ident>>
    requires Ordered(inv)
  {
    if !IsRepositoryName(repository) then Err
    else
      var expected :- InRepository(inv.order, inv, repository);
      if expected == [] then Err else Ok(expected)
  }

  lemma {:induction false} InRepositoryMeaning(idents: seq<Ident>, inv: Inventory, repository: string)
    requires AllLive(idents, inv) && InRepository(idents, inv, repository).Ok?
    ensures forall ident :: ident in InRepository(idents, inv, repository).value <==>
              ident in idents && ident in inv.images && ImageRepository(inv.images[ident]) == Ok(repository)
    ensures NoDuplicates(idents) ==> NoDuplicates(InRepository(idents, inv, repository).value)
  {
    if idents != [] {
      InRepositoryMeaning(idents[1..], inv, repository);
      assert idents == [idents[0]] + idents[1..];
    }
  }

  lemma {:induction false} AllLiveAmong(idents: seq<Ident>, inv: Inventory)
    requires AllLive(idents, inv)
    ensures LiveAmong(idents, inv) == idents && AbsentAmong(idents, inv) == []
  {
    if idents != [] {
      AllLiveAmong(idents[1..], inv);
    }
  }

  lemma {:induction false} NothingOutsideAmong(idents: seq<Ident>, inv: Inventory, q: Request)
    requires q.repository.Some? && AllLive(idents, inv)
    requires forall ident ::
               (ident in idents && ident in inv.images && ImageRepository(inv.images[ident]) == Ok(q.repository.value)) ==>
                 ident in q.expected
    ensures OutsideAmong(idents, inv, q) == []
  {
    if idents != [] {
      assert idents[0] in idents;
      NothingOutsideAmong(idents[1..], inv, q);
    }
  }

  /** One element stands before another. */
  predicate Precedes<T(==)>(s: seq<T>, x: T, y: T) {
    exists a, b :: 0 <= a < b < |s| && s[a] == x && s[b] == y
  }

  ghost predicate KeepsOrder<T(!new)>(sub: seq<T>, s: seq<T>) {
    && (forall x :: x in sub ==> x in s)
    && forall i, j :: 0 <= i < j < |sub| ==> Precedes(s, sub[i], sub[j])
  }

  lemma {:induction false} KeepsOrderCons<T(!new)>(sub: seq<T>, s: seq<T>, more: seq<T>)
    requires s != [] && KeepsOrder(sub, s[1..]) && (more == [] || more == [s[0]])
    ensures KeepsOrder(more + sub, s)
  {
    var all := more + sub;
    forall i, j | 0 <= i < j < |all|
      ensures Precedes(s, all[i], all[j])
    {
      if i < |more| {
        assert all[j] == sub[j - |more|] && all[j] in s[1..];
        var b :| 0 <= b < |s[1..]| && s[1..][b] == all[j];
        assert s[b + 1] == all[j] && s[0] == all[i];
      } else {
        assert all[i] == sub[i - |more|] && all[j] == sub[j - |more|];
        PrecedesLater(s, all[i], all[j]);
      }
    }
  }

  /** The listed containers of the repository keep the order of the inventory. */
  lemma {:induction false} InRepositoryOrder(idents: seq<Ident>, inv: Inventory, repository: string)
    requires AllLive(idents, inv) && InRepository(idents, inv, repository).Ok?
    ensures KeepsOrder(InRepository(idents, inv, repository).value, idents)
  {
    if idents != [] {
      var more := if ImageRepository(inv.images[idents[0]]) == Ok(repository) then [idents[0]] else [];
      InRepositoryOrder(idents[1..], inv, repository);
      KeepsOrderCons(InRepository(idents[1..], inv, repository).value, idents, more);
    }
  }

  lemma {:induction false} PrecedesLater<T>(s: seq<T>, x: T, y: T)
    requires s != [] && Precedes(s[1..], x, y)
    ensures Precedes(s, x, y)
  {
    var a, b :| 0 <= a < b < |s[1..]| && s[1..][a] == x && s[1..][b] == y;
    assert s[a + 1] == x && s[b + 1] == y;
  }

  /** The list is exactly the live containers of the repository, each once, in the order of the inventory. */
  ghost predicate LiveOfRepository(idents: seq<Ident>, inv: Inventory, repository: string) {
    && NoDuplicates(idents)
    && (forall ident :: ident in idents <==> ident in inv.images && ImageRepository(inv.images[ident]) == Ok(repository))
    && KeepsOrder(idents, inv.order)
  }

  /** Captured without a manifest, a plan has a target for each live container of the repository, in the order of the
      listing and at its digest, and nothing else: nothing to create and nothing to protect. */
  lemma {:induction false} RepositoryCapture(q: Request, items: seq<Item>, repository: string)
    requires PlanOf(q, items).Ok? && q.repository == Some(repository)
    requires LiveImages(items).Ok? && Ordered(LiveImages(items).value)
    requires ExpectedRepositoryContainers(LiveImages(items).value, repository) == Ok(q.expected)
    ensures LiveOfRepository(q.expected, LiveImages(items).value, repository) && KeepsOrder(q.expected, ItemIdents(items))
    ensures var p := PlanOf(q, items).value;
            && RecordsTargets(p.targets, q.expected, LiveImages(items).value, q)
            && p.bootstrapTargets == [] && p.protectedTargets == []
  {
    var inv := LiveImages(items).value;
    InRepositoryOrder(inv.order, inv, repository);
    InventoryInOrder(items);
    PlanPartitions(q, items);
    InRepositoryMeaning(inv.order, inv, repository);
    forall i | 0 <= i < |q.expected|
      ensures q.expected[i] in inv.images
    {
      assert q.expected[i] in q.expected;
    }
    AllLiveAmong(q.expected, inv);
    NothingOutsideAmong(inv.order, inv, q);
  }
}
