/** The commands of a rollback and what they do to a cluster that an interrupted rollout left behind. */
module RollbackSemantics {
  import opened Basics
  import opened JsonTrees
  import opened Images
  import opened Ordering
  import opened Clusters
  import opened Inventories
  import opened Plans

  // ---- the commands, in the order they are issued ----

  function IdOf(w: Workload): Id {
    Id(w.namespace, NameOf(w.resource))
  }

  function StateId(state: DeploymentState): Id {
    Id(state.namespace, NameOf(state.resource))
  }

  function TargetsAt(targets: seq<RollbackTarget>, w: Workload): seq<RollbackTarget> {
    if targets == [] then []
    else TargetsAt(targets[..|targets| - 1], w) + (if TargetWorkload(targets[|targets| - 1]) == w then [targets[|targets| - 1]] else [])
  }

  function ImagesOf(targets: seq<RollbackTarget>): map<string, string> {
    if targets == [] then map[]
    else ImagesOf(targets[..|targets| - 1])[targets[|targets| - 1].container := targets[|targets| - 1].image]
  }

  function ImagesAt(targets: seq<RollbackTarget>, w: Workload): map<string, string> {
    ImagesOf(TargetsAt(targets, w))
  }

  function RestoreCommand(state: DeploymentState): Command {
    PatchSpec(StateId(state), state.strategy, state.template)
  }

  function RestoreCommands(states: seq<DeploymentState>): (r: seq<Command>)
    ensures |r| == |states| && forall i :: 0 <= i < |r| ==> r[i] == RestoreCommand(states[i])
  {
    seq(|states|, i requires 0 <= i < |states| => RestoreCommand(states[i]))
  }

  function SetImageCommands(workloads: seq<Workload>, targets: seq<RollbackTarget>): (r: seq<Command>)
    ensures |r| == |workloads|
    ensures forall i :: 0 <= i < |r| ==> r[i] == SetImages(IdOf(workloads[i]), ImagesAt(targets, workloads[i]))
  {
    seq(|workloads|, i requires 0 <= i < |workloads| => SetImages(IdOf(workloads[i]), ImagesAt(targets, workloads[i])))
  }

  function BootstrapPairs(targets: seq<BootstrapTarget>): (r: seq<(string, string)>)
    ensures |r| == |targets| && forall i :: 0 <= i < |r| ==> r[i] == (targets[i].namespace, targets[i].resource)
  {
    seq(|targets|, i requires 0 <= i < |targets| => (targets[i].namespace, targets[i].resource))
  }

  function DeleteCommands(pairs: seq<(string, string)>): (r: seq<Command>)
    ensures |r| == |pairs| && forall i :: 0 <= i < |r| ==> r[i] == Delete(Id(pairs[i].0, NameOf(pairs[i].1)))
  {
    seq(|pairs|, i requires 0 <= i < |pairs| => Delete(Id(pairs[i].0, NameOf(pairs[i].1))))
  }

  function RollbackWorkloads(p: Plan): seq<Workload> {
    FirstOccurrences(TargetWorkloads(p.targets))
  }

  function RollbackMutations(p: Plan): seq<Command> {
    RestoreCommands(p.deploymentStates)
    + SetImageCommands(RollbackWorkloads(p), p.targets)
    + DeleteCommands(SortedSet(BootstrapPairs(p.bootstrapTargets), LessPair))
  }

  // ---- the state a rollout may leave, and the state a rollback restores ----

  ghost predicate IsTargetId(p: Plan, id: Id) {
    exists i :: 0 <= i < |p.targets| && id == Id(p.targets[i].namespace, NameOf(p.targets[i].resource))
  }

  ghost predicate IsBootstrapId(p: Plan, id: Id) {
    exists i :: 0 <= i < |p.bootstrapTargets| && id == Id(p.bootstrapTargets[i].namespace, NameOf(p.bootstrapTargets[i].resource))
  }

  ghost predicate SameAt(a: State, b: State, id: Id) {
    (id in a <==> id in b) && (id in a ==> a[id] == b[id])
  }

  /** Targets may hold anything but are still there, bootstraps may or may not be, nothing else has changed. */
  ghost predicate Mixed(p: Plan, before: State, mid: State) {
    && (forall id :: IsTargetId(p, id) ==> id in mid)
    && (forall id :: !IsTargetId(p, id) && !IsBootstrapId(p, id) ==> SameAt(before, mid, id))
  }

  /** The plan was captured from this cluster. */
  ghost predicate Fits(p: Plan, before: State) {
    && (forall i :: 0 <= i < |p.deploymentStates| ==>
          var state := p.deploymentStates[i];
          StateId(state) in before && before[StateId(state)] == Deployment(state.strategy, state.template))
    && (forall i :: 0 <= i < |p.targets| ==>
          var id := IdOf(TargetWorkload(p.targets[i]));
          && id in before
          && ReadableTemplate(before[id].template)
          && HasContainer(Containers(before[id].template).value, p.targets[i].container))
    && (forall id :: IsBootstrapId(p, id) ==> id !in before)
  }

  function PinnedDeployment(d: Deployment, images: map<string, string>): Deployment {
    if Containers(d.template).Some? then Deployment(d.strategy, PinTemplate(d.template, images)) else d
  }

  /** The captured workloads again, every target at the digest recorded for it. */
  ghost function Restored(p: Plan, before: State): State {
    map id | id in before :: if IsTargetId(p, id) then PinnedDeployment(before[id], ImagesAt(p.targets, Workload(id.namespace, Resource(id.name)))) else before[id]
  }

  // ---- phase by phase ----

  function StateIds(states: seq<DeploymentState>): (r: seq<Id>)
    ensures |r| == |states| && forall i :: 0 <= i < |r| ==> r[i] == StateId(states[i])
  {
    seq(|states|, i requires 0 <= i < |states| => StateId(states[i]))
  }

  function WorkloadIds(workloads: seq<Workload>): (r: seq<Id>)
    ensures |r| == |workloads| && forall i :: 0 <= i < |r| ==> r[i] == IdOf(workloads[i])
  {
    seq(|workloads|, i requires 0 <= i < |workloads| => IdOf(workloads[i]))
  }

  /** Only these workloads have changed, and none has come or gone. */
  ghost predicate OnlyChanged(s: State, ids: seq<Id>, r: State) {
    r.Keys == s.Keys && forall id :: id in s && id !in ids ==> r[id] == s[id]
  }

  lemma {:induction false} OnlyChangedCons(s: State, id: Id, d: Deployment, rest: seq<Id>, r: State)
    requires id in s && id !in rest && OnlyChanged(s[id := d], rest, r)
    ensures OnlyChanged(s, [id] + rest, r) && r[id] == d
  {
    forall other | other in s && other !in [id] + rest
      ensures r[other] == s[other]
    {
      assert other !in rest && other != id;
    }
  }

  lemma {:induction false} RestorePhase(states: seq<DeploymentState>, s: State) returns (r: State)
    requires forall i :: 0 <= i < |states| ==> StateId(states[i]) in s
    requires NoDuplicates(StateIds(states))
    ensures AllAccepted(s, RestoreCommands(states)) && r == RunAll(s, RestoreCommands(states))
    ensures OnlyChanged(s, StateIds(states), r)
    ensures forall i :: 0 <= i < |states| ==>
              StateId(states[i]) in r && r[StateId(states[i])] == Deployment(states[i].strategy, states[i].template)
    decreases |states|
  {
    if states == [] {
      r := s;
    } else {
      var rest, id, d := states[1..], StateId(states[0]), Deployment(states[0].strategy, states[0].template);
      assert RestoreCommands(states)[1..] == RestoreCommands(rest);
      assert StateIds(states) == [id] + StateIds(rest);
      DistinctRest(id, StateIds(rest));
      r := RestorePhase(rest, s[id := d]);
      OnlyChangedCons(s, id, d, StateIds(rest), r);
      assert forall i :: 0 < i < |states| ==> states[i] == rest[i - 1];
    }
  }

  lemma {:induction false} DistinctRest(id: Id, rest: seq<Id>)
    requires NoDuplicates([id] + rest)
    ensures NoDuplicates(rest) && id !in rest
  {
    var all := [id] + rest;
    forall i | 0 <= i < |rest|
      ensures rest[i] != id
    {
      assert all[0] != all[i + 1];
    }
    forall i, j | 0 <= i < j < |rest|
      ensures rest[i] != rest[j]
    {
      assert all[i + 1] != all[j + 1];
    }
  }

  predicate CanPin(s: State, workloads: seq<Workload>, targets: seq<RollbackTarget>) {
    forall i :: 0 <= i < |workloads| ==> Accepts(s, SetImages(IdOf(workloads[i]), ImagesAt(targets, workloads[i])))
  }

  lemma {:induction false} CanPinRest(s: State, workloads: seq<Workload>, targets: seq<RollbackTarget>, d: Deployment)
    requires workloads != [] && CanPin(s, workloads, targets) && NoDuplicates(WorkloadIds(workloads))
    ensures CanPin(s[IdOf(workloads[0]) := d], workloads[1..], targets)
    ensures NoDuplicates(WorkloadIds(workloads[1..])) && IdOf(workloads[0]) !in WorkloadIds(workloads[1..])
    ensures WorkloadIds(workloads) == [IdOf(workloads[0])] + WorkloadIds(workloads[1..])
  {
    var rest := workloads[1..];
    assert WorkloadIds(workloads) == [IdOf(workloads[0])] + WorkloadIds(rest);
    DistinctRest(IdOf(workloads[0]), WorkloadIds(rest));
    forall i | 0 <= i < |rest|
      ensures Accepts(s[IdOf(workloads[0]) := d], SetImages(IdOf(rest[i]), ImagesAt(targets, rest[i])))
    {
      assert rest[i] == workloads[i + 1] && WorkloadIds(rest)[i] in WorkloadIds(rest);
    }
  }

  lemma {:induction false} SetImagePhase(workloads: seq<Workload>, targets: seq<RollbackTarget>, s: State) returns (r: State)
    requires CanPin(s, workloads, targets) && NoDuplicates(WorkloadIds(workloads))
    ensures AllAccepted(s, SetImageCommands(workloads, targets)) && r == RunAll(s, SetImageCommands(workloads, targets))
    ensures OnlyChanged(s, WorkloadIds(workloads), r)
    ensures forall i :: 0 <= i < |workloads| ==>
              IdOf(workloads[i]) in s && IdOf(workloads[i]) in r
              && r[IdOf(workloads[i])] == PinnedDeployment(s[IdOf(workloads[i])], ImagesAt(targets, workloads[i]))
    decreases |workloads|
  {
    if workloads == [] {
      r := s;
    } else {
      var rest, id := workloads[1..], IdOf(workloads[0]);
      var d := PinnedDeployment(s[id], ImagesAt(targets, workloads[0]));
      assert SetImageCommands(workloads, targets)[1..] == SetImageCommands(rest, targets);
      CanPinRest(s, workloads, targets, d);
      assert Effect(s, SetImages(id, ImagesAt(targets, workloads[0]))) == s[id := d];
      r := SetImagePhase(rest, targets, s[id := d]);
      OnlyChangedCons(s, id, d, WorkloadIds(rest), r);
      forall i | 0 < i < |workloads|
        ensures workloads[i] == rest[i - 1] && IdOf(workloads[i]) != id
      {
        assert WorkloadIds(rest)[i - 1] in WorkloadIds(rest);
      }
    }
  }

  predicate PairsName(pairs: seq<(string, string)>, id: Id) {
    exists i :: 0 <= i < |pairs| && Id(pairs[i].0, NameOf(pairs[i].1)) == id
  }

  lemma {:induction false} PairsNameCons(pairs: seq<(string, string)>, id: Id)
    requires pairs != []
    ensures PairsName(pairs, id) <==> Id(pairs[0].0, NameOf(pairs[0].1)) == id || PairsName(pairs[1..], id)
  {
    var rest := pairs[1..];
    if i :| 0 <= i < |rest| && Id(rest[i].0, NameOf(rest[i].1)) == id {
      assert pairs[i + 1] == rest[i];
    }
    if i :| 0 <= i < |pairs| && Id(pairs[i].0, NameOf(pairs[i].1)) == id {
      assert i > 0 ==> rest[i - 1] == pairs[i];
    }
  }

  lemma {:induction false} DeletePhase(pairs: seq<(string, string)>, s: State) returns (r: State)
    ensures AllAccepted(s, DeleteCommands(pairs)) && r == RunAll(s, DeleteCommands(pairs))
    ensures forall id :: id in r <==> id in s && !PairsName(pairs, id)
    ensures forall id :: id in r ==> r[id] == s[id]
    decreases |pairs|
  {
    if pairs == [] {
      r := s;
    } else {
      assert DeleteCommands(pairs)[1..] == DeleteCommands(pairs[1..]);
      r := DeletePhase(pairs[1..], Effect(s, Delete(Id(pairs[0].0, NameOf(pairs[0].1)))));
      forall id
        ensures PairsName(pairs, id) <==> Id(pairs[0].0, NameOf(pairs[0].1)) == id || PairsName(pairs[1..], id)
      {
        PairsNameCons(pairs, id);
      }
    }
  }

  // ---- targets grouped by workload ----

  lemma {:induction false} TargetsAtMeaning(targets: seq<RollbackTarget>, w: Workload)
    ensures forall t :: t in TargetsAt(targets, w) <==> t in targets && TargetWorkload(t) == w
  {
    if targets != [] {
      TargetsAtMeaning(targets[..|targets| - 1], w);
      assert targets == targets[..|targets| - 1] + [targets[|targets| - 1]];
    }
  }

  lemma {:induction false} ImagesOfMeaning(targets: seq<RollbackTarget>)
    ensures forall name :: name in ImagesOf(targets) <==> exists t :: t in targets && t.container == name
    ensures forall name :: name in ImagesOf(targets) ==>
              exists t :: t in targets && t.container == name && t.image == ImagesOf(targets)[name]
  {
    if targets != [] {
      var init, last := targets[..|targets| - 1], targets[|targets| - 1];
      ImagesOfMeaning(init);
      assert targets == init + [last];
      assert last in targets;
      forall name | name in ImagesOf(targets)
        ensures exists t :: t in targets && t.container == name && t.image == ImagesOf(targets)[name]
      {
        if name != last.container {
          assert name in ImagesOf(init);
          var t :| t in init && t.container == name && t.image == ImagesOf(init)[name];
          assert t in targets;
        }
      }
      forall t | t in targets
        ensures t.container in ImagesOf(targets)
      {
        if t in init {
          assert t.container in ImagesOf(init);
        }
      }
    }
  }

  /** With one target per container, the images of a workload are exactly its targets' images. */
  lemma {:induction false} ImagesAtTarget(p: Plan, i: nat)
    requires NoDuplicates(Places(p)) && i < |p.targets|
    ensures var t := p.targets[i];
            t.container in ImagesAt(p.targets, TargetWorkload(t)) && ImagesAt(p.targets, TargetWorkload(t))[t.container] == t.image
  {
    var t := p.targets[i];
    var w := TargetWorkload(t);
    TargetsAtMeaning(p.targets, w);
    ImagesOfMeaning(TargetsAt(p.targets, w));
    assert t in p.targets;
    var u :| u in TargetsAt(p.targets, w) && u.container == t.container && u.image == ImagesAt(p.targets, w)[t.container];
    var j :| 0 <= j < |p.targets| && p.targets[j] == u;
    assert Places(p)[i] == Places(p)[j];
  }

  lemma {:induction false} ImagesAtOnlyTargets(targets: seq<RollbackTarget>, w: Workload, name: string) returns (i: nat)
    requires name in ImagesAt(targets, w)
    ensures i < |targets| && TargetWorkload(targets[i]) == w
    ensures targets[i].container == name && targets[i].image == ImagesAt(targets, w)[name]
  {
    TargetsAtMeaning(targets, w);
    ImagesOfMeaning(TargetsAt(targets, w));
    var t :| t in TargetsAt(targets, w) && t.container == name && t.image == ImagesAt(targets, w)[name];
    i :| 0 <= i < |targets| && targets[i] == t;
  }

  lemma {:induction false} IdInjective(a: Workload, b: Workload)
    requires StartsWith(a.resource, DEPLOYMENT_PREFIX) && StartsWith(b.resource, DEPLOYMENT_PREFIX)
    requires IdOf(a) == IdOf(b)
    ensures a == b
  {
    ResourceOfName(a.resource);
    ResourceOfName(b.resource);
  }

  // ---- the whole rollback ----

  lemma {:induction false} StateOfTarget(p: Plan, i: nat) returns (k: nat)
    requires CoversTargets(p) && i < |p.targets|
    ensures k < |p.deploymentStates| && StateId(p.deploymentStates[k]) == IdOf(TargetWorkload(p.targets[i]))
  {
    assert TargetWorkloads(p.targets)[i] in TargetWorkloadSet(p.targets);
    assert TargetWorkload(p.targets[i]) in StateWorkloadSet(p.deploymentStates);
    k :| 0 <= k < |p.deploymentStates| && StateWorkloads(p.deploymentStates)[k] == TargetWorkload(p.targets[i]);
  }

  lemma {:induction false} TargetOfState(p: Plan, k: nat) returns (i: nat)
    requires CoversTargets(p) && k < |p.deploymentStates|
    ensures i < |p.targets| && StateId(p.deploymentStates[k]) == IdOf(TargetWorkload(p.targets[i]))
  {
    assert StateWorkloads(p.deploymentStates)[k] in StateWorkloadSet(p.deploymentStates);
    assert StateWorkloads(p.deploymentStates)[k] in TargetWorkloadSet(p.targets);
    i :| 0 <= i < |p.targets| && TargetWorkloads(p.targets)[i] == StateWorkloads(p.deploymentStates)[k];
  }

  /** After the first phase every target workload is as captured. */
  ghost predicate SpecsRestored(p: Plan, before: State, mid: State, s: State) {
    && s.Keys == mid.Keys
    && (forall id :: IsTargetId(p, id) ==> id in s && id in before && s[id] == before[id])
    && (forall id :: id in mid && !IsTargetId(p, id) ==> s[id] == mid[id])
  }

  lemma {:induction false} StatesDistinct(p: Plan)
    requires WellFormed(p)
    ensures NoDuplicates(StateIds(p.deploymentStates))
  {
    var states := p.deploymentStates;
    forall i, j | 0 <= i < j < |states|
      ensures StateId(states[i]) != StateId(states[j])
    {
      assert StateWorkloads(states)[i] != StateWorkloads(states)[j];
      assert ValidState(states[i]) && ValidState(states[j]);
      if StateId(states[i]) == StateId(states[j]) {
        IdInjective(StateWorkloads(states)[i], StateWorkloads(states)[j]);
      }
    }
  }

  lemma {:induction false} RestoresSpecs(p: Plan, before: State, mid: State) returns (r: State)
    requires WellFormed(p) && CoversTargets(p) && Fits(p, before) && Mixed(p, before, mid)
    ensures AllAccepted(mid, RestoreCommands(p.deploymentStates)) && r == RunAll(mid, RestoreCommands(p.deploymentStates))
    ensures SpecsRestored(p, before, mid, r)
  {
    var states := p.deploymentStates;
    forall k | 0 <= k < |states|
      ensures IsTargetId(p, StateId(states[k])) && StateId(states[k]) in mid
    {
      var i := TargetOfState(p, k);
    }
    StatesDistinct(p);
    r := RestorePhase(states, mid);
    TargetsRestored(p, before, r);
  }

  lemma {:induction false} TargetsRestored(p: Plan, before: State, r: State)
    requires CoversTargets(p) && Fits(p, before)
    requires forall i :: 0 <= i < |p.deploymentStates| ==>
               var state := p.deploymentStates[i];
               StateId(state) in r && r[StateId(state)] == Deployment(state.strategy, state.template)
    ensures forall id :: IsTargetId(p, id) ==> id in before && id in r && r[id] == before[id]
  {
    forall id | IsTargetId(p, id)
      ensures id in before && id in r && r[id] == before[id]
    {
      var i :| 0 <= i < |p.targets| && id == IdOf(TargetWorkload(p.targets[i]));
      var k := StateOfTarget(p, i);
    }
  }

  ghost predicate ImagesRestored(p: Plan, before: State, mid: State, s: State) {
    && s.Keys == mid.Keys
    && (forall id :: IsTargetId(p, id) ==>
          && id in s && id in before
          && s[id] == PinnedDeployment(before[id], ImagesAt(p.targets, Workload(id.namespace, Resource(id.name)))))
    && (forall id :: id in mid && !IsTargetId(p, id) ==> s[id] == mid[id])
  }

  lemma {:induction false} WorkloadOfId(p: Plan, i: nat)
    requires WellFormed(p) && i < |p.targets|
    ensures var w := TargetWorkload(p.targets[i]);
            w == Workload(IdOf(w).namespace, Resource(IdOf(w).name))
  {
    ResourceOfName(p.targets[i].resource);
  }

  lemma {:induction false} SetImageAccepted(p: Plan, before: State, s: State, w: Workload)
    requires WellFormed(p) && Fits(p, before) && w in TargetWorkloads(p.targets)
    requires IdOf(w) in s && IdOf(w) in before && s[IdOf(w)] == before[IdOf(w)]
    ensures Accepts(s, SetImages(IdOf(w), ImagesAt(p.targets, w)))
  {
    var i :| 0 <= i < |p.targets| && TargetWorkload(p.targets[i]) == w;
    forall name | name in ImagesAt(p.targets, w)
      ensures HasContainer(Containers(s[IdOf(w)].template).value, name)
    {
      var j := ImagesAtOnlyTargets(p.targets, w, name);
    }
  }

  lemma {:induction false} RollbackWorkloadsMeaning(p: Plan)
    requires WellFormed(p)
    ensures forall k :: 0 <= k < |RollbackWorkloads(p)| ==> RollbackWorkloads(p)[k] in TargetWorkloads(p.targets)
    ensures NoDuplicates(WorkloadIds(RollbackWorkloads(p)))
  {
    var ws := RollbackWorkloads(p);
    assert forall k :: 0 <= k < |ws| ==> ws[k] in ws;
    forall a, b | 0 <= a < b < |ws|
      ensures IdOf(ws[a]) != IdOf(ws[b])
    {
      PrefixedWorkload(p, ws[a]);
      PrefixedWorkload(p, ws[b]);
      if IdOf(ws[a]) == IdOf(ws[b]) {
        IdInjective(ws[a], ws[b]);
      }
    }
  }

  lemma {:induction false} PrefixedWorkload(p: Plan, w: Workload)
    requires WellFormed(p) && w in TargetWorkloads(p.targets)
    ensures StartsWith(w.resource, DEPLOYMENT_PREFIX)
    ensures IsTargetId(p, IdOf(w))
  {
    var i :| 0 <= i < |p.targets| && TargetWorkloads(p.targets)[i] == w;
    assert ValidTarget(p.targets[i]);
  }

  lemma {:induction false} TargetInRollback(p: Plan, id: Id) returns (k: nat)
    requires WellFormed(p) && IsTargetId(p, id)
    ensures k < |RollbackWorkloads(p)| && RollbackWorkloads(p)[k] == Workload(id.namespace, Resource(id.name))
    ensures IdOf(RollbackWorkloads(p)[k]) == id
  {
    var i :| 0 <= i < |p.targets| && id == IdOf(TargetWorkload(p.targets[i]));
    WorkloadOfId(p, i);
    assert TargetWorkloads(p.targets)[i] in RollbackWorkloads(p);
    k :| 0 <= k < |RollbackWorkloads(p)| && RollbackWorkloads(p)[k] == TargetWorkload(p.targets[i]);
  }

  lemma {:induction false} RestoresImages(p: Plan, before: State, mid: State, s: State) returns (r: State)
    requires WellFormed(p) && Fits(p, before) && SpecsRestored(p, before, mid, s)
    ensures AllAccepted(s, SetImageCommands(RollbackWorkloads(p), p.targets))
    ensures r == RunAll(s, SetImageCommands(RollbackWorkloads(p), p.targets))
    ensures ImagesRestored(p, before, mid, r)
  {
    var ws := RollbackWorkloads(p);
    RollbackWorkloadsMeaning(p);
    forall k | 0 <= k < |ws|
      ensures Accepts(s, SetImages(IdOf(ws[k]), ImagesAt(p.targets, ws[k]))) && IsTargetId(p, IdOf(ws[k]))
    {
      PrefixedWorkload(p, ws[k]);
      SetImageAccepted(p, before, s, ws[k]);
    }
    r := SetImagePhase(ws, p.targets, s);
    forall id | IsTargetId(p, id)
      ensures id in r && id in before
      ensures r[id] == PinnedDeployment(before[id], ImagesAt(p.targets, Workload(id.namespace, Resource(id.name))))
    {
      var k := TargetInRollback(p, id);
    }
  }

  lemma {:induction false} DeletedPairs(p: Plan, id: Id)
    ensures PairsName(SortedSet(BootstrapPairs(p.bootstrapTargets), LessPair), id) <==> IsBootstrapId(p, id)
  {
    var pairs := SortedSet(BootstrapPairs(p.bootstrapTargets), LessPair);
    LessPairIsStrictOrder();
    SortedSetMeaning(BootstrapPairs(p.bootstrapTargets), LessPair);
    if i :| 0 <= i < |pairs| && Id(pairs[i].0, NameOf(pairs[i].1)) == id {
      assert pairs[i] in BootstrapPairs(p.bootstrapTargets);
    }
    if i :| 0 <= i < |p.bootstrapTargets| && id == Id(p.bootstrapTargets[i].namespace, NameOf(p.bootstrapTargets[i].resource)) {
      assert BootstrapPairs(p.bootstrapTargets)[i] in pairs;
      var k :| 0 <= k < |pairs| && pairs[k] == BootstrapPairs(p.bootstrapTargets)[i];
      assert Id(pairs[k].0, NameOf(pairs[k].1)) == id;
    }
  }

  /** Without its bootstraps the cluster is restored. */
  lemma {:induction false} WithoutBootstraps(p: Plan, before: State, mid: State, s: State, r: State)
    requires Fits(p, before) && Mixed(p, before, mid) && ImagesRestored(p, before, mid, s)
    requires forall id :: id in r <==> id in s && !IsBootstrapId(p, id)
    requires forall id :: id in r ==> r[id] == s[id]
    ensures r == Restored(p, before)
  {
    forall id
      ensures id in r <==> id in before
      ensures id in r ==> r[id] == Restored(p, before)[id]
    {
      if !IsTargetId(p, id) && !IsBootstrapId(p, id) {
        assert SameAt(before, mid, id);
      }
    }
  }

  lemma {:induction false} DeletesBootstraps(p: Plan, before: State, mid: State, s: State) returns (r: State)
    requires Fits(p, before) && Mixed(p, before, mid) && ImagesRestored(p, before, mid, s)
    ensures AllAccepted(s, DeleteCommands(SortedSet(BootstrapPairs(p.bootstrapTargets), LessPair)))
    ensures r == RunAll(s, DeleteCommands(SortedSet(BootstrapPairs(p.bootstrapTargets), LessPair)))
    ensures r == Restored(p, before)
  {
    r := DeletePhase(SortedSet(BootstrapPairs(p.bootstrapTargets), LessPair), s);
    forall id
      ensures id in r <==> id in s && !IsBootstrapId(p, id)
    {
      DeletedPairs(p, id);
    }
    WithoutBootstraps(p, before, mid, s, r);
  }

  /** From every state a rollout may leave, the rollback's commands are all accepted and restore the capture. */
  lemma {:induction false} RollbackRestores(p: Plan, before: State, mid: State)
    requires WellFormed(p) && CoversTargets(p) && Fits(p, before) && Mixed(p, before, mid)
    ensures AllAccepted(mid, RollbackMutations(p))
    ensures RunAll(mid, RollbackMutations(p)) == Restored(p, before)
  {
    var a := RestoreCommands(p.deploymentStates);
    var b := SetImageCommands(RollbackWorkloads(p), p.targets);
    var c := DeleteCommands(SortedSet(BootstrapPairs(p.bootstrapTargets), LessPair));
    var s := RestoresSpecs(p, before, mid);
    var t := RestoresImages(p, before, mid, s);
    var u := DeletesBootstraps(p, before, mid, t);
    RunAllSum(mid, a, b);
    RunAllSum(mid, a + b, c);
  }

  // ---- the commands of any plan, whatever the version of its file ----

  /** These images are the ones of the targets of a workload, each under its container. */
  ghost predicate AreImagesOf(p: Plan, id: Id, images: map<string, string>) {
    && (forall name :: name in images ==> exists i :: 0 <= i < |p.targets| && TargetsContainer(p.targets[i], id, name))
    && (forall i :: 0 <= i < |p.targets| && TargetsContainer(p.targets[i], id, p.targets[i].container) ==>
          p.targets[i].container in images && images[p.targets[i].container] == p.targets[i].image)
  }

  predicate TargetsContainer(t: RollbackTarget, id: Id, name: string) {
    Id(t.namespace, NameOf(t.resource)) == id && t.container == name
  }

  lemma {:induction false} WorkloadImages(p: Plan, w: Workload)
    requires WellFormed(p) && w in TargetWorkloads(p.targets)
    ensures AreImagesOf(p, IdOf(w), ImagesAt(p.targets, w))
  {
    forall name | name in ImagesAt(p.targets, w)
      ensures exists i :: 0 <= i < |p.targets| && TargetsContainer(p.targets[i], IdOf(w), name)
    {
      var i := ImagesAtOnlyTargets(p.targets, w, name);
      assert TargetsContainer(p.targets[i], IdOf(w), name);
    }
    forall i | 0 <= i < |p.targets| && TargetsContainer(p.targets[i], IdOf(w), p.targets[i].container)
      ensures p.targets[i].container in ImagesAt(p.targets, w)
      ensures ImagesAt(p.targets, w)[p.targets[i].container] == p.targets[i].image
    {
      PrefixedWorkload(p, w);
      assert TargetWorkloads(p.targets)[i] in TargetWorkloads(p.targets);
      PrefixedWorkload(p, TargetWorkload(p.targets[i]));
      IdInjective(w, TargetWorkload(p.targets[i]));
      ImagesAtTarget(p, i);
    }
  }

  lemma {:induction false} ImagesUnique(p: Plan, id: Id, a: map<string, string>, b: map<string, string>)
    requires AreImagesOf(p, id, a) && AreImagesOf(p, id, b)
    ensures a == b
  {
    forall name
      ensures name in a <==> name in b
      ensures name in a ==> name in b && a[name] == b[name]
    {
      if name in a {
        var i :| 0 <= i < |p.targets| && TargetsContainer(p.targets[i], id, name);
      }
      if name in b {
        var i :| 0 <= i < |p.targets| && TargetsContainer(p.targets[i], id, name);
      }
    }
  }

  lemma {:induction false} ImageCommandExactly(p: Plan, id: Id, images: map<string, string>)
    requires WellFormed(p)
    ensures SetImages(id, images) in SetImageCommands(RollbackWorkloads(p), p.targets) <==>
              IsTargetId(p, id) && AreImagesOf(p, id, images)
  {
    var ws := RollbackWorkloads(p);
    RollbackWorkloadsMeaning(p);
    if k :| 0 <= k < |ws| && SetImageCommands(ws, p.targets)[k] == SetImages(id, images) {
      PrefixedWorkload(p, ws[k]);
      WorkloadImages(p, ws[k]);
    }
    if IsTargetId(p, id) && AreImagesOf(p, id, images) {
      var k := TargetInRollback(p, id);
      WorkloadImages(p, ws[k]);
      ImagesUnique(p, id, images, ImagesAt(p.targets, ws[k]));
      assert SetImageCommands(ws, p.targets)[k] == SetImages(id, images);
    }
  }

  lemma {:induction false} DeleteCommandExactly(p: Plan, id: Id)
    ensures Delete(id) in DeleteCommands(SortedSet(BootstrapPairs(p.bootstrapTargets), LessPair)) <==> IsBootstrapId(p, id)
  {
    var pairs := SortedSet(BootstrapPairs(p.bootstrapTargets), LessPair);
    DeletedPairs(p, id);
    if PairsName(pairs, id) {
      var i :| 0 <= i < |pairs| && Id(pairs[i].0, NameOf(pairs[i].1)) == id;
      assert DeleteCommands(pairs)[i] == Delete(id);
    }
  }

  /** What a rollback sets out to do: first every recorded state back in its place, in the order of the plan, then for each
      workload that owns a target all its images at once, then the deletion of each workload that was to be created. */
  lemma {:induction false} RollbackCommands(p: Plan) returns (patches: seq<Command>, images: seq<Command>, deletes: seq<Command>)
    requires WellFormed(p)
    ensures RollbackMutations(p) == patches + images + deletes
    ensures |patches| == |p.deploymentStates| && forall i :: 0 <= i < |patches| ==>
              var state := p.deploymentStates[i];
              patches[i] == PatchSpec(Id(state.namespace, NameOf(state.resource)), state.strategy, state.template)
    ensures (forall k :: 0 <= k < |images| ==> images[k].SetImages?)
            && forall j, k :: 0 <= j < k < |images| ==> images[j].id != images[k].id
    ensures forall id, new_ :: SetImages(id, new_) in images <==> IsTargetId(p, id) && AreImagesOf(p, id, new_)
    ensures forall k :: 0 <= k < |deletes| ==> deletes[k].Delete?
    ensures forall id :: Delete(id) in deletes <==> IsBootstrapId(p, id)
  {
    patches, images := RestoreCommands(p.deploymentStates), SetImageCommands(RollbackWorkloads(p), p.targets);
    deletes := DeleteCommands(SortedSet(BootstrapPairs(p.bootstrapTargets), LessPair));
    RollbackWorkloadsMeaning(p);
    forall j, k | 0 <= j < k < |images|
      ensures images[j].id != images[k].id
    {
      assert WorkloadIds(RollbackWorkloads(p))[j] != WorkloadIds(RollbackWorkloads(p))[k];
    }
    forall id, new_
      ensures SetImages(id, new_) in images <==> IsTargetId(p, id) && AreImagesOf(p, id, new_)
    {
      ImageCommandExactly(p, id, new_);
    }
    forall id
      ensures Delete(id) in deletes <==> IsBootstrapId(p, id)
    {
      DeleteCommandExactly(p, id);
    }
  }
}
