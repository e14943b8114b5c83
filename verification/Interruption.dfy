/** Rollouts and rollbacks stopped anywhere leave a cluster that a rollback can restore. */
module Interruption {
  import opened Basics
  import opened JsonTrees
  import opened Images
  import opened Ordering
  import opened Clusters
  import opened Inventories
  import opened Plans
  import opened RollbackSemantics
  import opened Rollback
  import opened RolloutPlanning
  import opened PatchFacts
  import opened CreationFacts
  import opened WaveOrder
  import opened RolloutWaves
  import opened ImageWaves
  import opened Rollout

  /** The mutations that stay within the plan: targets and bootstraps may change, only bootstraps may come and go. */
  ghost predicate Within(p: Plan, command: Command) {
    && (Changes(command) ==> IsTargetId(p, command.id) || IsBootstrapId(p, command.id))
    && (command.Create? ==> forall i :: 0 <= i < |command.creations| ==> IsBootstrapId(p, command.creations[i].id))
    && (command.Delete? ==> IsBootstrapId(p, command.id))
  }

  lemma {:induction false} CreateAllMeaning(s: State, creations: seq<Creation>)
    requires NoDuplicates(CreationIds(creations))
    ensures var t := CreateAll(s, creations);
            && (forall i :: 0 <= i < |creations| ==> creations[i].id in t && t[creations[i].id] == creations[i].deployment)
            && (forall id :: id in s && id !in CreationIds(creations) ==> id in t && t[id] == s[id])
            && (forall id :: id in t && id !in s ==> id in CreationIds(creations))
    decreases |creations|
  {
    if creations != [] {
      var first, rest := creations[0], creations[1..];
      assert CreationIds(creations) == [first.id] + CreationIds(rest);
      forall i, j | 0 <= i < j < |rest|
        ensures CreationIds(rest)[i] != CreationIds(rest)[j]
      {
        assert CreationIds(creations)[i + 1] != CreationIds(creations)[j + 1];
      }
      forall j | 0 <= j < |rest|
        ensures CreationIds(rest)[j] != first.id
      {
        assert CreationIds(creations)[0] != CreationIds(creations)[j + 1];
      }
      CreateAllMeaning(s[first.id := first.deployment], rest);
      assert forall i :: 0 < i < |creations| ==> creations[i] == rest[i - 1];
    }
  }

  lemma {:induction false} AcceptedCreationsDistinct(s: State, creations: seq<Creation>)
    requires Accepts(s, Create(creations))
    ensures NoDuplicates(CreationIds(creations))
    ensures forall id :: id in CreationIds(creations) ==> id !in s
  {
  }

  lemma {:induction false} CreationStaysMixed(p: Plan, before: State, s: State, e: Event, t: State)
    requires Mixed(p, before, s) && e.command.Create? && Within(p, e.command) && Follows(s, e, t)
    ensures Mixed(p, before, t)
  {
    var creations := e.command.creations;
    if Accepts(s, e.command) && t == Effect(s, e.command) {
      AcceptedCreationsDistinct(s, creations);
      CreateAllMeaning(s, creations);
    }
    forall id | id in t && id !in s
      ensures IsBootstrapId(p, id)
    {
      if Accepts(s, e.command) && t == Effect(s, e.command) {
        assert id in CreationIds(creations);
        var i :| 0 <= i < |creations| && CreationIds(creations)[i] == id;
      } else {
        var i :| 0 <= i < |creations| && creations[i] == Creation(id, t[id]);
      }
    }
    forall id | !IsTargetId(p, id) && !IsBootstrapId(p, id)
      ensures SameAt(before, t, id)
    {
      assert SameAt(before, s, id);
    }
  }

  lemma {:induction false} StepStaysMixed(p: Plan, before: State, s: State, e: Event, t: State)
    requires Fits(p, before) && Mixed(p, before, s) && Follows(s, e, t)
    requires e.outcome.Started() ==> Within(p, e.command)
    ensures Mixed(p, before, t)
  {
    if !e.outcome.Started() {
      assert t == s;
    } else if e.command.Delete? {
      DeletionStaysMixed(p, before, s, e, t);
    } else if e.command.Create? {
      CreationStaysMixed(p, before, s, e, t);
    } else {
      forall id | !IsTargetId(p, id) && !IsBootstrapId(p, id)
        ensures SameAt(before, t, id)
      {
        assert SameAt(before, s, id);
      }
    }
  }

  /** No target is a bootstrap. */
  lemma {:induction false} DeletionStaysMixed(p: Plan, before: State, s: State, e: Event, t: State)
    requires Fits(p, before) && Mixed(p, before, s) && Follows(s, e, t) && e.command.Delete? && Within(p, e.command)
    ensures Mixed(p, before, t)
  {
    assert e.command.id !in before;
    forall id | IsTargetId(p, id)
      ensures id in t
    {
      var i :| 0 <= i < |p.targets| && id == Id(p.targets[i].namespace, NameOf(p.targets[i].resource));
      assert IdOf(TargetWorkload(p.targets[i])) == id;
    }
    forall id | !IsTargetId(p, id) && !IsBootstrapId(p, id)
      ensures SameAt(before, t, id)
    {
      assert SameAt(before, s, id);
    }
  }

  /** However the commands fail, a run that stays within the plan leaves the cluster restorable at every point. */
  lemma {:induction false} RunStaysMixed(p: Plan, before: State, history: seq<State>, log: seq<Event>, n: nat, k: nat)
    requires Fits(p, before) && IsRun(history, log) && n <= k <= |log| && Mixed(p, before, history[n])
    requires forall j :: n <= j < |log| && log[j].outcome.Started() ==> Within(p, log[j].command)
    ensures Mixed(p, before, history[k])
  {
    if n < k {
      RunStaysMixed(p, before, history, log, n, k - 1);
      assert IsStep(history, log, k - 1);
      StepStaysMixed(p, before, history[k - 1], log[k - 1], history[k]);
    }
  }

  // ---- a rollout's commands are within its plan ----

  lemma {:induction false} CreationsWithin(p: Plan, o: Options)
    requires PlannedCreations(p, o).Ok?
    ensures Within(p, Create(PlannedCreations(p, o).value))
  {
    var creations := PlannedCreations(p, o).value;
    if p.bootstrapTargets != [] {
      CreationsComplete(p, o.manifest.value, o.image);
      forall i | 0 <= i < |creations|
        ensures IsBootstrapId(p, creations[i].id)
      {
        var id := creations[i].id;
        assert RenderedFromSome(creations[i], o.manifest.value, p, o.image);
        var j :| 0 <= j < |p.bootstrapTargets| && p.bootstrapTargets[j].resource == Resource(id.name)
                 && p.bootstrapTargets[j].namespace == id.namespace;
        NameOfResource(id.name);
      }
    }
  }

  lemma {:induction false} ChangeWithin(p: Plan, o: Options, command: Command)
    requires CoversTargets(p) && command in PlannedChanges(p, o)
    ensures Within(p, command)
  {
    var i :| 0 <= i < |PlannedChanges(p, o)| && PlannedChanges(p, o)[i] == command;
    if o.reconcile {
      var patches := PlannedPatches(p, o).value;
      var j := PatchAtTarget(p, o, i);
    } else {
      SlotWithin(p, i);
    }
  }

  lemma {:induction false} SlotWithin(p: Plan, i: nat)
    requires i < |RolloutSlots(p)|
    ensures IsTargetId(p, RolloutSlots(p)[i].id) || IsBootstrapId(p, RolloutSlots(p)[i].id)
  {
    if i >= |p.targets| {
      var t := p.bootstrapTargets[i - |p.targets|];
      assert RolloutSlots(p)[i].id == Id(t.namespace, NameOf(t.resource));
    }
  }

  lemma {:induction false} PatchAtTarget(p: Plan, o: Options, i: nat) returns (j: nat)
    requires CoversTargets(p) && PlannedPatches(p, o).Ok? && i < |PlannedPatches(p, o).value|
    ensures j < |p.targets| && TargetWorkload(p.targets[j]) == PatchWorkload(PlannedPatches(p, o).value[i])
    ensures PatchId(PlannedPatches(p, o).value[i]) == IdOf(TargetWorkload(p.targets[j]))
    ensures IsTargetId(p, PatchId(PlannedPatches(p, o).value[i]))
  {
    var patches := PlannedPatches(p, o).value;
    PatchesComputed(p, o.manifest.value, o.image);
    PatchesOfStates(patches, {}, o.manifest.value, p, o.image);
    assert PatchWorkloads(patches)[i] in PatchWorkloadSet(patches);
    assert PatchWorkload(patches[i]) in TargetWorkloadSet(p.targets);
    j :| 0 <= j < |p.targets| && TargetWorkloads(p.targets)[j] == PatchWorkload(patches[i]);
  }

  lemma {:induction false} RollbackWithin(p: Plan, command: Command)
    requires CoversTargets(p) && command in RollbackMutations(p)
    ensures Within(p, command)
  {
    if command in RestoreCommands(p.deploymentStates) {
      var k :| 0 <= k < |p.deploymentStates| && RestoreCommands(p.deploymentStates)[k] == command;
      var i := TargetOfState(p, k);
      assert command.id == Id(p.targets[i].namespace, NameOf(p.targets[i].resource));
    } else if command in SetImageCommands(RollbackWorkloads(p), p.targets) {
      var k :| 0 <= k < |RollbackWorkloads(p)| && SetImageCommands(RollbackWorkloads(p), p.targets)[k] == command;
      assert RollbackWorkloads(p)[k] in TargetWorkloads(p.targets);
      var i :| 0 <= i < |p.targets| && TargetWorkloads(p.targets)[i] == RollbackWorkloads(p)[k];
      assert command.id == Id(p.targets[i].namespace, NameOf(p.targets[i].resource));
    } else {
      DeletionWithin(p, command);
    }
  }

  lemma {:induction false} DeletionWithin(p: Plan, command: Command)
    requires command in DeleteCommands(SortedSet(BootstrapPairs(p.bootstrapTargets), LessPair))
    ensures Within(p, command)
  {
    var pairs := SortedSet(BootstrapPairs(p.bootstrapTargets), LessPair);
    var k :| 0 <= k < |pairs| && DeleteCommands(pairs)[k] == command;
    assert PairsName(pairs, command.id);
    DeletedPairs(p, command.id);
  }

  // ---- any number of rollouts and rollbacks ----

  /** A mutation of some rollout of the plan, whatever its options, or of its rollback. */
  ghost predicate OfPlan(p: Plan, command: Command) {
    || (exists o: Options :: PlannedCreations(p, o).Ok? && command == Create(PlannedCreations(p, o).value))
    || (exists o: Options :: command in PlannedChanges(p, o))
    || command in RollbackMutations(p)
  }

  /** Only scripts given this plan have been at work since: rollouts and rollbacks in any number and any order, each of
      them stopped anywhere. */
  ghost predicate OfPlanSince(p: Plan, log: seq<Event>, n: nat) {
    forall k :: n <= k < |log| && IsMutation(log[k].command) && log[k].outcome.Started() ==> OfPlan(p, log[k].command)
  }

  lemma {:induction false} RolloutOfPlan(history: seq<State>, log: seq<Event>, n: nat, p: Plan, o: Options, deadline: real)
    requires n <= |log| < |history| && Disciplined(history, log, n, p, o, deadline)
    ensures OfPlanSince(p, log, n)
  {
    forall k | n <= k < |log| && IsMutation(log[k].command)
      ensures OfPlan(p, log[k].command)
    {
      assert Proper(history, log, n, k, p, o, deadline);
    }
  }

  lemma {:induction false} MutationListed(log: seq<Event>, k: nat)
    requires k < |log| && IsMutation(log[k].command) && log[k].outcome.Started()
    ensures log[k].command in Mutations(log)
  {
    if k < |log| - 1 {
      MutationListed(log[..|log| - 1], k);
    }
  }

  lemma {:induction false} RollbackOfPlan(p: Plan, log: seq<Event>, n: nat)
    requires Attempted(log, n, p)
    ensures OfPlanSince(p, log, n)
  {
    forall k | n <= k < |log| && IsMutation(log[k].command) && log[k].outcome.Started()
      ensures OfPlan(p, log[k].command)
    {
      assert log[n..][k - n] == log[k];
      MutationListed(log[n..], k - n);
    }
  }

  lemma {:induction false} OfPlanWithin(p: Plan, command: Command)
    requires CoversTargets(p) && OfPlan(p, command)
    ensures Within(p, command)
  {
    if o: Options :| PlannedCreations(p, o).Ok? && command == Create(PlannedCreations(p, o).value) {
      CreationsWithin(p, o);
    } else if o: Options :| command in PlannedChanges(p, o) {
      ChangeWithin(p, o, command);
    } else {
      RollbackWithin(p, command);
    }
  }

  /** After any number of rollouts and rollbacks of a plan that fits the cluster, each stopped after any of its
      commands, successful or not: every command of the rollback is accepted, and together they restore the capture. */
  lemma {:induction false} AttemptsRestorable(p: Plan, before: State, history: seq<State>, log: seq<Event>, n: nat, k: nat)
    requires WellFormed(p) && CoversTargets(p) && Fits(p, before)
    requires IsRun(history, log) && n <= k <= |log| && history[n] == before && OfPlanSince(p, log, n)
    ensures Mixed(p, before, history[k])
    ensures AllAccepted(history[k], RollbackMutations(p))
    ensures RunAll(history[k], RollbackMutations(p)) == Restored(p, before)
  {
    forall j | n <= j < |log| && log[j].outcome.Started()
      ensures Within(p, log[j].command)
    {
      if IsMutation(log[j].command) {
        OfPlanWithin(p, log[j].command);
      }
    }
    RunStaysMixed(p, before, history, log, n, k);
    RollbackRestores(p, before, history[k]);
  }

  /** Stop a rollout of a plan that fits the cluster after any number of its commands, successful or not: every
      command of the rollback is accepted there, and together they restore what was captured. */
  lemma {:induction false} StoppedRolloutRestorable(
    p: Plan, o: Options, deadline: real, before: State, history: seq<State>, log: seq<Event>, n: nat, k: nat)
    requires WellFormed(p) && CoversTargets(p) && Fits(p, before)
    requires IsRun(history, log) && n <= k <= |log| && history[n] == before
    requires Disciplined(history, log, n, p, o, deadline)
    ensures Mixed(p, before, history[k])
    ensures AllAccepted(history[k], RollbackMutations(p))
    ensures RunAll(history[k], RollbackMutations(p)) == Restored(p, before)
  {
    RolloutOfPlan(history, log, n, p, o, deadline);
    AttemptsRestorable(p, before, history, log, n, k);
  }
}
