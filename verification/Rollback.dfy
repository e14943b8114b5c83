/** The rollback script: every restoring command is attempted, then the live cluster decides the outcome. */
module Rollback {
  import opened Basics
  import opened JsonTrees
  import opened Images
  import opened Ordering
  import opened Clusters
  import opened Inventories
  import opened Plans
  import opened RollbackSemantics

  /** The list was started, command by command, before this time. */
  predicate AttemptedIn(log: seq<Event>, n: nat, commands: seq<Command>, clock: real) {
    && |log| == n + |commands|
    && forall k :: n <= k < |log| ==>
         log[k].command == commands[k - n] && IsMutation(log[k].command) && log[k].outcome.Started() && log[k].start <= clock
  }

  /** Attempts every command in turn, whatever became of the ones before. */
  method AttemptEach(w: World, commands: seq<Command>) returns (ok: bool)
    requires w.Valid()
    requires forall i :: 0 <= i < |commands| ==> IsMutation(commands[i])
    modifies w
    ensures w.Valid() && old(w.log) <= w.log && old(w.history) <= w.history
    ensures MutationsSince(w.log, |old(w.log)|) == commands
    ensures AttemptedIn(w.log, |old(w.log)|, commands, w.clock) && old(w.clock) <= w.clock
    ensures ok <==> AllDoneSince(w.log, |old(w.log)|)
    ensures (forall i :: 0 <= i < |commands| ==> commands[i].PatchSpec? || commands[i].SetImages?) ==>
              w.cluster.Keys == old(w.cluster.Keys)
  {
    ok := true;
    ghost var n := |w.log|;
    for i := 0 to |commands|
      invariant (forall i :: 0 <= i < |commands| ==> commands[i].PatchSpec? || commands[i].SetImages?) ==>
                  w.cluster.Keys == old(w.cluster.Keys)
      invariant w.Valid() && old(w.log) <= w.log && old(w.history) <= w.history
      invariant |w.log| == n + i
      invariant forall k :: n <= k < n + i ==> w.log[k].command == commands[k - n] && w.log[k].outcome.Started()
      invariant old(w.clock) <= w.clock && forall k :: n <= k < n + i ==> w.log[k].start <= w.clock
      invariant ok <==> forall k :: n <= k < n + i ==> w.log[k].outcome.Done?
    {
      ghost var before := w.log;
      var outcome := w.RunWithDeadline(commands[i], None);
      assert forall k :: 0 <= k < |before| ==> w.log[k] == before[k];
      assert IsStep(w.history, w.log, |before|);
      ok := ok && outcome.Done?;
    }
    MutationsPointwise(w.log[n..], commands);
  }

  lemma {:induction false} MutationsPointwise(log: seq<Event>, commands: seq<Command>)
    requires |log| == |commands|
    requires forall k :: 0 <= k < |log| ==>
               log[k].command == commands[k] && log[k].outcome.Started() && IsMutation(commands[k])
    ensures Mutations(log) == commands
  {
    if log != [] {
      MutationsPointwise(log[..|log| - 1], commands[..|log| - 1]);
    }
  }

  lemma {:induction false} WorkloadsSnoc(init: seq<RollbackTarget>, t: RollbackTarget)
    ensures TargetWorkloads(init + [t]) == TargetWorkloads(init) + [TargetWorkload(t)]
  {
  }

  lemma {:induction false} FirstOccurrencesSnoc<T(!new)>(init: seq<T>, x: T)
    ensures FirstOccurrences(init + [x]) == FirstOccurrences(init) + (if x in init then [] else [x])
  {
    assert (init + [x])[..|init + [x]| - 1] == init;
    assert x in FirstOccurrences(init) <==> x in init;
  }

  lemma {:induction false} TargetsAtSnoc(init: seq<RollbackTarget>, t: RollbackTarget, w: Workload)
    ensures TargetsAt(init + [t], w) == TargetsAt(init, w) + (if TargetWorkload(t) == w then [t] else [])
  {
    assert (init + [t])[..|init + [t]| - 1] == init;
  }

  /** The workloads met so far and the targets of each. */
  ghost predicate GroupedInto(targets: seq<RollbackTarget>, ws: seq<Workload>, grouped: map<Workload, seq<RollbackTarget>>) {
    && (forall w :: w in grouped <==> w in ws)
    && (forall w :: TargetsAt(targets, w) == if w in grouped then grouped[w] else [])
  }

  ghost predicate Grouped(targets: seq<RollbackTarget>, order: seq<Workload>, grouped: map<Workload, seq<RollbackTarget>>) {
    order == FirstOccurrences(TargetWorkloads(targets)) && GroupedInto(targets, TargetWorkloads(targets), grouped)
  }

  lemma {:induction false} GroupedIntoFurther(
    init: seq<RollbackTarget>, t: RollbackTarget, ws: seq<Workload>, grouped: map<Workload, seq<RollbackTarget>>)
    requires GroupedInto(init, ws, grouped)
    ensures var w := TargetWorkload(t);
            GroupedInto(init + [t], ws + [w], grouped[w := (if w in grouped then grouped[w] else []) + [t]])
  {
    forall w {
      TargetsAtSnoc(init, t, w);
    }
  }

  lemma {:induction false} GroupedFurther(
    init: seq<RollbackTarget>, t: RollbackTarget, order: seq<Workload>, grouped: map<Workload, seq<RollbackTarget>>)
    requires Grouped(init, order, grouped)
    ensures var w := TargetWorkload(t);
            Grouped(init + [t],
                    if w in grouped then order else order + [w],
                    grouped[w := (if w in grouped then grouped[w] else []) + [t]])
  {
    WorkloadsSnoc(init, t);
    FirstOccurrencesSnoc(TargetWorkloads(init), TargetWorkload(t));
    GroupedIntoFurther(init, t, TargetWorkloads(init), grouped);
  }

  /** `grouped_targets`: the targets of each workload, workloads in the order they first appear. */
  method GroupedTargets(targets: seq<RollbackTarget>) returns (order: seq<Workload>, grouped: map<Workload, seq<RollbackTarget>>)
    ensures order == FirstOccurrences(TargetWorkloads(targets))
    ensures forall w :: w in grouped <==> w in TargetWorkloads(targets)
    ensures forall w :: w in grouped ==> grouped[w] == TargetsAt(targets, w)
  {
    order, grouped := [], map[];
    for i := 0 to |targets|
      invariant Grouped(targets[..i], order, grouped)
    {
      var w := TargetWorkload(targets[i]);
      assert targets[..i + 1] == targets[..i] + [targets[i]];
      GroupedFurther(targets[..i], targets[i], order, grouped);
      if w !in grouped {
        order := order + [w];
        grouped := grouped[w := []];
      }
      grouped := grouped[w := grouped[w] + [targets[i]]];
    }
    assert targets[..|targets|] == targets;
  }

  predicate Asked(log: seq<Event>, n: nat, id: Id) {
    exists k :: n <= k < |log| && log[k].command.RolloutStatus? && log[k].command.id == id
  }

  predicate AllAsked(log: seq<Event>, n: nat, ids: seq<Id>) {
    forall id :: id in ids ==> Asked(log, n, id)
  }

  lemma {:induction false} AskedLater(middle: seq<Event>, end: seq<Event>, m: nat, n: nat, ids: seq<Id>)
    requires middle <= end && n <= m && AllAsked(middle, m, ids)
    ensures AllAsked(end, n, ids)
  {
    forall id | id in ids
      ensures Asked(end, n, id)
    {
      var k :| m <= k < |middle| && middle[k].command.RolloutStatus? && middle[k].command.id == id;
      assert end[k] == middle[k];
    }
  }

  /** Statuses of these workloads and nothing else; the API server refuses none that exists. */
  predicate StatusesOf(log: seq<Event>, n: nat, ids: seq<Id>, s: State) {
    forall k :: n <= k < |log| ==>
      log[k].command.RolloutStatus? && log[k].command.id in ids && (log[k].command.id in s ==> !log[k].outcome.Refused?)
  }

  /** The statuses share one deadline, the timeout after the last change was started: each of them is started in
      time, or finds that deadline past. Everything else is started whatever the time. */
  predicate Timely(log: seq<Event>, n: nat, timeout: string, deadline: real)
    requires IsTimeout(timeout)
  {
    forall k :: n <= k < |log| ==>
      if log[k].command.RolloutStatus? then
        OnTime(log[k], deadline) && !log[k].outcome.Cancelled? && deadline <= log[k].start + TimeoutSeconds(timeout)
      else
        && log[k].outcome.Started()
        && (log[k].command.PatchSpec? || log[k].command.SetImages? ==> log[k].start + TimeoutSeconds(timeout) <= deadline)
  }

  /** No command failed but by the cluster's own rules, and every status began within the deadline. */
  predicate Undelayed(log: seq<Event>, n: nat, deadline: real) {
    FaultlessSince(log, n) && forall k :: n <= k < |log| && log[k].command.RolloutStatus? ==> log[k].start < deadline
  }

  lemma {:induction false} UndelayedIsUndisturbed(log: seq<Event>, n: nat, timeout: string, deadline: real)
    requires IsTimeout(timeout) && Timely(log, n, timeout, deadline) && Undelayed(log, n, deadline)
    ensures UndisturbedSince(log, n)
  {
  }

  lemma {:induction false} TimelySum(l0: seq<Event>, l1: seq<Event>, l2: seq<Event>, timeout: string, deadline: real)
    requires l0 <= l1 <= l2 && IsTimeout(timeout)
    requires Timely(l1, |l0|, timeout, deadline) && Timely(l2, |l1|, timeout, deadline)
    ensures Timely(l2, |l0|, timeout, deadline) && NoneCancelled(l2, |l0|)
  {
    assert forall k :: 0 <= k < |l1| ==> l2[k] == l1[k];
  }

  /** `wait_for_rollout_statuses` of the rollback: all statuses run, in any order, under one deadline. */
  method WaitForRolloutStatuses(w: World, ids: seq<Id>, timeout: string) returns (ok: bool, ghost deadline: real)
    requires w.Valid() && IsTimeout(timeout)
    modifies w
    ensures w.Valid() && old(w.log) <= w.log && old(w.history) <= w.history && w.cluster == old(w.cluster)
    ensures |w.log| == |old(w.log)| + |ids| && AllAsked(w.log, |old(w.log)|, ids)
    ensures StatusesOf(w.log, |old(w.log)|, ids, w.cluster)
    ensures old(w.clock) + TimeoutSeconds(timeout) <= deadline && Timely(w.log, |old(w.log)|, timeout, deadline)
    ensures ok <==> AllDoneSince(w.log, |old(w.log)|)
  {
    ok := true;
    var now := w.Now();
    var until := now + TimeoutSeconds(timeout);
    deadline := until;
    var pending := ids;
    ghost var n := |w.log|;
    while pending != []
      invariant w.Valid() && old(w.log) <= w.log && old(w.history) <= w.history && w.cluster == old(w.cluster)
      invariant forall id :: id in pending ==> id in ids
      invariant |w.log| == n + |ids| - |pending|
      invariant forall id :: id in ids ==> id in pending || Asked(w.log, n, id)
      invariant StatusesOf(w.log, n, ids, w.cluster)
      invariant now <= w.clock && Timely(w.log, n, timeout, deadline)
      invariant ok <==> AllDoneSince(w.log, n)
      decreases |pending|
    {
      var i: nat :| i < |pending|;
      var id := pending[i];
      ghost var before, waiting := w.log, pending;
      pending := pending[..i] + pending[i + 1..];
      assert forall x :: x in waiting <==> x == id || x in pending;
      var outcome := w.RunRolloutStatus(id, until);
      assert IsStep(w.history, w.log, |before|);
      OneMoreStatus(before, w.log, n, ids, w.cluster);
      assert forall k :: 0 <= k < |before| ==> w.log[k] == before[k];
      ok := ok && outcome.Done?;
    }
  }

  lemma {:induction false} OneMoreStatus(before: seq<Event>, after: seq<Event>, n: nat, ids: seq<Id>, s: State)
    requires before <= after && |after| == |before| + 1 && n <= |before| && StatusesOf(before, n, ids, s)
    requires after[|before|].command.RolloutStatus? && after[|before|].command.id in ids
    requires after[|before|].command.id in s ==> !after[|before|].outcome.Refused?
    ensures StatusesOf(after, n, ids, s)
    ensures AllDoneSince(after, n) <==> AllDoneSince(before, n) && after[|before|].outcome.Done?
    ensures forall id :: Asked(before, n, id) || id == after[|before|].command.id ==> Asked(after, n, id)
  {
    assert forall k :: 0 <= k < |before| ==> after[k] == before[k];
    forall id | Asked(before, n, id)
      ensures Asked(after, n, id)
    {
      var k :| n <= k < |before| && before[k].command.RolloutStatus? && before[k].command.id == id;
      assert after[k] == before[k];
    }
  }

  // ---- the final checks ----

  predicate ListedNamesValid(items: seq<Item>) {
    forall i :: 0 <= i < |items| ==> IsKubernetesName(items[i].name)
  }

  /** The rollback's own reading of a namespace also insists on Kubernetes names. */
  ghost predicate Inspectable(s: State, namespace: string) {
    && Readable(s, namespace)
    && forall id :: id in s && id.namespace == namespace ==> IsKubernetesName(id.name)
  }

  /** A listing, which the API server refuses to nobody. */
  predicate IsRead(e: Event) {
    e.command.GetDeployments? && e.outcome.Started() && !e.outcome.Refused?
  }

  method LiveImagesAt(w: World, namespace: string) returns (r: Result<map<Ident, string>>)
    requires w.Valid()
    modifies w
    ensures w.Valid() && old(w.log) <= w.log && old(w.history) <= w.history && w.cluster == old(w.cluster)
    ensures |w.log| == |old(w.log)| + 1 && IsRead(w.log[|old(w.log)|])
    ensures r.Ok? ==> Shows(r.value, w.cluster, namespace) && w.log[|old(w.log)|].outcome.Done?
    ensures Inspectable(w.cluster, namespace) && w.log[|old(w.log)|].outcome.Done? ==> r.Ok?
  {
    var items := w.GetDeployments(namespace, None);
    if items.Err? {
      return Err;
    }
    ListingShowsCluster(items.value, w.cluster, namespace);
    if !ListedNamesValid(items.value) {
      return Err;
    }
    var inv := LiveDeploymentImages(items.value);
    return if inv.Ok? then Ok(inv.value.images) else Err;
  }

  method LiveImagesByNamespace(w: World, namespaces: seq<string>) returns (r: Result<map<string, map<Ident, string>>>)
    requires w.Valid()
    modifies w
    ensures w.Valid() && old(w.log) <= w.log && old(w.history) <= w.history && w.cluster == old(w.cluster)
    ensures forall k :: |old(w.log)| <= k < |w.log| ==> IsRead(w.log[k])
    ensures r.Ok? ==> AllDoneSince(w.log, |old(w.log)|)
    ensures r.Ok? ==> forall namespace :: namespace in namespaces ==>
                        namespace in r.value && Shows(r.value[namespace], w.cluster, namespace)
    ensures (forall namespace :: namespace in namespaces ==> Inspectable(w.cluster, namespace)) ==>
              AllDoneSince(w.log, |old(w.log)|) ==> r.Ok?
  {
    var observed: map<string, map<Ident, string>> := map[];
    ghost var n := |w.log|;
    for i := 0 to |namespaces|
      invariant w.Valid() && old(w.log) <= w.log && old(w.history) <= w.history && w.cluster == old(w.cluster)
      invariant forall k :: n <= k < |w.log| ==> IsRead(w.log[k]) && w.log[k].outcome.Done?
      invariant forall k :: 0 <= k < i ==>
        namespaces[k] in observed && Shows(observed[namespaces[k]], w.cluster, namespaces[k])
    {
      ghost var before := w.log;
      var images := LiveImagesAt(w, namespaces[i]);
      assert forall k :: 0 <= k < |before| ==> w.log[k] == before[k];
      if images.Err? {
        assert namespaces[i] in namespaces;
        return Err;
      }
      observed := observed[namespaces[i] := images.value];
    }
    return Ok(observed);
  }

  function TargetIdent(resource: string, container: string): Ident {
    Ident(NameOf(resource), container)
  }

  /** The live image at a recorded place is the recorded one. */
  predicate TargetLive(t: RollbackTarget, s: State) {
    ImageAt(s, t.namespace, TargetIdent(t.resource, t.container)) == Some(t.image)
  }

  predicate ProtectedLive(t: ProtectedTarget, s: State) {
    ImageAt(s, t.namespace, TargetIdent(t.resource, t.container)) == Some(t.image)
  }

  predicate DigestsLive(p: Plan, s: State) {
    && (forall i :: 0 <= i < |p.targets| ==> TargetLive(p.targets[i], s))
    && (forall i :: 0 <= i < |p.protectedTargets| ==> ProtectedLive(p.protectedTargets[i], s))
  }

  function TargetNamespaces(targets: seq<RollbackTarget>): (r: seq<string>)
    ensures forall i :: 0 <= i < |targets| ==> targets[i].namespace in r
    ensures forall namespace :: namespace in r ==> exists i :: 0 <= i < |targets| && targets[i].namespace == namespace
  {
    if targets == [] then [] else TargetNamespaces(targets[..|targets| - 1]) + [targets[|targets| - 1].namespace]
  }

  function ProtectedNamespaces(targets: seq<ProtectedTarget>): (r: seq<string>)
    ensures forall i :: 0 <= i < |targets| ==> targets[i].namespace in r
    ensures forall namespace :: namespace in r ==> exists i :: 0 <= i < |targets| && targets[i].namespace == namespace
  {
    if targets == [] then [] else ProtectedNamespaces(targets[..|targets| - 1]) + [targets[|targets| - 1].namespace]
  }

  function VerifiedNamespaces(p: Plan): seq<string> {
    FirstOccurrences(TargetNamespaces(p.targets) + ProtectedNamespaces(p.protectedTargets))
  }

  function BootstrapTargetNamespaces(targets: seq<BootstrapTarget>): (r: seq<string>)
    ensures forall i :: 0 <= i < |targets| ==> targets[i].namespace in r
    ensures forall namespace :: namespace in r ==> exists i :: 0 <= i < |targets| && targets[i].namespace == namespace
  {
    if targets == [] then [] else BootstrapTargetNamespaces(targets[..|targets| - 1]) + [targets[|targets| - 1].namespace]
  }

  function BootstrapNamespaces(p: Plan): seq<string> {
    FirstOccurrences(BootstrapTargetNamespaces(p.bootstrapTargets))
  }

  predicate Holds(images: map<Ident, string>, ident: Ident, image: string) {
    ident in images && images[ident] == image
  }

  predicate HoldsAll(p: Plan, observed: map<string, map<Ident, string>>) {
    && (forall i :: 0 <= i < |p.targets| ==>
          && p.targets[i].namespace in observed
          && Holds(observed[p.targets[i].namespace], TargetIdent(p.targets[i].resource, p.targets[i].container), p.targets[i].image))
    && (forall i :: 0 <= i < |p.protectedTargets| ==>
          var t := p.protectedTargets[i];
          && t.namespace in observed
          && Holds(observed[t.namespace], TargetIdent(t.resource, t.container), t.image))
  }

  lemma {:induction false} HoldsAllMeaning(p: Plan, observed: map<string, map<Ident, string>>, s: State)
    requires forall namespace :: namespace in VerifiedNamespaces(p) ==>
               namespace in observed && Shows(observed[namespace], s, namespace)
    ensures HoldsAll(p, observed) <==> DigestsLive(p, s)
  {
    forall i | 0 <= i < |p.targets|
      ensures p.targets[i].namespace in observed
      ensures Holds(observed[p.targets[i].namespace], TargetIdent(p.targets[i].resource, p.targets[i].container), p.targets[i].image)
              <==> TargetLive(p.targets[i], s)
    {
      assert p.targets[i].namespace in VerifiedNamespaces(p);
    }
    forall i | 0 <= i < |p.protectedTargets|
      ensures var t := p.protectedTargets[i];
              && t.namespace in observed
              && (Holds(observed[t.namespace], TargetIdent(t.resource, t.container), t.image) <==> ProtectedLive(t, s))
    {
      assert p.protectedTargets[i].namespace in VerifiedNamespaces(p);
    }
  }

  method VerifyExactLiveDigests(w: World, p: Plan) returns (ok: bool)
    requires w.Valid()
    modifies w
    ensures w.Valid() && old(w.log) <= w.log && old(w.history) <= w.history && w.cluster == old(w.cluster)
    ensures forall k :: |old(w.log)| <= k < |w.log| ==> IsRead(w.log[k])
    ensures ok ==> AllDoneSince(w.log, |old(w.log)|) && DigestsLive(p, w.cluster)
    ensures (forall namespace :: namespace in VerifiedNamespaces(p) ==> Inspectable(w.cluster, namespace)) ==>
              AllDoneSince(w.log, |old(w.log)|) ==> (ok <==> DigestsLive(p, w.cluster))
  {
    var observed := LiveImagesByNamespace(w, VerifiedNamespaces(p));
    if observed.Err? {
      return false;
    }
    HoldsAllMeaning(p, observed.value, w.cluster);
    return HoldsAll(p, observed.value);
  }

  predicate ShowsDeployment(images: map<Ident, string>, name: string) {
    exists ident :: ident in images && ident.deployment == name
  }

  /** No container of a bootstrap workload is live. */
  ghost predicate BootstrapsAbsent(p: Plan, s: State) {
    forall i, container :: 0 <= i < |p.bootstrapTargets| ==>
      ImageAt(s, p.bootstrapTargets[i].namespace, TargetIdent(p.bootstrapTargets[i].resource, container)).None?
  }

  method VerifyBootstrapTargetsAbsent(w: World, p: Plan) returns (ok: bool)
    requires w.Valid()
    modifies w
    ensures w.Valid() && old(w.log) <= w.log && old(w.history) <= w.history && w.cluster == old(w.cluster)
    ensures forall k :: |old(w.log)| <= k < |w.log| ==> IsRead(w.log[k])
    ensures ok ==> AllDoneSince(w.log, |old(w.log)|) && BootstrapsAbsent(p, w.cluster)
    ensures (forall namespace :: namespace in BootstrapNamespaces(p) ==> Inspectable(w.cluster, namespace)) ==>
              AllDoneSince(w.log, |old(w.log)|) ==> (ok <==> BootstrapsAbsent(p, w.cluster))
  {
    var observed := LiveImagesByNamespace(w, BootstrapNamespaces(p));
    if observed.Err? {
      return false;
    }
    AbsentMeaning(p, observed.value, w.cluster);
    return ShowsNoBootstrap(p, observed.value);
  }

  predicate ShowsNoBootstrap(p: Plan, observed: map<string, map<Ident, string>>) {
    forall i :: 0 <= i < |p.bootstrapTargets| ==>
      && p.bootstrapTargets[i].namespace in observed
      && !ShowsDeployment(observed[p.bootstrapTargets[i].namespace], NameOf(p.bootstrapTargets[i].resource))
  }

  lemma {:induction false} AbsentMeaning(p: Plan, observed: map<string, map<Ident, string>>, s: State)
    requires forall namespace :: namespace in BootstrapNamespaces(p) ==>
               namespace in observed && Shows(observed[namespace], s, namespace)
    ensures ShowsNoBootstrap(p, observed) <==> BootstrapsAbsent(p, s)
  {
    forall i | 0 <= i < |p.bootstrapTargets|
      ensures p.bootstrapTargets[i].namespace in observed
    {
      assert p.bootstrapTargets[i].namespace in BootstrapNamespaces(p);
    }
    if ShowsNoBootstrap(p, observed) {
      forall i, container | 0 <= i < |p.bootstrapTargets|
        ensures ImageAt(s, p.bootstrapTargets[i].namespace, TargetIdent(p.bootstrapTargets[i].resource, container)).None?
      {
        assert TargetIdent(p.bootstrapTargets[i].resource, container).deployment == NameOf(p.bootstrapTargets[i].resource);
      }
    } else {
      var i :| 0 <= i < |p.bootstrapTargets|
               && ShowsDeployment(observed[p.bootstrapTargets[i].namespace], NameOf(p.bootstrapTargets[i].resource));
      var ident :| ident in observed[p.bootstrapTargets[i].namespace] && ident.deployment == NameOf(p.bootstrapTargets[i].resource);
      assert ident == TargetIdent(p.bootstrapTargets[i].resource, ident.container);
    }
  }

  // ---- the whole script ----

  /** The workloads that own a target, in the order they first appear. */
  function RollbackIds(p: Plan): (r: seq<Id>)
    ensures |r| == |RollbackWorkloads(p)| && forall i :: 0 <= i < |r| ==> r[i] == IdOf(RollbackWorkloads(p)[i])
  {
    seq(|RollbackWorkloads(p)|, i requires 0 <= i < |RollbackWorkloads(p)| => IdOf(RollbackWorkloads(p)[i]))
  }

  lemma {:induction false} RollbackIdsPresent(p: Plan, s: State)
    requires TargetsPresent(p, s)
    ensures forall id :: id in RollbackIds(p) ==> id in s
  {
    forall id | id in RollbackIds(p)
      ensures id in s
    {
      var k :| 0 <= k < |RollbackIds(p)| && RollbackIds(p)[k] == id;
      assert RollbackWorkloads(p)[k] in RollbackWorkloads(p);
      var i :| 0 <= i < |p.targets| && TargetWorkloads(p.targets)[i] == RollbackWorkloads(p)[k];
    }
  }

  /** One `set image` and one status command per workload that owns a target. */
  method ImageCommands(p: Plan) returns (setImages: seq<Command>, statuses: seq<Id>)
    ensures setImages == SetImageCommands(RollbackWorkloads(p), p.targets)
    ensures statuses == RollbackIds(p)
  {
    var order, grouped := GroupedTargets(p.targets);
    assert forall i :: 0 <= i < |order| ==> order[i] in order;
    setImages, statuses := GroupCommands(p.targets, order, grouped);
  }

  method GroupCommands(targets: seq<RollbackTarget>, order: seq<Workload>, grouped: map<Workload, seq<RollbackTarget>>)
    returns (setImages: seq<Command>, statuses: seq<Id>)
    requires forall i :: 0 <= i < |order| ==> order[i] in grouped && grouped[order[i]] == TargetsAt(targets, order[i])
    ensures setImages == SetImageCommands(order, targets)
    ensures |statuses| == |order| && forall i :: 0 <= i < |order| ==> statuses[i] == IdOf(order[i])
  {
    setImages, statuses := [], [];
    for i := 0 to |order|
      invariant |setImages| == i && forall k :: 0 <= k < i ==> setImages[k] == SetImages(IdOf(order[k]), ImagesAt(targets, order[k]))
      invariant |statuses| == i && forall k :: 0 <= k < i ==> statuses[k] == IdOf(order[k])
    {
      setImages := setImages + [SetImages(IdOf(order[i]), ImagesOf(grouped[order[i]]))];
      statuses := statuses + [IdOf(order[i])];
    }
  }

  ghost predicate TargetsPresent(p: Plan, s: State) {
    forall i :: 0 <= i < |p.targets| ==> IdOf(TargetWorkload(p.targets[i])) in s
  }

  /** Nothing but a mutation was refused. */
  predicate ReadsAccepted(log: seq<Event>, n: nat) {
    forall k :: n <= k < |log| && !IsMutation(log[k].command) ==> !log[k].outcome.Refused?
  }

  /** Exactly these mutations were started, in this order, and the statuses among them were in time. */
  predicate Phase(log: seq<Event>, n: nat, commands: seq<Command>, timeout: string, deadline: real)
    requires n <= |log| && IsTimeout(timeout)
  {
    MutationsSince(log, n) == commands && Timely(log, n, timeout, deadline)
  }

  lemma {:induction false} AttemptsArePhase(
    log: seq<Event>, n: nat, commands: seq<Command>, clock: real, timeout: string, deadline: real)
    requires IsTimeout(timeout) && n <= |log| && AttemptedIn(log, n, commands, clock) && MutationsSince(log, n) == commands
    requires clock + TimeoutSeconds(timeout) <= deadline || forall i :: 0 <= i < |commands| ==> commands[i].Delete?
    ensures Phase(log, n, commands, timeout, deadline) && ReadsAccepted(log, n)
  {
  }

  lemma {:induction false} PhaseAfterPhase(
    l0: seq<Event>, l1: seq<Event>, l2: seq<Event>, a: seq<Command>, b: seq<Command>, timeout: string, deadline: real)
    requires l0 <= l1 <= l2 && IsTimeout(timeout)
    requires Phase(l1, |l0|, a, timeout, deadline) && Phase(l2, |l1|, b, timeout, deadline)
    ensures Phase(l2, |l0|, a + b, timeout, deadline) && NoneCancelled(l2, |l0|)
    ensures AllDoneSince(l2, |l0|) <==> AllDoneSince(l1, |l0|) && AllDoneSince(l2, |l1|)
    ensures ReadsAccepted(l1, |l0|) && ReadsAccepted(l2, |l1|) ==> ReadsAccepted(l2, |l0|)
  {
    PhaseMutations(l0, l1, l2);
    PhaseOutcomes(l0, l1, l2);
    TimelySum(l0, l1, l2, timeout, deadline);
    assert forall k :: |l0| <= k < |l1| ==> l2[k] == l1[k];
  }

  /** Setting images and waiting for the workloads. */
  method RestoreImages(w: World, p: Plan, timeout: string) returns (ok: bool, ghost deadline: real)
    requires w.Valid() && IsTimeout(timeout)
    modifies w
    ensures w.Valid() && old(w.log) <= w.log && old(w.history) <= w.history
    ensures Phase(w.log, |old(w.log)|, SetImageCommands(RollbackWorkloads(p), p.targets), timeout, deadline)
    ensures old(w.clock) + TimeoutSeconds(timeout) <= deadline
    ensures TargetsPresent(p, old(w.cluster)) ==> ReadsAccepted(w.log, |old(w.log)|)
    ensures AllAsked(w.log, |old(w.log)|, RollbackIds(p))
    ensures ok <==> AllDoneSince(w.log, |old(w.log)|)
  {
    var setImages, statuses := ImageCommands(p);
    ghost var log0 := w.log;
    var set_ := AttemptEach(w, setImages);
    ghost var log1, cluster1, clock1 := w.log, w.cluster, w.clock;
    var rolled;
    rolled, deadline := WaitForRolloutStatuses(w, statuses, timeout);
    ok := set_ && rolled;
    AttemptsArePhase(log1, |log0|, setImages, clock1, timeout, deadline);
    StatusesArePhase(log1, w.log, p, cluster1, timeout, deadline);
    PhaseAfterPhase(log0, log1, w.log, setImages, [], timeout, deadline);
    AskedLater(w.log, w.log, |log1|, |log0|, RollbackIds(p));
    assert setImages + [] == setImages;
  }

  lemma {:induction false} StatusesArePhase(l1: seq<Event>, l2: seq<Event>, p: Plan, s: State, timeout: string, deadline: real)
    requires l1 <= l2 && IsTimeout(timeout) && Timely(l2, |l1|, timeout, deadline) && StatusesOf(l2, |l1|, RollbackIds(p), s)
    ensures Phase(l2, |l1|, [], timeout, deadline)
    ensures TargetsPresent(p, s) ==> ReadsAccepted(l2, |l1|)
  {
    NoMutations(l2[|l1|..]);
    if TargetsPresent(p, s) {
      RollbackIdsPresent(p, s);
    }
  }

  /** On a cluster that accepts every restoring command, all of them take effect. */
  ghost predicate RestoresAll(p: Plan, s: State, t: State, ok: bool) {
    TargetsPresent(p, s) && AllAccepted(s, RollbackMutations(p)) ==> ok && t == RunAll(s, RollbackMutations(p))
  }

  /** The captured workloads first, then the images and their statuses. */
  method RestoreWorkloads(w: World, p: Plan, timeout: string) returns (ok: bool, ghost deadline: real)
    requires w.Valid() && IsTimeout(timeout)
    modifies w
    ensures w.Valid() && old(w.log) <= w.log && old(w.history) <= w.history
    ensures Phase(w.log, |old(w.log)|, WorkloadMutations(p), timeout, deadline) && AllAsked(w.log, |old(w.log)|, RollbackIds(p))
    ensures old(w.clock) + TimeoutSeconds(timeout) <= deadline
    ensures TargetsPresent(p, old(w.cluster)) ==> ReadsAccepted(w.log, |old(w.log)|)
    ensures ok <==> AllDoneSince(w.log, |old(w.log)|)
  {
    ghost var log0 := w.log;
    var restored := AttemptEach(w, RestoreCommands(p.deploymentStates));
    ghost var log1, clock1 := w.log, w.clock;
    var rolled;
    rolled, deadline := RestoreImages(w, p, timeout);
    ok := restored && rolled;
    AttemptsArePhase(log1, |log0|, RestoreCommands(p.deploymentStates), clock1, timeout, deadline);
    PhaseAfterPhase(log0, log1, w.log, RestoreCommands(p.deploymentStates), SetImageCommands(RollbackWorkloads(p), p.targets), timeout, deadline);
    AskedLater(w.log, w.log, |log1|, |log0|, RollbackIds(p));
  }

  function WorkloadMutations(p: Plan): seq<Command> {
    RestoreCommands(p.deploymentStates) + SetImageCommands(RollbackWorkloads(p), p.targets)
  }

  /** All of it, and the bootstraps deleted in the end; nothing that fails keeps a later command from being attempted. */
  method RestoreEverything(w: World, p: Plan, timeout: string) returns (ok: bool, ghost deadline: real)
    requires w.Valid() && IsTimeout(timeout)
    modifies w
    ensures w.Valid() && old(w.log) <= w.log && old(w.history) <= w.history
    ensures MutationsSince(w.log, |old(w.log)|) == RollbackMutations(p) && AllAsked(w.log, |old(w.log)|, RollbackIds(p))
    ensures old(w.clock) + TimeoutSeconds(timeout) <= deadline && Timely(w.log, |old(w.log)|, timeout, deadline)
    ensures ok ==> AllDoneSince(w.log, |old(w.log)|)
    ensures UndisturbedSince(w.log, |old(w.log)|) ==> RestoresAll(p, old(w.cluster), w.cluster, ok)
  {
    ghost var log0 := w.log;
    var deletions := DeleteCommands(SortedSet(BootstrapPairs(p.bootstrapTargets), LessPair));
    var restored;
    restored, deadline := RestoreWorkloads(w, p, timeout);
    ghost var log1 := w.log;
    var deleted := AttemptEach(w, deletions);
    ok := restored && deleted;
    AttemptsArePhase(w.log, |log1|, deletions, w.clock, timeout, deadline);
    PhaseAfterPhase(log0, log1, w.log, WorkloadMutations(p), deletions, timeout, deadline);
    AskedLater(log1, w.log, |log0|, |log0|, RollbackIds(p));
    PhasesConclude(w.history, w.log, |log0|, p);
  }

  /** The context was looked up, and then the rest went on. */
  lemma {:induction false} AfterContext(l0: seq<Event>, l1: seq<Event>, l2: seq<Event>, p: Plan, timeout: string, deadline: real)
    requires l0 <= l1 <= l2 && |l1| == |l0| + 1 && l1[|l0|].command == CheckContext && l1[|l0|].outcome.Done? && IsTimeout(timeout)
    requires MutationsSince(l2, |l1|) == RollbackMutations(p) && AllAsked(l2, |l1|, RollbackIds(p))
    requires Timely(l2, |l1|, timeout, deadline)
    ensures Attempted(l2, |l0|, p) && Timely(l2, |l0|, timeout, deadline)
    ensures AllDoneSince(l2, |l1|) ==> AllDoneSince(l2, |l0|)
    ensures Undelayed(l2, |l0|, deadline) ==> UndisturbedSince(l2, |l1|)
  {
    assert l2[|l0|] == l1[|l0|];
    NoMutations(l1[|l0|..]);
    AskedLater(l2, l2, |l1|, |l0|, RollbackIds(p));
    PhaseOutcomes(l0, l1, l2);
    PhaseMutations(l0, l1, l2);
    TimelySum(l0, l1, l2, timeout, deadline);
    if Undelayed(l2, |l0|, deadline) {
      UndelayedIsUndisturbed(l2, |l0|, timeout, deadline);
    }
  }

  lemma {:induction false} PhaseOutcomes(start: seq<Event>, middle: seq<Event>, end: seq<Event>)
    requires start <= middle <= end
    ensures AllDoneSince(end, |start|) <==> AllDoneSince(middle, |start|) && AllDoneSince(end, |middle|)
    ensures UndisturbedSince(end, |start|) <==> UndisturbedSince(middle, |start|) && UndisturbedSince(end, |middle|)
  {
    assert forall k :: |start| <= k < |middle| ==> end[k] == middle[k];
  }

  lemma {:induction false} PhasesConclude(history: seq<State>, log: seq<Event>, n: nat, p: Plan)
    requires IsRun(history, log) && n <= |log|
    requires MutationsSince(log, n) == RollbackMutations(p) && NoneCancelled(log, n)
    requires TargetsPresent(p, history[n]) ==> ReadsAccepted(log, n)
    ensures UndisturbedSince(log, n) ==> RestoresAll(p, history[n], history[|log|], AllDoneSince(log, n))
  {
    if TargetsPresent(p, history[n]) && UndisturbedSince(log, n) && AllAccepted(history[n], RollbackMutations(p)) {
      RollbackRunSucceeds(history, log, n);
    }
  }

  lemma {:induction false} PhaseMutations(start: seq<Event>, middle: seq<Event>, end: seq<Event>)
    requires start <= middle <= end
    ensures MutationsSince(end, |start|) == MutationsSince(middle, |start|) + MutationsSince(end, |middle|)
  {
    assert end[|start|..] == middle[|start|..] + end[|middle|..];
    MutationsOfSum(middle[|start|..], end[|middle|..]);
  }

  lemma {:induction false} RollbackRunSucceeds(history: seq<State>, log: seq<Event>, n: nat)
    requires IsRun(history, log) && n <= |log| && ReadsAccepted(log, n)
    requires UndisturbedSince(log, n) && NoneCancelled(log, n) && AllAccepted(history[n], MutationsSince(log, n))
    ensures history[|log|] == RunAll(history[n], MutationsSince(log, n))
    ensures AllDoneSince(log, n)
  {
    RunSuffix(history, log, n);
    UndisturbedRunDoesAll(history[n..], log[n..]);
    assert forall k :: n <= k < |log| ==> log[n..][k - n] == log[k];
  }

  predicate ValidContext(context: string) {
    context != "" && !HasSpace(context)
  }

  ghost predicate NamespacesInspectable(p: Plan, s: State) {
    forall namespace :: namespace in VerifiedNamespaces(p) || namespace in BootstrapNamespaces(p) ==> Inspectable(s, namespace)
  }

  /** What the final checks look for. */
  ghost predicate ChecksPass(p: Plan, s: State) {
    DigestsLive(p, s) && BootstrapsAbsent(p, s)
  }

  /** What becomes of a cluster that accepts every restoring command: all of them take effect, and only the checks
      are left to decide the outcome. */
  ghost predicate Concludes(p: Plan, s: State, t: State, ok: bool) {
    TargetsPresent(p, s) && AllAccepted(s, RollbackMutations(p)) ==>
      && t == RunAll(s, RollbackMutations(p))
      && (NamespacesInspectable(p, t) ==> (ok <==> ChecksPass(p, t)))
  }

  /** `apply_plan`. A normal return means that nothing failed and that the live cluster showed every recorded
      digest and no bootstrap workload; once the context is confirmed every restoring command is attempted. */
  method ApplyPlan(w: World, p: Plan, context: string, timeout: string) returns (r: Result<()>, ghost deadline: real)
    requires w.Valid()
    modifies w
    ensures w.Valid() && old(w.log) <= w.log && old(w.history) <= w.history
    ensures !ValidContext(context) || !IsTimeout(timeout) ==> r.Err? && w.log == old(w.log)
    ensures ValidContext(context) && IsTimeout(timeout) ==>
              && Attempted(w.log, |old(w.log)|, p)
              && old(w.clock) + TimeoutSeconds(timeout) <= deadline && Timely(w.log, |old(w.log)|, timeout, deadline)
              && (Undelayed(w.log, |old(w.log)|, deadline) ==> Concludes(p, old(w.cluster), w.cluster, r.Ok?))
    ensures r.Ok? ==> AllDoneSince(w.log, |old(w.log)|) && ChecksPass(p, w.cluster)
  {
    deadline := 0.0;
    if !ValidContext(context) || !IsTimeout(timeout) {
      return Err, deadline;
    }
    deadline := w.clock + TimeoutSeconds(timeout);
    ghost var log0 := w.log;
    var found := w.RunWithDeadline(CheckContext, None);
    ghost var log1 := w.log;
    assert log0 <= log1 && IsStep(w.history, w.log, |log0|);
    if !found.Done? {
      NoMutations(log1[|log0|..]);
      return Err, deadline;
    }
    var restored;
    restored, deadline := RestoreAndVerify(w, p, timeout);
    AfterContext(log0, log1, w.log, p, timeout, deadline);
    return if restored then Ok(()) else Err, deadline;
  }

  /** The context is looked up first; once it is found, exactly the restoring commands are issued, each once and in
      this order, and every workload that owns a target is waited for. */
  predicate Attempted(log: seq<Event>, n: nat, p: Plan) {
    && n < |log| && log[n].command == CheckContext
    && MutationsSince(log, n) == (if log[n].outcome.Done? then RollbackMutations(p) else [])
    && (log[n].outcome.Done? ==> AllAsked(log, n, RollbackIds(p)))
  }

  /** The restoring commands, then the checks, whatever failed on the way. */
  method RestoreAndVerify(w: World, p: Plan, timeout: string) returns (ok: bool, ghost deadline: real)
    requires w.Valid() && IsTimeout(timeout)
    modifies w
    ensures w.Valid() && old(w.log) <= w.log && old(w.history) <= w.history
    ensures MutationsSince(w.log, |old(w.log)|) == RollbackMutations(p) && AllAsked(w.log, |old(w.log)|, RollbackIds(p))
    ensures old(w.clock) + TimeoutSeconds(timeout) <= deadline && Timely(w.log, |old(w.log)|, timeout, deadline)
    ensures ok ==> AllDoneSince(w.log, |old(w.log)|) && ChecksPass(p, w.cluster)
    ensures UndisturbedSince(w.log, |old(w.log)|) ==> Concludes(p, old(w.cluster), w.cluster, ok)
  {
    ghost var log0 := w.log;
    var restored;
    restored, deadline := RestoreEverything(w, p, timeout);
    ghost var log1 := w.log;
    var verified := VerifyRestored(w, p);
    AskedLater(log1, w.log, |log0|, |log0|, RollbackIds(p));
    PhaseOutcomes(log0, log1, w.log);
    PhaseMutations(log0, log1, w.log);
    NoMutations(w.log[|log1|..]);
    TimelySum(log0, log1, w.log, timeout, deadline);
    return restored && verified, deadline;
  }

  /** Both checks run, whatever the first one found. */
  method VerifyRestored(w: World, p: Plan) returns (ok: bool)
    requires w.Valid()
    modifies w
    ensures w.Valid() && old(w.log) <= w.log && old(w.history) <= w.history && w.cluster == old(w.cluster)
    ensures forall k :: |old(w.log)| <= k < |w.log| ==> IsRead(w.log[k])
    ensures ok ==> AllDoneSince(w.log, |old(w.log)|) && ChecksPass(p, w.cluster)
    ensures NamespacesInspectable(p, w.cluster) && UndisturbedSince(w.log, |old(w.log)|) ==> (ok <==> ChecksPass(p, w.cluster))
  {
    ghost var log0 := w.log;
    var exact := VerifyExactLiveDigests(w, p);
    ghost var log1 := w.log;
    var absent := VerifyBootstrapTargetsAbsent(w, p);
    PhaseOutcomes(log0, log1, w.log);
    ReadsUndisturbed(log0, log1);
    ReadsUndisturbed(log1, w.log);
    return exact && absent;
  }

  lemma {:induction false} ReadsUndisturbed(start: seq<Event>, end: seq<Event>)
    requires start <= end
    requires forall k :: |start| <= k < |end| ==> IsRead(end[k])
    ensures UndisturbedSince(end, |start|) ==> AllDoneSince(end, |start|)
  {
  }
}
