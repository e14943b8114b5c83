/** The mutating part of a rollout: waves of at most eight, each confirmed before the next one starts. */
module RolloutWaves {
  import opened Basics
  import opened JsonTrees
  import opened Clusters
  import opened Plans
  import opened Waves
  import opened WaveOrder
  import opened RolloutPlanning

  /** Nothing but statuses of these workloads, none of them late. */
  predicate OnlyStatuses(log: seq<Event>, n: nat, ids: seq<Id>, deadline: real) {
    forall k :: n <= k < |log| ==> log[k].command.RolloutStatus? && log[k].command.id in ids && OnTime(log[k], deadline)
  }

  // ---- cancelled futures ----

  /** Futures of one pool all patch or all ask for a status. */
  predicate SameKind(a: Command, b: Command) {
    (a.PatchSpec? && b.PatchSpec?) || (a.RolloutStatus? && b.RolloutStatus?)
  }

  /** Before it, and with nothing but commands of the same kind in between, another command has failed. */
  predicate CancelledAfter(log: seq<Event>, n: nat, k: nat)
    requires k < |log|
  {
    exists m :: n <= m < k && log[m].outcome.Failed() && forall i :: m <= i < k ==> SameKind(log[i].command, log[k].command)
  }

  /** No future is cancelled before another one of its wave has failed. */
  predicate CancelsLate(log: seq<Event>, n: nat) {
    forall k :: n <= k < |log| && log[k].outcome.Cancelled? ==> CancelledAfter(log, n, k)
  }

  /** One wave: commands of one kind, and something has failed once anything may be cancelled. */
  predicate OnePool(log: seq<Event>, n: nat, failed: bool) {
    && (forall i, k :: n <= i < |log| && n <= k < |log| ==> SameKind(log[i].command, log[k].command))
    && CancelsLate(log, n)
    && (failed ==> exists m :: n <= m < |log| && log[m].outcome.Failed())
  }

  lemma {:induction false} CancelledLater(a: seq<Event>, b: seq<Event>, n: nat, m: nat, k: nat)
    requires a <= b && n <= m && k < |a| && CancelledAfter(a, m, k)
    ensures CancelledAfter(b, n, k)
  {
    var j :| m <= j < k && a[j].outcome.Failed() && forall i :: j <= i < k ==> SameKind(a[i].command, a[k].command);
    assert forall i :: 0 <= i < |a| ==> b[i] == a[i];
  }

  lemma {:induction false} CancelsSum(a: seq<Event>, b: seq<Event>, n: nat)
    requires n <= |a| && a <= b && CancelsLate(a, n) && CancelsLate(b, |a|)
    ensures CancelsLate(b, n)
  {
    forall k | n <= k < |b| && b[k].outcome.Cancelled?
      ensures CancelledAfter(b, n, k)
    {
      if k < |a| {
        assert b[k] == a[k];
        CancelledLater(a, b, n, n, k);
      } else {
        CancelledLater(b, b, n, |a|, k);
      }
    }
  }

  lemma {:induction false} PoolStep(before: seq<Event>, after: seq<Event>, n: nat, failed: bool)
    requires n <= |before| && before <= after && |after| == |before| + 1 && OnePool(before, n, failed)
    requires SameKind(after[|before|].command, after[|before|].command)
    requires n < |before| ==> SameKind(before[n].command, after[|before|].command)
    requires after[|before|].outcome.Cancelled? ==> failed
    ensures OnePool(after, n, failed || !after[|before|].outcome.Done?)
  {
    assert forall i :: 0 <= i < |before| ==> after[i] == before[i];
    forall k | n <= k < |after| && after[k].outcome.Cancelled?
      ensures CancelledAfter(after, n, k)
    {
      if k < |before| {
        CancelledLater(before, after, n, n, k);
      } else {
        var m :| n <= m < |before| && before[m].outcome.Failed();
        assert after[m].outcome.Failed();
      }
    }
    if failed {
      var m :| n <= m < |before| && before[m].outcome.Failed();
      assert after[m].outcome.Failed();
    }
  }

  // ---- statuses ----

  predicate AllConfirmedIn(log: seq<Event>, n: nat, ids: seq<Id>) {
    forall id :: id in ids ==> ConfirmedIn(log, n, id)
  }

  ghost predicate AllPresent(ids: seq<Id>, s: State) {
    forall id :: id in ids ==> id in s
  }

  /** `_wait_for_rollout_status_wave`: one worker per status; the first failure cancels what has not started. */
  method WaitForStatusWave(w: World, ids: seq<Id>, deadline: real) returns (ok: bool)
    requires w.Valid()
    modifies w
    ensures w.Valid() && old(w.log) <= w.log && old(w.history) <= w.history && w.cluster == old(w.cluster)
    ensures OnlyStatuses(w.log, |old(w.log)|, ids, deadline) && CancelsLate(w.log, |old(w.log)|)
    ensures ok ==> AllDoneSince(w.log, |old(w.log)|) && AllConfirmedIn(w.log, |old(w.log)|, ids)
    ensures UndisturbedSince(w.log, |old(w.log)|) && AllPresent(ids, w.cluster) ==> ok
  {
    ok := true;
    var pending := ids;
    ghost var n := |w.log|;
    while pending != []
      invariant w.Valid() && old(w.log) <= w.log && old(w.history) <= w.history && w.cluster == old(w.cluster)
      invariant forall id :: id in pending ==> id in ids
      invariant OnlyStatuses(w.log, n, ids, deadline) && OnePool(w.log, n, !ok)
      invariant ok ==> AllDoneSince(w.log, n)
      invariant ok ==> forall id :: id in ids ==> id in pending || ConfirmedIn(w.log, n, id)
      invariant UndisturbedSince(w.log, n) && AllPresent(ids, w.cluster) ==> ok
      decreases |pending|
    {
      var i: nat :| i < |pending|;
      var id := pending[i];
      ghost var before, waiting := w.log, pending;
      pending := pending[..i] + pending[i + 1..];
      assert forall x :: x in waiting ==> x == id || x in pending;
      var outcome := AskStatus(w, id, deadline, !ok);
      StatusStep(before, w.log, n, ids, deadline);
      PoolStep(before, w.log, n, !ok);
      ok := ok && outcome.Done?;
    }
  }

  /** One worker's status; once something has failed it may find its future cancelled. */
  method AskStatus(w: World, id: Id, deadline: real, failed: bool) returns (outcome: Outcome)
    requires w.Valid()
    modifies w
    ensures w.Valid() && old(w.log) <= w.log && old(w.history) <= w.history && w.cluster == old(w.cluster)
    ensures |w.log| == |old(w.log)| + 1
    ensures w.log[|old(w.log)|].command.RolloutStatus? && w.log[|old(w.log)|].command.id == id
    ensures w.log[|old(w.log)|].outcome == outcome && OnTime(w.log[|old(w.log)|], deadline)
    ensures outcome.Cancelled? ==> failed
    ensures outcome.Refused? ==> id !in w.cluster
  {
    ghost var n := |w.log|;
    var cancelled: bool := *;
    if failed && cancelled {
      w.Cancel(RolloutStatus(id, 0));
      outcome := Cancelled;
    } else {
      outcome := w.RunRolloutStatus(id, deadline);
      assert IsStep(w.history, w.log, n);
    }
  }

  lemma {:induction false} StatusStep(before: seq<Event>, after: seq<Event>, n: nat, ids: seq<Id>, deadline: real)
    requires before <= after && |after| == |before| + 1 && n <= |before|
    requires OnlyStatuses(before, n, ids, deadline)
    requires after[|before|].command.RolloutStatus? && after[|before|].command.id in ids && OnTime(after[|before|], deadline)
    ensures OnlyStatuses(after, n, ids, deadline)
    ensures forall id :: ConfirmedIn(before, n, id) ==> ConfirmedIn(after, n, id)
    ensures after[|before|].outcome.Done? ==> ConfirmedIn(after, n, after[|before|].command.id)
    ensures AllDoneSince(after, n) <==> AllDoneSince(before, n) && after[|before|].outcome.Done?
    ensures UndisturbedSince(after, n) ==>
              UndisturbedSince(before, n) && !after[|before|].outcome.Faulted? && !after[|before|].outcome.Expired?
  {
    forall id | ConfirmedIn(before, n, id)
      ensures ConfirmedIn(after, n, id)
    {
      var j :| n <= j < |before| && Confirms(before[j]) && WorkloadOf(before[j]) == id;
      assert after[j] == before[j];
    }
    if after[|before|].outcome.Done? {
      assert Confirms(after[|before|]);
    }
    assert forall k :: n <= k < |before| ==> after[k] == before[k];
  }

  /** `wait_for_rollout_statuses` of the rollout: bounded waves of statuses under the shared deadline. */
  method WaitForRolloutStatuses(w: World, ids: seq<Id>, deadline: real) returns (ok: bool)
    requires w.Valid()
    modifies w
    ensures w.Valid() && old(w.log) <= w.log && old(w.history) <= w.history && w.cluster == old(w.cluster)
    ensures OnlyStatuses(w.log, |old(w.log)|, ids, deadline) && CancelsLate(w.log, |old(w.log)|)
    ensures ok ==> AllDoneSince(w.log, |old(w.log)|) && AllConfirmedIn(w.log, |old(w.log)|, ids)
    ensures UndisturbedSince(w.log, |old(w.log)|) && AllPresent(ids, w.cluster) ==> ok
  {
    if ids == [] {
      return true;
    }
    var size := if |ids| < MAX_WORKERS then |ids| else MAX_WORKERS;
    var waves := BoundedWaves(ids, size);
    ghost var n := |w.log|;
    for i := 0 to |waves|
      invariant w.Valid() && old(w.log) <= w.log && old(w.history) <= w.history && w.cluster == old(w.cluster)
      invariant OnlyStatuses(w.log, n, ids, deadline) && AllDoneSince(w.log, n) && CancelsLate(w.log, n)
      invariant AllConfirmedIn(w.log, n, Concatenated(waves[..i]))
    {
      ghost var before := w.log;
      StatusWave(ids, size, i);
      var confirmed := WaitForStatusWave(w, waves[i], deadline);
      StatusWaveAppended(before, w.log, n, ids, Concatenated(waves[..i]), waves[i], deadline);
      if !confirmed {
        return false;
      }
    }
    WavesSplit(ids, size);
    assert waves[..|waves|] == waves;
    return true;
  }

  lemma {:induction false} StatusWave<T>(items: seq<T>, size: nat, i: nat)
    requires size >= 1 && i < |BoundedWaves(items, size)|
    ensures var waves := BoundedWaves(items, size);
            && (forall x :: x in waves[i] ==> x in items)
            && Concatenated(waves[..i + 1]) == Concatenated(waves[..i]) + waves[i]
  {
    var waves := BoundedWaves(items, size);
    WavesSplit(items, size);
    WaveInList(waves, i);
    ConcatenatedSnoc(waves[..i], waves[i]);
    assert waves[..i + 1] == waves[..i] + [waves[i]];
  }

  lemma {:induction false} ConcatenatedSnoc<T>(waves: seq<seq<T>>, wave: seq<T>)
    ensures Concatenated(waves + [wave]) == Concatenated(waves) + wave
  {
    if waves == [] {
      assert [wave][1..] == [];
    } else {
      assert (waves + [wave])[1..] == waves[1..] + [wave];
      ConcatenatedSnoc(waves[1..], wave);
    }
  }

  lemma {:induction false} WaveInList<T>(waves: seq<seq<T>>, i: nat)
    requires i < |waves|
    ensures forall x :: x in waves[i] ==> x in Concatenated(waves)
  {
    if i > 0 {
      WaveInList(waves[1..], i - 1);
    }
  }

  lemma {:induction false} StatusWaveAppended(
    before: seq<Event>, after: seq<Event>, n: nat, ids: seq<Id>, earlier: seq<Id>, wave: seq<Id>, deadline: real)
    requires before <= after && n <= |before|
    requires OnlyStatuses(before, n, ids, deadline) && OnlyStatuses(after, |before|, wave, deadline)
    requires forall id :: id in wave ==> id in ids
    requires AllDoneSince(before, n) && AllConfirmedIn(before, n, earlier)
    requires CancelsLate(before, n) && CancelsLate(after, |before|)
    ensures OnlyStatuses(after, n, ids, deadline) && CancelsLate(after, n)
    ensures UndisturbedSince(after, n) ==> UndisturbedSince(after, |before|)
    ensures AllDoneSince(after, |before|) ==> AllDoneSince(after, n)
    ensures AllConfirmedIn(after, |before|, wave) ==> AllConfirmedIn(after, n, earlier + wave)
  {
    assert forall k :: n <= k < |before| ==> after[k] == before[k];
    CancelsSum(before, after, n);
    forall id | ConfirmedIn(before, n, id)
      ensures ConfirmedIn(after, n, id)
    {
      var j :| n <= j < |before| && Confirms(before[j]) && WorkloadOf(before[j]) == id;
      assert after[j] == before[j];
    }
    forall id | ConfirmedIn(after, |before|, id)
      ensures ConfirmedIn(after, n, id)
    {
      var j :| |before| <= j < |after| && Confirms(after[j]) && WorkloadOf(after[j]) == id;
    }
  }

  // ---- spec patches ----

  function PatchId(patch: Patch): Id {
    Id(patch.namespace, NameOf(patch.resource))
  }

  function PatchIds(patches: seq<Patch>): (r: seq<Id>)
    ensures |r| == |patches| && forall i :: 0 <= i < |r| ==> r[i] == PatchId(patches[i])
  {
    seq(|patches|, i requires 0 <= i < |patches| => PatchId(patches[i]))
  }

  function PatchCommand(patch: Patch): Command {
    PatchSpec(PatchId(patch), patch.strategy, patch.template)
  }

  function PatchCommands(patches: seq<Patch>): (r: seq<Command>)
    ensures |r| == |patches| && forall i :: 0 <= i < |r| ==> r[i] == PatchCommand(patches[i])
  {
    seq(|patches|, i requires 0 <= i < |patches| => PatchCommand(patches[i]))
  }

  ghost predicate Holding(s: State, patch: Patch) {
    PatchId(patch) in s && s[PatchId(patch)] == Deployment(patch.strategy, patch.template)
  }

  /** `t` is `s` with exactly these patches applied. */
  ghost predicate PatchesApplied(s: State, patches: seq<Patch>, t: State) {
    && t.Keys == s.Keys
    && (forall i :: 0 <= i < |patches| ==> Holding(t, patches[i]))
    && (forall id :: id in s && id !in PatchIds(patches) ==> t[id] == s[id])
  }

  /** `_apply_existing_deployment_spec_wave`: the patches of a wave in any order; after a failure some may not start. */
  method ApplySpecWave(w: World, patches: seq<Patch>, deadline: real) returns (ok: bool)
    requires w.Valid() && NoDuplicates(PatchIds(patches))
    modifies w
    ensures w.Valid() && old(w.log) <= w.log && old(w.history) <= w.history
    ensures OnlyCommands(w.log, |old(w.log)|, PatchCommands(patches), deadline) && CancelsLate(w.log, |old(w.log)|)
    ensures |w.log| == |old(w.log)| + |patches|
    ensures ok ==> AllDoneSince(w.log, |old(w.log)|) && AllIssued(w.log, |old(w.log)|, PatchCommands(patches))
    ensures ok ==> PatchesApplied(old(w.cluster), patches, w.cluster)
    ensures UndisturbedSince(w.log, |old(w.log)|) && PatchesPresent(patches, old(w.cluster)) ==> ok
  {
    ok := true;
    var pending := patches;
    ghost var n, start, applied := |w.log|, w.cluster, map[];
    while pending != []
      invariant w.Valid() && old(w.log) <= w.log && old(w.history) <= w.history
      invariant |w.log| == n + |patches| - |pending|
      invariant Applying(w.log, n, patches, pending, deadline, applied, start, w.cluster, ok)
      decreases |pending|
    {
      pending, ok, applied := ApplyAny(w, patches, pending, deadline, ok, n, applied, start);
    }
    if ok {
      AllApplied(start, applied, patches, w.cluster);
      NothingPending(w.log, n, patches);
    }
  }

  /** Part of a wave has been applied: all but the pending patches, unless something failed. */
  ghost predicate Applying(
    log: seq<Event>, n: nat, patches: seq<Patch>, pending: seq<Patch>, deadline: real, applied: State, start: State, t: State, ok: bool)
  {
    && n <= |log|
    && (forall patch :: patch in pending ==> patch in patches) && NoDuplicates(PatchIds(pending))
    && OnlyCommands(log, n, PatchCommands(patches), deadline) && OnePool(log, n, !ok) && Tracks(applied, patches, pending)
    && (ok ==> AllDoneSince(log, n) && IssuedExcept(log, n, patches, pending) && Overlaid(t, start, applied))
    && (UndisturbedSince(log, n) && PatchesPresent(patches, start) ==> ok)
  }

  /** `t` is `start` with the applied Deployments in place of its own. */
  ghost predicate Overlaid(t: State, start: State, applied: State) {
    t == start + applied && t.Keys == start.Keys
  }

  lemma {:induction false} OverlayStep(s: State, start: State, earlier: State, id: Id, workload: Deployment)
    requires Overlaid(s, start, earlier) && id in s
    ensures Overlaid(s[id := workload], start, earlier[id := workload])
  {
  }

  /** Some patch of those pending. */
  method ApplyAny(
    w: World, patches: seq<Patch>, waiting: seq<Patch>, deadline: real, before: bool, ghost n: nat, ghost earlier: State, ghost start: State)
    returns (pending: seq<Patch>, ok: bool, ghost applied: State)
    requires w.Valid() && NoDuplicates(PatchIds(patches)) && waiting != []
    requires Applying(w.log, n, patches, waiting, deadline, earlier, start, w.cluster, before)
    modifies w
    ensures w.Valid() && old(w.log) <= w.log && old(w.history) <= w.history
    ensures Applying(w.log, n, patches, pending, deadline, applied, start, w.cluster, ok)
    ensures |pending| == |waiting| - 1 && |w.log| == |old(w.log)| + 1
  {
    var i: nat :| i < |waiting|;
    var patch := waiting[i];
    ghost var log0, cluster0 := w.log, w.cluster;
    pending := waiting[..i] + waiting[i + 1..];
    var outcome := PatchOne(w, patch, deadline, !before);
    applied := earlier[PatchId(patch) := Deployment(patch.strategy, patch.template)];
    ok := before && outcome.Done?;
    ApplyingFurther(log0, w.log, n, patches, waiting, pending, i, deadline, earlier, applied, start, cluster0, w.cluster, before);
  }

  /** What one patch, started or cancelled, may do to the cluster. */
  ghost predicate PatchEvent(e: Event, patch: Patch, deadline: real, s: State, t: State, failed: bool) {
    && e.command == PatchCommand(patch) && OnTime(e, deadline)
    && (e.outcome.Cancelled? ==> failed)
    && (e.outcome.Refused? ==> PatchId(patch) !in s)
    && (e.outcome.Done? ==> PatchId(patch) in s && t == s[PatchId(patch) := Deployment(patch.strategy, patch.template)])
  }

  lemma {:induction false} ApplyingFurther(
    before: seq<Event>, after: seq<Event>, n: nat, patches: seq<Patch>, waiting: seq<Patch>, pending: seq<Patch>, i: nat, deadline: real,
    earlier: State, applied: State, start: State, s: State, t: State, ok: bool)
    requires n <= |before| && before <= after && |after| == |before| + 1 && NoDuplicates(PatchIds(patches))
    requires i < |waiting| && pending == waiting[..i] + waiting[i + 1..]
    requires Applying(before, n, patches, waiting, deadline, earlier, start, s, ok)
    requires PatchEvent(after[|before|], waiting[i], deadline, s, t, !ok)
    requires applied == earlier[PatchId(waiting[i]) := Deployment(waiting[i].strategy, waiting[i].template)]
    ensures Applying(after, n, patches, pending, deadline, applied, start, t, ok && after[|before|].outcome.Done?)
  {
    PendingStep(patches, waiting, pending, i);
    assert waiting[i] in waiting;
    WaveStep(before, after, n, patches, waiting, pending, i, deadline, earlier);
    PatchPool(before, after, n, patches, deadline, !ok);
    if ok && after[|before|].outcome.Done? {
      OverlayStep(s, start, earlier, PatchId(waiting[i]), Deployment(waiting[i].strategy, waiting[i].template));
    }
  }

  lemma {:induction false} PatchPool(before: seq<Event>, after: seq<Event>, n: nat, patches: seq<Patch>, deadline: real, failed: bool)
    requires n <= |before| && before <= after && |after| == |before| + 1 && OnePool(before, n, failed)
    requires OnlyCommands(before, n, PatchCommands(patches), deadline)
    requires after[|before|].command.PatchSpec? && (after[|before|].outcome.Cancelled? ==> failed)
    ensures OnePool(after, n, failed || !after[|before|].outcome.Done?)
  {
    PoolStep(before, after, n, failed);
  }

  lemma {:induction false} WaveStep(
    before: seq<Event>, after: seq<Event>, n: nat, patches: seq<Patch>, waiting: seq<Patch>, pending: seq<Patch>, i: nat, deadline: real, applied: State)
    requires n <= |before| && |after| == |before| + 1 && before <= after
    requires i < |waiting| && waiting[i] in patches && NoDuplicates(PatchIds(patches))
    requires forall patch :: patch in waiting <==> patch == waiting[i] || patch in pending
    requires OnlyCommands(before, n, PatchCommands(patches), deadline) && Tracks(applied, patches, waiting)
    requires after[|before|].command == PatchCommand(waiting[i]) && OnTime(after[|before|], deadline)
    ensures OnlyCommands(after, n, PatchCommands(patches), deadline)
    ensures AllDoneSince(after, n) <==> AllDoneSince(before, n) && after[|before|].outcome.Done?
    ensures UndisturbedSince(after, n) ==>
              UndisturbedSince(before, n) && !after[|before|].outcome.Faulted? && !after[|before|].outcome.Expired?
    ensures Tracks(applied[PatchId(waiting[i]) := Deployment(waiting[i].strategy, waiting[i].template)], patches, pending)
    ensures IssuedExcept(before, n, patches, waiting) && after[|before|].outcome.Done? ==> IssuedExcept(after, n, patches, pending)
  {
    var k: nat :| k < |patches| && patches[k] == waiting[i];
    assert PatchCommands(patches)[k] == PatchCommand(waiting[i]);
    OnlyCommandsStep(before, after, n, PatchCommands(patches), deadline);
    TrackStep(applied, patches, waiting, pending, i);
    IssuedStep(before, after, n, patches, waiting, pending, waiting[i]);
  }

  /** Each of these commands was done. */
  predicate AllIssued(log: seq<Event>, n: nat, commands: seq<Command>) {
    forall i :: 0 <= i < |commands| ==> DoneIn(log, n, |log|, commands[i])
  }

  /** Each of these patches is still to come or was done. */
  predicate IssuedExcept(log: seq<Event>, n: nat, patches: seq<Patch>, pending: seq<Patch>) {
    forall patch :: patch in patches ==> patch in pending || DoneIn(log, n, |log|, PatchCommand(patch))
  }

  lemma {:induction false} IssuedStep(
    before: seq<Event>, after: seq<Event>, n: nat, patches: seq<Patch>, waiting: seq<Patch>, pending: seq<Patch>, patch: Patch)
    requires n <= |before| && |after| == |before| + 1 && before <= after
    requires after[|before|].command == PatchCommand(patch)
    requires forall other :: other in waiting ==> other == patch || other in pending
    ensures IssuedExcept(before, n, patches, waiting) && after[|before|].outcome.Done? ==> IssuedExcept(after, n, patches, pending)
  {
    if IssuedExcept(before, n, patches, waiting) && after[|before|].outcome.Done? {
      forall other | other in patches && other !in pending
        ensures DoneIn(after, n, |after|, PatchCommand(other))
      {
        if other != patch {
          IssuedLater(before, after, n, PatchCommand(other));
        }
      }
    }
  }

  lemma {:induction false} NothingPending(log: seq<Event>, n: nat, patches: seq<Patch>)
    requires IssuedExcept(log, n, patches, [])
    ensures AllIssued(log, n, PatchCommands(patches))
  {
    forall i | 0 <= i < |patches|
      ensures DoneIn(log, n, |log|, PatchCommands(patches)[i])
    {
      assert patches[i] in patches;
    }
  }

  lemma {:induction false} IssuedLater(before: seq<Event>, after: seq<Event>, n: nat, command: Command)
    requires before <= after && DoneIn(before, n, |before|, command)
    ensures DoneIn(after, n, |after|, command)
  {
    var m :| n <= m < |before| && before[m].command == command && before[m].outcome.Done?;
    assert after[m] == before[m];
  }

  /** Nothing but these commands was issued, and nothing late. */
  predicate OnlyCommands(log: seq<Event>, n: nat, commands: seq<Command>, deadline: real) {
    forall k :: n <= k < |log| ==> log[k].command in commands && OnTime(log[k], deadline)
  }

  lemma {:induction false} OnlyCommandsStep(before: seq<Event>, after: seq<Event>, n: nat, commands: seq<Command>, deadline: real)
    requires n <= |before| && |after| == |before| + 1 && before <= after
    requires OnlyCommands(before, n, commands, deadline)
    requires after[|before|].command in commands && OnTime(after[|before|], deadline)
    ensures OnlyCommands(after, n, commands, deadline)
    ensures AllDoneSince(after, n) <==> AllDoneSince(before, n) && after[|before|].outcome.Done?
    ensures UndisturbedSince(after, n) ==>
              UndisturbedSince(before, n) && !after[|before|].outcome.Faulted? && !after[|before|].outcome.Expired?
  {
    assert forall k :: 0 <= k < |before| ==> after[k] == before[k];
  }

  ghost predicate PatchesPresent(patches: seq<Patch>, s: State) {
    forall patch :: patch in patches ==> PatchId(patch) in s
  }

  /** One worker's patch; once something has failed it may find its future cancelled. */
  method PatchOne(w: World, patch: Patch, deadline: real, failed: bool) returns (outcome: Outcome)
    requires w.Valid()
    modifies w
    ensures w.Valid() && old(w.log) <= w.log && old(w.history) <= w.history
    ensures |w.log| == |old(w.log)| + 1
    ensures w.log[|old(w.log)|].outcome == outcome
    ensures PatchEvent(w.log[|old(w.log)|], patch, deadline, old(w.cluster), w.cluster, failed)
  {
    ghost var n := |w.log|;
    var cancelled: bool := *;
    if failed && cancelled {
      w.Cancel(PatchCommand(patch));
      outcome := Cancelled;
    } else {
      outcome := w.RunWithDeadline(PatchCommand(patch), Some(deadline));
      assert IsStep(w.history, w.log, n);
    }
  }

  /** What has been attempted so far: the patches no longer pending, under their own ids. */
  ghost predicate Tracks(applied: State, patches: seq<Patch>, pending: seq<Patch>) {
    && (forall patch :: patch in patches && patch !in pending ==> Holding(applied, patch))
    && (forall id :: id in applied ==> id in PatchIds(patches))
  }

  lemma {:induction false} PendingStep(patches: seq<Patch>, waiting: seq<Patch>, pending: seq<Patch>, i: nat)
    requires i < |waiting| && pending == waiting[..i] + waiting[i + 1..]
    requires forall patch :: patch in waiting ==> patch in patches
    requires NoDuplicates(PatchIds(waiting))
    ensures forall patch :: patch in waiting <==> patch == waiting[i] || patch in pending
    ensures forall patch :: patch in pending ==> PatchId(patch) != PatchId(waiting[i])
    ensures NoDuplicates(PatchIds(pending))
    ensures PatchCommand(waiting[i]) in PatchCommands(patches)
  {
    assert waiting == waiting[..i] + [waiting[i]] + waiting[i + 1..];
    forall patch | patch in pending
      ensures PatchId(patch) != PatchId(waiting[i])
    {
      var k :| 0 <= k < |pending| && pending[k] == patch;
      if k < i {
        assert PatchIds(waiting)[k] != PatchIds(waiting)[i];
      } else {
        assert PatchIds(waiting)[i] != PatchIds(waiting)[k + 1];
      }
    }
    assert PatchIds(pending) == PatchIds(waiting)[..i] + PatchIds(waiting)[i + 1..];
    assert waiting[i] in waiting;
    var j :| 0 <= j < |patches| && patches[j] == waiting[i];
    assert PatchCommands(patches)[j] == PatchCommand(waiting[i]);
  }

  lemma {:induction false} TrackStep(applied: State, patches: seq<Patch>, waiting: seq<Patch>, pending: seq<Patch>, i: nat)
    requires i < |waiting| && waiting[i] in patches && NoDuplicates(PatchIds(patches))
    requires forall patch :: patch in waiting <==> patch == waiting[i] || patch in pending
    requires Tracks(applied, patches, waiting)
    ensures Tracks(applied[PatchId(waiting[i]) := Deployment(waiting[i].strategy, waiting[i].template)], patches, pending)
  {
    var j :| 0 <= j < |patches| && patches[j] == waiting[i];
    assert PatchIds(patches)[j] == PatchId(waiting[i]);
    forall patch | patch in patches && patch != waiting[i]
      ensures PatchId(patch) != PatchId(waiting[i])
    {
      var k :| 0 <= k < |patches| && patches[k] == patch;
      assert PatchIds(patches)[k] != PatchIds(patches)[j];
    }
  }

  lemma {:induction false} AllApplied(s: State, applied: State, patches: seq<Patch>, t: State)
    requires Tracks(applied, patches, []) && t == s + applied && t.Keys == s.Keys
    ensures PatchesApplied(s, patches, t)
  {
    forall i | 0 <= i < |patches|
      ensures Holding(t, patches[i])
    {
      assert patches[i] in patches;
    }
  }

  // ---- one wave after another ----

  /** These changes, statuses and looks at the clock; nothing else, and nothing late. */
  predicate OnlyWaves(log: seq<Event>, n: nat, commands: seq<Command>, deadline: real) {
    forall k :: n <= k < |log| ==>
      && OnTime(log[k], deadline)
      && (log[k].command in commands || log[k].command.RolloutStatus? || log[k].command.StartWave?)
  }

  ghost predicate WavesKept(log: seq<Event>, n: nat, commands: seq<Command>, deadline: real)
    requires n <= |log| && AllChange(commands)
  {
    OnlyWaves(log, n, commands, deadline) && CancelsLate(log, n) && KeepsWaves(log, n, ChangedIds(commands)) && InOrder(log, n, commands)
  }

  /** Nothing has failed or is left unconfirmed, and the first `count` changes are settled. */
  ghost predicate AllConfirmed(log: seq<Event>, n: nat, commands: seq<Command>, count: nat)
    requires n <= |log| && AllChange(commands) && count <= |commands|
  {
    AllDoneSince(log, n) && Unconfirmed(log, n, |log|) == {} && FirstSettled(log, n, |log|, commands, count)
  }

  /** Commands that change nothing, and do not fail, may come before ... */
  lemma {:induction false} ConfirmedFromEarlier(log: seq<Event>, n: nat, m: nat, commands: seq<Command>, count: nat)
    requires n <= m <= |log| && AllChange(commands) && count <= |commands| && AllConfirmed(log, m, commands, count)
    requires forall k :: n <= k < m ==> log[k].outcome.Done? && !Changes(log[k].command)
    ensures AllConfirmed(log, n, commands, count)
  {
    UnconfirmedWithin(log, n, m, {});
    UnconfirmedFrom(log, n, m, |log|);
    FirstSettledLater(log, log, n, m, |log|, commands, count);
  }

  /** ... and after. */
  lemma {:induction false} ConfirmedLater(a: seq<Event>, b: seq<Event>, n: nat, commands: seq<Command>, count: nat)
    requires n <= |a| && a <= b && AllChange(commands) && count <= |commands| && AllConfirmed(a, n, commands, count)
    requires forall k :: |a| <= k < |b| ==> b[k].outcome.Done? && !Changes(b[k].command)
    ensures AllConfirmed(b, n, commands, count)
  {
    assert forall k :: 0 <= k < |a| ==> b[k] == a[k];
    UnconfirmedPrefix(a, b, n, |a|);
    UnconfirmedFrom(b, n, |a|, |b|);
    UnconfirmedWithin(b, |a|, |b|, {});
    forall i | 0 <= i < count
      ensures Settled(b, n, |b|, commands[i])
    {
      SettledLater(a, b, n, n, |a|, |b|, commands[i]);
    }
  }

  lemma {:induction false} OnlyWavesSum(
    l0: seq<Event>, l1: seq<Event>, n: nat, part: seq<Command>, commands: seq<Command>, deadline: real)
    requires n <= |l0| && l0 <= l1
    requires OnlyWaves(l0, n, commands, deadline) && OnlyWaves(l1, |l0|, part, deadline)
    requires forall command :: command in part ==> command in commands
    ensures OnlyWaves(l1, n, commands, deadline)
    ensures AllDoneSince(l0, n) && AllDoneSince(l1, |l0|) ==> AllDoneSince(l1, n)
    ensures UndisturbedSince(l1, n) ==> UndisturbedSince(l1, |l0|)
  {
    assert forall k :: 0 <= k < |l0| ==> l1[k] == l0[k];
  }

  lemma {:induction false} WaveMutations(log: seq<Event>, n: nat, wave: seq<Command>, deadline: real)
    requires n <= |log| && AllChange(wave) && OnlyWaves(log, n, wave, deadline)
    ensures forall k :: n <= k < |log| && Mutates(log[k]) ==> WorkloadOf(log[k]) in ChangedIds(wave)
  {
    forall k | n <= k < |log| && Mutates(log[k])
      ensures WorkloadOf(log[k]) in ChangedIds(wave)
    {
      var i :| 0 <= i < |wave| && wave[i] == log[k].command;
      assert ChangedIds(wave)[i] == WorkloadOf(log[k]);
    }
  }

  /** One more wave, begun with everything confirmed. */
  lemma {:induction false} WavesKeptFurther(
    before: seq<Event>, after: seq<Event>, n: nat, commands: seq<Command>, deadline: real, done: nat, next: nat, wave: seq<Command>)
    requires n <= |before| && before <= after && AllChange(commands) && AllChange(wave)
    requires next == done + |wave| <= |commands| && wave == commands[done..done + |wave|]
    requires done % MAX_WORKERS == 0 && 1 <= |wave| <= MAX_WORKERS
    requires WavesKept(before, n, commands, deadline) && AllConfirmed(before, n, commands, done)
    requires OnlyWaves(after, |before|, wave, deadline) && CancelsLate(after, |before|)
    ensures WavesKept(after, n, commands, deadline)
    ensures UndisturbedSince(after, n) ==> UndisturbedSince(after, |before|)
    ensures AllConfirmed(after, |before|, wave, |wave|) ==> AllConfirmed(after, n, commands, next)
  {
    OnlyWavesSum(before, after, n, wave, commands, deadline);
    CancelsSum(before, after, n);
    InOrderFurther(before, after, n, commands, done, |wave|);
    KeepsChanges(before, after, n, commands, deadline, done, wave);
    ConfirmedFurther(before, after, n, commands, done, next, wave);
  }

  lemma {:induction false} KeepsChanges(
    before: seq<Event>, after: seq<Event>, n: nat, commands: seq<Command>, deadline: real, done: nat, wave: seq<Command>)
    requires n <= |before| && before <= after && AllChange(commands) && AllChange(wave)
    requires done + |wave| <= |commands| && wave == commands[done..done + |wave|]
    requires done % MAX_WORKERS == 0 && 1 <= |wave| <= MAX_WORKERS
    requires KeepsWaves(before, n, ChangedIds(commands)) && Unconfirmed(before, n, |before|) == {}
    requires OnlyWaves(after, |before|, wave, deadline)
    ensures KeepsWaves(after, n, ChangedIds(commands))
    ensures Unconfirmed(after, n, |after|) == Unconfirmed(after, |before|, |after|)
  {
    WaveMutations(after, |before|, wave, deadline);
    assert ChangedIds(wave) == ChangedIds(commands)[done..done + |wave|];
    KeepsWavesFurther(before, after, n, ChangedIds(commands), done, |wave|);
  }

  lemma {:induction false} ConfirmedFurther(
    before: seq<Event>, after: seq<Event>, n: nat, commands: seq<Command>, done: nat, next: nat, wave: seq<Command>)
    requires n <= |before| && before <= after && AllChange(commands) && AllChange(wave)
    requires next == done + |wave| <= |commands| && wave == commands[done..done + |wave|]
    requires AllConfirmed(before, n, commands, done) && Unconfirmed(after, n, |after|) == Unconfirmed(after, |before|, |after|)
    ensures AllConfirmed(after, |before|, wave, |wave|) ==> AllConfirmed(after, n, commands, next)
  {
    assert forall k :: 0 <= k < |before| ==> after[k] == before[k];
    if AllConfirmed(after, |before|, wave, |wave|) {
      SettledFurther(before, after, n, commands, done, |wave|);
    }
  }

  /** Changes followed by statuses of the same workloads. */
  lemma {:induction false} ChangesThenStatuses(
    l0: seq<Event>, l1: seq<Event>, l2: seq<Event>, wave: seq<Command>, deadline: real)
    requires l0 <= l1 <= l2 && AllChange(wave)
    requires OnlyCommands(l1, |l0|, wave, deadline)
    requires OnlyStatuses(l2, |l1|, ChangedIds(wave), deadline)
    requires CancelsLate(l1, |l0|) && CancelsLate(l2, |l1|)
    ensures OnlyWaves(l2, |l0|, wave, deadline) && CancelsLate(l2, |l0|)
    ensures UndisturbedSince(l2, |l0|) ==> UndisturbedSince(l1, |l0|) && UndisturbedSince(l2, |l1|)
    ensures AllDoneSince(l1, |l0|) && AllIssued(l1, |l0|, wave) && AllDoneSince(l2, |l1|) && AllConfirmedIn(l2, |l1|, ChangedIds(wave)) ==>
              AllConfirmed(l2, |l0|, wave, |wave|)
  {
    assert forall k :: 0 <= k < |l1| ==> l2[k] == l1[k];
    CancelsLaterSum(l0, l1, l2);
    if AllDoneSince(l1, |l0|) && AllIssued(l1, |l0|, wave) && AllDoneSince(l2, |l1|) && AllConfirmedIn(l2, |l1|, ChangedIds(wave)) {
      WaveMutations(l2, |l0|, wave, deadline);
      WaveConfirmed(l2, |l0|, |l1|, Elements(ChangedIds(wave)));
      IssuedSettled(l1, l2, |l0|, wave);
    }
  }

  lemma {:induction false} CancelsLaterSum(l0: seq<Event>, l1: seq<Event>, l2: seq<Event>)
    requires l0 <= l1 <= l2 && CancelsLate(l1, |l0|) && CancelsLate(l2, |l1|)
    ensures CancelsLate(l2, |l0|)
  {
    CancelsSum(l1, l2, |l0|);
  }

  lemma {:induction false} IssuedSettled(l1: seq<Event>, l2: seq<Event>, n: nat, wave: seq<Command>)
    requires l1 <= l2 && n <= |l1| && AllChange(wave) && AllIssued(l1, n, wave) && AllConfirmedIn(l2, |l1|, ChangedIds(wave))
    ensures forall i :: 0 <= i < |wave| ==> Settled(l2, n, |l2|, wave[i])
  {
    forall i | 0 <= i < |wave|
      ensures Settled(l2, n, |l2|, wave[i])
    {
      var d :| n <= d < |l1| && l1[d].command == wave[i] && l1[d].outcome.Done?;
      assert ChangedIds(wave)[i] in ChangedIds(wave);
      var m :| |l1| <= m < |l2| && Confirms(l2[m]) && WorkloadOf(l2[m]) == wave[i].id;
      assert l2[d] == l1[d];
      assert DoneIn(l2, n, m, wave[i]);
    }
  }

  lemma {:induction false} LastWave<T>(items: seq<T>, size: nat, k: nat)
    requires size >= 1 && k < |BoundedWaves(items, size)|
    ensures k * size + |BoundedWaves(items, size)[k]| == (if (k + 1) * size < |items| then (k + 1) * size else |items|)
    ensures k == |BoundedWaves(items, size)| - 1 <==> (k + 1) * size >= |items|
    decreases |items|
  {
    WavePosition(items, size, k);
    assert (k + 1) * size == k * size + size;
    if k > 0 {
      LastWave(items[size..], size, k - 1);
      assert k * size == (k - 1) * size + size;
    }
  }

  /** How many items the first k waves hold. */
  function WaveStart<T>(items: seq<T>, k: nat): (n: nat)
    ensures n <= |items|
  {
    if k * MAX_WORKERS < |items| then k * MAX_WORKERS else |items|
  }

  lemma {:induction false} WaveAt<T>(items: seq<T>, k: nat)
    requires k < |BoundedWaves(items, MAX_WORKERS)|
    ensures var first, wave := WaveStart(items, k), BoundedWaves(items, MAX_WORKERS)[k];
            && first % MAX_WORKERS == 0
            && 1 <= |wave| <= MAX_WORKERS
            && first + |wave| == WaveStart(items, k + 1)
            && wave == items[first..first + |wave|]
  {
    WaveSizes(items, MAX_WORKERS, k);
    WavePosition(items, MAX_WORKERS, k);
    LastWave(items, MAX_WORKERS, k);
  }

  lemma {:induction false} AllWaves<T>(items: seq<T>)
    ensures WaveStart(items, |BoundedWaves(items, MAX_WORKERS)|) == |items|
  {
    if items != [] {
      LastWave(items, MAX_WORKERS, |BoundedWaves(items, MAX_WORKERS)| - 1);
    }
  }

  // ---- reconciling existing workloads ----

  /** Every patched workload has a status command of its own. */
  predicate StatusesKnown(patches: seq<Patch>, statuses: set<Workload>) {
    forall patch :: patch in patches ==> Workload(patch.namespace, patch.resource) in statuses
  }

  /** One wave: a look at the clock, the patches, then the statuses of the same workloads. */
  method ReconcileWave(w: World, wave: seq<Patch>, statuses: set<Workload>, deadline: real) returns (ok: bool)
    requires w.Valid() && NoDuplicates(PatchIds(wave))
    modifies w
    ensures w.Valid() && old(w.log) <= w.log && old(w.history) <= w.history
    ensures OnlyWaves(w.log, |old(w.log)|, PatchCommands(wave), deadline) && CancelsLate(w.log, |old(w.log)|)
    ensures ok ==> AllConfirmed(w.log, |old(w.log)|, PatchCommands(wave), |wave|) && PatchesApplied(old(w.cluster), wave, w.cluster)
    ensures UndisturbedSince(w.log, |old(w.log)|) && PatchesPresent(wave, old(w.cluster)) && StatusesKnown(wave, statuses)
            ==> ok
  {
    var inTime := w.RequireDeadline(deadline);
    if !inTime {
      return false;
    }
    ghost var log0 := w.log;
    var applied := ApplySpecWave(w, wave, deadline);
    ghost var log1, cluster1 := w.log, w.cluster;
    if !applied || !StatusesKnown(wave, statuses) {
      return false;
    }
    ok := WaitForRolloutStatuses(w, PatchIds(wave), deadline);
    assert ChangedIds(PatchCommands(wave)) == PatchIds(wave);
    ChangesThenStatuses(log0, log1, w.log, PatchCommands(wave), deadline);
  }

  /** Where a reconciliation stands after its first `done` patches: all applied, nothing failed or unconfirmed. */
  ghost predicate Reconciled(log: seq<Event>, n: nat, patches: seq<Patch>, deadline: real, s: State, done: nat, t: State)
    requires n <= |log| && done <= |patches|
  {
    && WavesKept(log, n, PatchCommands(patches), deadline) && AllConfirmed(log, n, PatchCommands(patches), done)
    && PatchesApplied(s, patches[..done], t)
  }

  lemma {:induction false} ReconciledFurther(
    before: seq<Event>, after: seq<Event>, n: nat, patches: seq<Patch>, deadline: real, s: State, done: nat, next: nat, wave: seq<Patch>,
    t: State, u: State)
    requires n <= |before| && before <= after && NoDuplicates(PatchIds(patches))
    requires next == done + |wave| <= |patches| && wave == patches[done..done + |wave|] && done % MAX_WORKERS == 0 && 1 <= |wave| <= MAX_WORKERS
    requires Reconciled(before, n, patches, deadline, s, done, t)
    requires OnlyWaves(after, |before|, PatchCommands(wave), deadline) && CancelsLate(after, |before|)
    ensures WavesKept(after, n, PatchCommands(patches), deadline)
    ensures UndisturbedSince(after, n) ==> UndisturbedSince(after, |before|)
    ensures AllConfirmed(after, |before|, PatchCommands(wave), |wave|) && PatchesApplied(t, wave, u) ==>
              Reconciled(after, n, patches, deadline, s, next, u)
  {
    WavePatches(patches, wave, done);
    WavesKeptFurther(before, after, n, PatchCommands(patches), deadline, done, next, PatchCommands(wave));
    if PatchesApplied(t, wave, u) {
      AppliedFurther(s, t, u, patches, done, next);
    }
  }

  lemma {:induction false} StillPresent(patches: seq<Patch>, applied: seq<Patch>, s: State, t: State)
    requires PatchesApplied(s, applied, t)
    ensures PatchesPresent(patches, s) ==> PatchesPresent(patches, t)
  {
  }

  lemma {:induction false} NothingReconciled(log: seq<Event>, patches: seq<Patch>, deadline: real, s: State)
    ensures Reconciled(log, |log|, patches, deadline, s, 0, s)
  {
    assert PatchIds(patches[..0]) == [];
  }

  lemma {:induction false} AllReconciled(log: seq<Event>, n: nat, patches: seq<Patch>, deadline: real, s: State, t: State)
    requires n <= |log| && Reconciled(log, n, patches, deadline, s, |patches|, t)
    ensures WavesKept(log, n, PatchCommands(patches), deadline)
    ensures AllConfirmed(log, n, PatchCommands(patches), |patches|) && PatchesApplied(s, patches, t)
  {
    assert patches[..|patches|] == patches;
  }

  /** One round of the loop over the waves. */
  method NextReconcileWave(
    w: World, patches: seq<Patch>, ghost first: nat, ghost next: nat, wave: seq<Patch>, statuses: set<Workload>, deadline: real,
    ghost n: nat, ghost start: State)
    returns (ok: bool)
    requires w.Valid() && NoDuplicates(PatchIds(patches)) && n <= |w.log|
    requires next == first + |wave| <= |patches| && wave == patches[first..first + |wave|] && first % MAX_WORKERS == 0 && 1 <= |wave| <= MAX_WORKERS
    requires Reconciled(w.log, n, patches, deadline, start, first, w.cluster)
    modifies w
    ensures w.Valid() && old(w.log) <= w.log && old(w.history) <= w.history
    ensures !ok ==> WavesKept(w.log, n, PatchCommands(patches), deadline)
    ensures ok ==> Reconciled(w.log, n, patches, deadline, start, next, w.cluster)
    ensures UndisturbedSince(w.log, n) && PatchesPresent(patches, start) && StatusesKnown(patches, statuses) ==> ok
  {
    ghost var before, earlier := w.log, w.cluster;
    WavePatches(patches, wave, first);
    StillPresent(patches, patches[..first], start, w.cluster);
    ok := ReconcileWave(w, wave, statuses, deadline);
    ReconciledFurther(before, w.log, n, patches, deadline, start, first, next, wave, earlier, w.cluster);
  }

  method ReconcileWaveAt(
    w: World, patches: seq<Patch>, waves: seq<seq<Patch>>, i: nat, statuses: set<Workload>, deadline: real, ghost n: nat, ghost start: State)
    returns (ok: bool)
    requires w.Valid() && NoDuplicates(PatchIds(patches)) && n <= |w.log| && waves == BoundedWaves(patches, MAX_WORKERS) && i < |waves|
    requires Reconciled(w.log, n, patches, deadline, start, WaveStart(patches, i), w.cluster)
    modifies w
    ensures w.Valid() && old(w.log) <= w.log && old(w.history) <= w.history
    ensures !ok ==> WavesKept(w.log, n, PatchCommands(patches), deadline)
    ensures ok ==> Reconciled(w.log, n, patches, deadline, start, WaveStart(patches, i + 1), w.cluster)
    ensures UndisturbedSince(w.log, n) && PatchesPresent(patches, start) && StatusesKnown(patches, statuses) ==> ok
  {
    WaveAt(patches, i);
    ok := NextReconcileWave(w, patches, WaveStart(patches, i), WaveStart(patches, i + 1), waves[i], statuses, deadline, n, start);
  }

  method ReconcileWaves(w: World, patches: seq<Patch>, statuses: set<Workload>, deadline: real) returns (ok: bool)
    requires w.Valid() && NoDuplicates(PatchIds(patches))
    modifies w
    ensures w.Valid() && old(w.log) <= w.log && old(w.history) <= w.history
    ensures WavesKept(w.log, |old(w.log)|, PatchCommands(patches), deadline)
    ensures ok ==> AllConfirmed(w.log, |old(w.log)|, PatchCommands(patches), |patches|) && PatchesApplied(old(w.cluster), patches, w.cluster)
    ensures UndisturbedSince(w.log, |old(w.log)|) && PatchesPresent(patches, old(w.cluster)) && StatusesKnown(patches, statuses)
            ==> ok
  {
    ghost var n, start := |w.log|, w.cluster;
    var waves := BoundedWaves(patches, MAX_WORKERS);
    NothingReconciled(w.log, patches, deadline, start);
    for i := 0 to |waves|
      invariant w.Valid() && old(w.log) <= w.log && old(w.history) <= w.history
      invariant Reconciled(w.log, n, patches, deadline, start, WaveStart(patches, i), w.cluster)
    {
      var reconciled := ReconcileWaveAt(w, patches, waves, i, statuses, deadline, n, start);
      if !reconciled {
        return false;
      }
    }
    AllWaves(patches);
    AllReconciled(w.log, n, patches, deadline, start, w.cluster);
    return true;
  }

  /** The wave is the stretch of the list that starts where the waves before it ended. */
  lemma {:induction false} WavePatches(patches: seq<Patch>, wave: seq<Patch>, done: nat)
    requires done + |wave| <= |patches| && wave == patches[done..done + |wave|]
    requires NoDuplicates(PatchIds(patches))
    ensures NoDuplicates(PatchIds(wave))
    ensures forall patch :: patch in wave ==> patch in patches
    ensures PatchCommands(wave) == PatchCommands(patches)[done..done + |wave|]
    ensures forall id :: id in PatchIds(wave) ==> id in PatchIds(patches)
  {
    assert PatchIds(wave) == PatchIds(patches)[done..done + |wave|];
    forall i, j | 0 <= i < j < |wave|
      ensures PatchIds(wave)[i] != PatchIds(wave)[j]
    {
      assert PatchIds(patches)[done + i] != PatchIds(patches)[done + j];
    }
  }

  lemma {:induction false} AppliedFurther(s: State, t: State, u: State, patches: seq<Patch>, done: nat, next: nat)
    requires done <= next <= |patches| && NoDuplicates(PatchIds(patches))
    requires PatchesApplied(s, patches[..done], t) && PatchesApplied(t, patches[done..next], u)
    ensures PatchesApplied(s, patches[..next], u)
  {
    var first, second, all := patches[..done], patches[done..next], patches[..next];
    assert PatchIds(all) == PatchIds(first) + PatchIds(second);
    forall i | 0 <= i < |all|
      ensures Holding(u, all[i])
    {
      if i < done {
        assert all[i] == first[i];
        forall j | 0 <= j < next - done ensures PatchIds(second)[j] != PatchId(first[i]) {
          assert PatchIds(patches)[i] != PatchIds(patches)[done + j];
        }
      } else {
        assert all[i] == second[i - done];
      }
    }
  }

  // ---- the patches as one sequence of commands ----

  lemma {:induction false} PatchesRun(s: State, patches: seq<Patch>)
    requires NoDuplicates(PatchIds(patches)) && PatchesPresent(patches, s)
    ensures AllAccepted(s, PatchCommands(patches)) && PatchesApplied(s, patches, RunAll(s, PatchCommands(patches)))
  {
    if patches != [] {
      var k := |patches| - 1;
      var init, last, commands := patches[..k], patches[k], PatchCommands(patches);
      assert PatchIds(init) == PatchIds(patches)[..k] && commands == PatchCommands(init) + [commands[k]];
      PatchesRun(s, init);
      var t := RunAll(s, PatchCommands(init));
      assert [commands[k]][1..] == [] && last in patches;
      RunAllSum(s, PatchCommands(init), [commands[k]]);
      assert RunAll(t, [commands[k]]) == Effect(t, commands[k]);
      assert forall i :: 0 <= i < k ==> patches[i] == init[i] && PatchIds(patches)[i] != PatchIds(patches)[k];
    }
  }

  /** Applied in any order, the patches of a list leave what they leave one after the other. */
  lemma {:induction false} AppliedIsRun(s: State, patches: seq<Patch>, t: State)
    requires NoDuplicates(PatchIds(patches)) && PatchesApplied(s, patches, t)
    ensures AllAccepted(s, PatchCommands(patches)) && t == RunAll(s, PatchCommands(patches))
  {
    forall patch | patch in patches
      ensures PatchId(patch) in s
    {
      var i :| 0 <= i < |patches| && patches[i] == patch;
      assert Holding(t, patches[i]);
    }
    PatchesRun(s, patches);
    var r := RunAll(s, PatchCommands(patches));
    forall id | id in s
      ensures r[id] == t[id]
    {
      if id in PatchIds(patches) {
        var i :| 0 <= i < |patches| && PatchIds(patches)[i] == id;
        assert Holding(t, patches[i]) && Holding(r, patches[i]);
      }
    }
  }
}
