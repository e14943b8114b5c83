/** The other way to roll out: setting the image of one container at a time, in waves of at most eight. */
module ImageWaves {
  import opened Basics
  import opened JsonTrees
  import opened Clusters
  import opened Plans
  import opened Waves
  import opened WaveOrder
  import opened RolloutWaves

  /** One container of one workload. */
  datatype Slot = Slot(id: Id, container: string)

  /** `rollout_targets`: the targets, then the bootstraps. */
  function RolloutSlots(p: Plan): (r: seq<Slot>)
    ensures |r| == |p.targets| + |p.bootstrapTargets|
    ensures forall i :: 0 <= i < |p.targets| ==> r[i] == TargetSlot(p.targets[i])
    ensures forall i :: 0 <= i < |p.bootstrapTargets| ==> r[|p.targets| + i] == BootstrapSlot(p.bootstrapTargets[i])
  {
    seq(|p.targets|, i requires 0 <= i < |p.targets| => TargetSlot(p.targets[i]))
    + seq(|p.bootstrapTargets|, i requires 0 <= i < |p.bootstrapTargets| => BootstrapSlot(p.bootstrapTargets[i]))
  }

  function TargetSlot(t: RollbackTarget): Slot {
    Slot(Id(t.namespace, NameOf(t.resource)), t.container)
  }

  function BootstrapSlot(t: BootstrapTarget): Slot {
    Slot(Id(t.namespace, NameOf(t.resource)), t.container)
  }

  function SetImageOf(slot: Slot, image: string): Command {
    SetImages(slot.id, map[slot.container := image])
  }

  function ImageCommandsFor(slots: seq<Slot>, image: string): (r: seq<Command>)
    ensures |r| == |slots| && forall i :: 0 <= i < |r| ==> r[i] == SetImageOf(slots[i], image)
  {
    seq(|slots|, i requires 0 <= i < |slots| => SetImageOf(slots[i], image))
  }

  function SlotIds(slots: seq<Slot>): (r: seq<Id>)
    ensures |r| == |slots| && forall i :: 0 <= i < |r| ==> r[i] == slots[i].id
  {
    seq(|slots|, i requires 0 <= i < |slots| => slots[i].id)
  }

  /** All the commands took effect, one after the other. */
  ghost predicate Performed(s: State, commands: seq<Command>, t: State) {
    AllAccepted(s, commands) && t == RunAll(s, commands)
  }

  lemma {:induction false} PerformedSnoc(s: State, commands: seq<Command>, t: State, command: Command)
    requires Performed(s, commands, t)
    ensures Accepts(t, command) ==> Performed(s, commands + [command], Effect(t, command))
    ensures AllAccepted(s, commands + [command]) ==> Accepts(t, command)
  {
    assert [command][1..] == [];
    if Accepts(t, command) {
      RunAllSum(s, commands, [command]);
      assert RunAll(t, [command]) == Effect(t, command);
    }
    if AllAccepted(s, commands + [command]) {
      AcceptedPrefix(s, commands, [command]);
    }
  }

  /** Images are set one after the other; the first failure stops. */
  method SetWaveImages(w: World, wave: seq<Slot>, image: string, deadline: real) returns (ok: bool)
    requires w.Valid()
    modifies w
    ensures w.Valid() && old(w.log) <= w.log && old(w.history) <= w.history
    ensures OnlyCommands(w.log, |old(w.log)|, ImageCommandsFor(wave, image), deadline) && NoneCancelled(w.log, |old(w.log)|)
    ensures ok ==> AllDoneSince(w.log, |old(w.log)|) && Performed(old(w.cluster), ImageCommandsFor(wave, image), w.cluster)
    ensures ok ==> AllIssued(w.log, |old(w.log)|, ImageCommandsFor(wave, image))
    ensures UndisturbedSince(w.log, |old(w.log)|) && AllAccepted(old(w.cluster), ImageCommandsFor(wave, image)) ==> ok
  {
    ghost var n, start, commands := |w.log|, w.cluster, ImageCommandsFor(wave, image);
    for i := 0 to |wave|
      invariant w.Valid() && old(w.log) <= w.log && old(w.history) <= w.history
      invariant OnlyCommands(w.log, n, commands, deadline) && AllDoneSince(w.log, n)
      invariant AllIssued(w.log, n, commands[..i])
      invariant Performed(start, commands[..i], w.cluster)
    {
      ghost var before, earlier := w.log, w.cluster;
      var outcome := w.RunWithDeadline(SetImageOf(wave[i], image), Some(deadline));
      assert IsStep(w.history, w.log, |before|);
      assert commands[i] in commands && commands[..i + 1] == commands[..i] + [commands[i]];
      OnlyCommandsStep(before, w.log, n, commands, deadline);
      PerformedSnoc(start, commands[..i], earlier, commands[i]);
      if !outcome.Done? {
        assert commands == commands[..i + 1] + commands[i + 1..];
        if AllAccepted(start, commands) {
          AcceptedPrefix(start, commands[..i + 1], commands[i + 1..]);
        }
        return false;
      }
      IssuedSnoc(before, w.log, n, commands[..i], commands[i]);
    }
    assert commands[..|wave|] == commands;
    return true;
  }

  lemma {:induction false} IssuedSnoc(before: seq<Event>, after: seq<Event>, n: nat, commands: seq<Command>, command: Command)
    requires n <= |before| && before <= after && |after| == |before| + 1
    requires after[|before|].command == command && after[|before|].outcome.Done? && AllIssued(before, n, commands)
    ensures AllIssued(after, n, commands + [command])
  {
    forall i | 0 <= i < |commands|
      ensures DoneIn(after, n, |after|, commands[i])
    {
      IssuedLater(before, after, n, commands[i]);
    }
  }

  lemma {:induction false} ChangesKeepWorkloads(s: State, commands: seq<Command>)
    requires AllChange(commands) && AllAccepted(s, commands)
    ensures RunAll(s, commands).Keys == s.Keys
    ensures forall i :: 0 <= i < |commands| ==> commands[i].id in s
    decreases |commands|
  {
    if commands != [] {
      var rest := commands[1..];
      ChangesKeepWorkloads(Effect(s, commands[0]), rest);
      assert forall i :: 0 < i < |commands| ==> commands[i] == rest[i - 1];
    }
  }

  method SetImageWave(w: World, wave: seq<Slot>, image: string, deadline: real) returns (ok: bool)
    requires w.Valid()
    modifies w
    ensures w.Valid() && old(w.log) <= w.log && old(w.history) <= w.history
    ensures OnlyWaves(w.log, |old(w.log)|, ImageCommandsFor(wave, image), deadline) && CancelsLate(w.log, |old(w.log)|)
    ensures ok ==> AllConfirmed(w.log, |old(w.log)|, ImageCommandsFor(wave, image), |wave|)
    ensures ok ==> Performed(old(w.cluster), ImageCommandsFor(wave, image), w.cluster)
    ensures UndisturbedSince(w.log, |old(w.log)|) && AllAccepted(old(w.cluster), ImageCommandsFor(wave, image)) ==> ok
  {
    var inTime := w.RequireDeadline(deadline);
    if !inTime {
      return false;
    }
    ghost var log0, commands := w.log, ImageCommandsFor(wave, image);
    var set_ := SetWaveImages(w, wave, image, deadline);
    ghost var log1 := w.log;
    if !set_ {
      return false;
    }
    ChangesKeepWorkloads(old(w.cluster), commands);
    ok := WaitForRolloutStatuses(w, SlotIds(wave), deadline);
    assert ChangedIds(commands) == SlotIds(wave);
    ChangesThenStatuses(log0, log1, w.log, commands, deadline);
  }

  /** Where setting images stands after the first `done` slots. */
  ghost predicate ImagesSet(log: seq<Event>, n: nat, slots: seq<Slot>, image: string, deadline: real, s: State, done: nat, t: State)
    requires n <= |log| && done <= |slots|
  {
    && WavesKept(log, n, ImageCommandsFor(slots, image), deadline) && AllConfirmed(log, n, ImageCommandsFor(slots, image), done)
    && Performed(s, ImageCommandsFor(slots[..done], image), t)
  }

  /** The commands of a stretch of the slots, between those before it and those after it. */
  lemma {:induction false} CommandsSplit(slots: seq<Slot>, image: string, done: nat, size: nat)
    requires done + size <= |slots|
    ensures ImageCommandsFor(slots[done..done + size], image) == ImageCommandsFor(slots, image)[done..done + size]
    ensures ImageCommandsFor(slots[..done + size], image)
            == ImageCommandsFor(slots[..done], image) + ImageCommandsFor(slots[done..done + size], image)
    ensures ImageCommandsFor(slots, image)
            == ImageCommandsFor(slots[..done], image)
               + (ImageCommandsFor(slots[done..done + size], image) + ImageCommandsFor(slots[done + size..], image))
  {
  }

  lemma {:induction false} PerformedFurther(s: State, first: seq<Command>, wave: seq<Command>, rest: seq<Command>, t: State, u: State)
    requires Performed(s, first, t)
    ensures AllAccepted(s, first + (wave + rest)) ==> AllAccepted(t, wave)
    ensures Performed(t, wave, u) ==> Performed(s, first + wave, u)
  {
    if AllAccepted(s, first + (wave + rest)) {
      AcceptedPrefix(s, first, wave + rest);
      AcceptedPrefix(t, wave, rest);
    }
    if Performed(t, wave, u) {
      RunAllSum(s, first, wave);
    }
  }

  lemma {:induction false} ImagesSetFurther(
    before: seq<Event>, after: seq<Event>, n: nat, slots: seq<Slot>, image: string, deadline: real, s: State,
    done: nat, next: nat, wave: seq<Slot>, t: State, u: State)
    requires n <= |before| && before <= after && next == done + |wave|
    requires next <= |slots| && wave == slots[done..done + |wave|] && done % MAX_WORKERS == 0 && 1 <= |wave| <= MAX_WORKERS
    requires ImagesSet(before, n, slots, image, deadline, s, done, t)
    requires OnlyWaves(after, |before|, ImageCommandsFor(wave, image), deadline) && CancelsLate(after, |before|)
    ensures WavesKept(after, n, ImageCommandsFor(slots, image), deadline)
    ensures UndisturbedSince(after, n) ==> UndisturbedSince(after, |before|)
    ensures AllAccepted(s, ImageCommandsFor(slots, image)) ==> AllAccepted(t, ImageCommandsFor(wave, image))
    ensures AllConfirmed(after, |before|, ImageCommandsFor(wave, image), |wave|) && Performed(t, ImageCommandsFor(wave, image), u) ==>
              ImagesSet(after, n, slots, image, deadline, s, next, u)
  {
    CommandsSplit(slots, image, done, |wave|);
    WavesKeptFurther(before, after, n, ImageCommandsFor(slots, image), deadline, done, next, ImageCommandsFor(wave, image));
    WavePerformed(slots, image, s, done, next, wave, t, u);
  }

  lemma {:induction false} WavePerformed(slots: seq<Slot>, image: string, s: State, done: nat, next: nat, wave: seq<Slot>, t: State, u: State)
    requires next == done + |wave| <= |slots| && wave == slots[done..done + |wave|]
    requires Performed(s, ImageCommandsFor(slots[..done], image), t)
    ensures AllAccepted(s, ImageCommandsFor(slots, image)) ==> AllAccepted(t, ImageCommandsFor(wave, image))
    ensures Performed(t, ImageCommandsFor(wave, image), u) ==> Performed(s, ImageCommandsFor(slots[..next], image), u)
  {
    CommandsSplit(slots, image, done, |wave|);
    PerformedFurther(s, ImageCommandsFor(slots[..done], image), ImageCommandsFor(wave, image),
                     ImageCommandsFor(slots[done + |wave|..], image), t, u);
  }

  /** One round of the loop over the waves. */
  method NextImageWave(
    w: World, slots: seq<Slot>, ghost first: nat, ghost next: nat, wave: seq<Slot>, image: string, deadline: real, ghost n: nat, ghost start: State)
    returns (ok: bool)
    requires w.Valid() && n <= |w.log| && next == first + |wave|
    requires next <= |slots| && wave == slots[first..first + |wave|] && first % MAX_WORKERS == 0 && 1 <= |wave| <= MAX_WORKERS
    requires ImagesSet(w.log, n, slots, image, deadline, start, first, w.cluster)
    modifies w
    ensures w.Valid() && old(w.log) <= w.log && old(w.history) <= w.history
    ensures !ok ==> WavesKept(w.log, n, ImageCommandsFor(slots, image), deadline)
    ensures ok ==> ImagesSet(w.log, n, slots, image, deadline, start, next, w.cluster)
    ensures UndisturbedSince(w.log, n) && AllAccepted(start, ImageCommandsFor(slots, image)) ==> ok
  {
    ghost var before, earlier := w.log, w.cluster;
    ok := SetImageWave(w, wave, image, deadline);
    ImagesSetFurther(before, w.log, n, slots, image, deadline, start, first, next, wave, earlier, w.cluster);
  }

  method ImageWaveAt(
    w: World, slots: seq<Slot>, waves: seq<seq<Slot>>, i: nat, image: string, deadline: real, ghost n: nat, ghost start: State)
    returns (ok: bool)
    requires w.Valid() && n <= |w.log| && waves == BoundedWaves(slots, MAX_WORKERS) && i < |waves|
    requires ImagesSet(w.log, n, slots, image, deadline, start, WaveStart(slots, i), w.cluster)
    modifies w
    ensures w.Valid() && old(w.log) <= w.log && old(w.history) <= w.history
    ensures !ok ==> WavesKept(w.log, n, ImageCommandsFor(slots, image), deadline)
    ensures ok ==> ImagesSet(w.log, n, slots, image, deadline, start, WaveStart(slots, i + 1), w.cluster)
    ensures UndisturbedSince(w.log, n) && AllAccepted(start, ImageCommandsFor(slots, image)) ==> ok
  {
    WaveAt(slots, i);
    ok := NextImageWave(w, slots, WaveStart(slots, i), WaveStart(slots, i + 1), waves[i], image, deadline, n, start);
  }

  method SetImageWaves(w: World, slots: seq<Slot>, image: string, deadline: real) returns (ok: bool)
    requires w.Valid()
    modifies w
    ensures w.Valid() && old(w.log) <= w.log && old(w.history) <= w.history
    ensures WavesKept(w.log, |old(w.log)|, ImageCommandsFor(slots, image), deadline)
    ensures ok ==> AllConfirmed(w.log, |old(w.log)|, ImageCommandsFor(slots, image), |slots|)
    ensures ok ==> Performed(old(w.cluster), ImageCommandsFor(slots, image), w.cluster)
    ensures UndisturbedSince(w.log, |old(w.log)|) && AllAccepted(old(w.cluster), ImageCommandsFor(slots, image)) ==> ok
  {
    ghost var n, start := |w.log|, w.cluster;
    var waves := BoundedWaves(slots, MAX_WORKERS);
    NothingSet(w.log, slots, image, deadline, start);
    for i := 0 to |waves|
      invariant w.Valid() && old(w.log) <= w.log && old(w.history) <= w.history
      invariant ImagesSet(w.log, n, slots, image, deadline, start, WaveStart(slots, i), w.cluster)
    {
      var set_ := ImageWaveAt(w, slots, waves, i, image, deadline, n, start);
      if !set_ {
        return false;
      }
    }
    AllWaves(slots);
    AllSet(w.log, n, slots, image, deadline, start, w.cluster);
    return true;
  }

  lemma {:induction false} NothingSet(log: seq<Event>, slots: seq<Slot>, image: string, deadline: real, s: State)
    ensures ImagesSet(log, |log|, slots, image, deadline, s, 0, s)
  {
  }

  lemma {:induction false} AllSet(log: seq<Event>, n: nat, slots: seq<Slot>, image: string, deadline: real, s: State, t: State)
    requires n <= |log| && ImagesSet(log, n, slots, image, deadline, s, |slots|, t)
    ensures WavesKept(log, n, ImageCommandsFor(slots, image), deadline)
    ensures AllConfirmed(log, n, ImageCommandsFor(slots, image), |slots|) && Performed(s, ImageCommandsFor(slots, image), t)
  {
    assert slots[..|slots|] == slots;
  }
}
