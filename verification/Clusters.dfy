/** The Deployments of one cluster, the `kubectl` commands the scripts issue, and runs of such commands. */
module Clusters {
  import opened Basics
  import opened JsonTrees

  datatype Id = Id(namespace: string, name: string)

  datatype Deployment = Deployment(strategy: Json, template: Json)

  type State = map<Id, Deployment>

  datatype Creation = Creation(id: Id, deployment: Deployment)

  datatype Command =
    | CheckContext
    | GetDeployments(namespace: string)
    | PatchSpec(id: Id, strategy: Json, template: Json)
    | SetImages(id: Id, images: map<string, string>)
    | Create(creations: seq<Creation>)
    | Delete(id: Id)
    | RolloutStatus(id: Id, seconds: int)
    | StartWave  // not a process: the look at the clock before a wave of mutations

  /** `Refused`: the API server rejected the command. `Faulted`: it failed or was cut off for any other
      reason, before or after taking effect. `Expired` and `Cancelled` commands were never started. */
  datatype Outcome = Done | Refused | Faulted | Expired | Cancelled {
    predicate Started() {
      Done? || Refused? || Faulted?
    }

    predicate Failed() {
      Refused? || Faulted? || Expired?
    }
  }

  datatype Event = Event(command: Command, start: real, limit: Option<real>, outcome: Outcome)

  /** What setting images does to one container. */
  function PinOne(container: Json, images: map<string, string>): (r: Json)
    ensures Get(r, "name") == Get(container, "name")
    ensures if container.JObject? then SameBut(container, r, "image") else r == container
  {
    var name := Get(container, "name");
    if container.JObject? && name.JString? && name.text in images
    then WithImage(container, images[name.text])
    else container
  }

  function Pin(containers: seq<Json>, images: map<string, string>): (r: seq<Json>)
    ensures |r| == |containers|
    ensures forall i :: 0 <= i < |r| ==> r[i] == PinOne(containers[i], images)
  {
    seq(|containers|, i requires 0 <= i < |containers| => PinOne(containers[i], images))
  }

  predicate HasContainer(containers: seq<Json>, name: string) {
    exists i :: 0 <= i < |containers| && containers[i].JObject? && Get(containers[i], "name") == JString(name)
  }

  function CreateAll(s: State, creations: seq<Creation>): State
    decreases |creations|
  {
    if creations == [] then s
    else CreateAll(s[creations[0].id := creations[0].deployment], creations[1..])
  }

  ghost predicate PartiallyCreated(s: State, creations: seq<Creation>, t: State) {
    && (forall id :: id in s ==> id in t && t[id] == s[id])
    && (forall id :: id in t && id !in s ==> Creation(id, t[id]) in creations)
  }

  predicate Accepts(s: State, command: Command) {
    match command
    case CheckContext => true
    case GetDeployments(_) => true
    case PatchSpec(id, _, _) => id in s
    case SetImages(id, images) =>
      && id in s
      && Containers(s[id].template).Some?
      && forall name :: name in images ==> HasContainer(Containers(s[id].template).value, name)
    case Create(creations) =>
      && (forall i :: 0 <= i < |creations| ==> creations[i].id !in s)
      && (forall i, j :: 0 <= i < j < |creations| ==> creations[i].id != creations[j].id)
    case Delete(_) => true  // --ignore-not-found
    case RolloutStatus(id, _) => id in s
    case StartWave => true
  }

  function PinTemplate(template: Json, images: map<string, string>): Json
    requires Containers(template).Some?
  {
    WithContainers(template, Pin(Containers(template).value, images))
  }

  function Effect(s: State, command: Command): State
    requires Accepts(s, command)
  {
    match command
    case PatchSpec(id, strategy, template) => s[id := Deployment(strategy, template)]
    case SetImages(id, images) => s[id := Deployment(s[id].strategy, PinTemplate(s[id].template, images))]
    case Create(creations) => CreateAll(s, creations)
    case Delete(id) => s - {id}
    case _ => s
  }

  /** `t` may be the cluster after `e` was recorded against cluster `s`. */
  ghost predicate Follows(s: State, e: Event, t: State) {
    match e.outcome
    case Done => Accepts(s, e.command) && t == Effect(s, e.command)
    case Refused => !Accepts(s, e.command) && (t == s || (e.command.Create? && PartiallyCreated(s, e.command.creations, t)))
    case Faulted =>
      || t == s
      || (Accepts(s, e.command) && t == Effect(s, e.command))
      || (e.command.Create? && PartiallyCreated(s, e.command.creations, t))
    case Expired => t == s
    case Cancelled => t == s
  }

  /** A run: `history[k]` is the cluster before the k-th recorded command, `history[|log|]` the last one. */
  ghost predicate IsRun(history: seq<State>, log: seq<Event>) {
    && |history| == |log| + 1
    && forall k :: 0 <= k < |log| ==> IsStep(history, log, k)
  }

  ghost predicate IsStep(history: seq<State>, log: seq<Event>, k: nat)
    requires k < |log| && |history| == |log| + 1
  {
    Follows(history[k], log[k], history[k + 1])
  }

  lemma {:induction false} RunExtended(history: seq<State>, log: seq<Event>, e: Event, after: State)
    requires IsRun(history, log) && Follows(history[|log|], e, after)
    ensures IsRun(history + [after], log + [e])
  {
    var h, l := history + [after], log + [e];
    forall k | 0 <= k < |l|
      ensures IsStep(h, l, k)
    {
      if k < |log| {
        assert IsStep(history, log, k);
      }
    }
  }

  /** No command failed but by the cluster's own rules, and none found its deadline past. */
  predicate Undisturbed(log: seq<Event>) {
    UndisturbedSince(log, 0)
  }

  predicate UndisturbedSince(log: seq<Event>, n: nat) {
    forall k :: n <= k < |log| ==> !log[k].outcome.Faulted? && !log[k].outcome.Expired?
  }

  predicate FaultlessSince(log: seq<Event>, n: nat) {
    forall k :: n <= k < |log| ==> !log[k].outcome.Faulted?
  }

  predicate NoneCancelled(log: seq<Event>, n: nat) {
    forall k :: n <= k < |log| ==> !log[k].outcome.Cancelled?
  }

  predicate StartedSince(log: seq<Event>, n: nat) {
    forall k :: n <= k < |log| ==> log[k].outcome.Started()
  }

  predicate AllDoneSince(log: seq<Event>, n: nat) {
    forall k :: n <= k < |log| ==> log[k].outcome.Done?
  }

  function MutationsSince(log: seq<Event>, n: nat): seq<Command>
    requires n <= |log|
  {
    Mutations(log[n..])
  }

  predicate IsMutation(command: Command) {
    command.PatchSpec? || command.SetImages? || command.Create? || command.Delete?
  }

  /** The mutating commands of a log that were started, in order. */
  function Mutations(log: seq<Event>): seq<Command> {
    if log == [] then []
    else Mutations(log[..|log| - 1]) + MutationOf(log[|log| - 1])
  }

  function MutationOf(e: Event): seq<Command> {
    if IsMutation(e.command) && e.outcome.Started() then [e.command] else []
  }

  lemma {:induction false} MutationsOfSum(a: seq<Event>, b: seq<Event>)
    ensures Mutations(a + b) == Mutations(a) + Mutations(b)
  {
    if b == [] {
      assert a + b == a;
    } else {
      var c := b[..|b| - 1];
      assert (a + b)[..|a + b| - 1] == a + c;
      MutationsOfSum(a, c);
    }
  }

  lemma {:induction false} NoMutations(log: seq<Event>)
    requires forall k :: 0 <= k < |log| ==> !IsMutation(log[k].command) || !log[k].outcome.Started()
    ensures Mutations(log) == []
  {
    if log != [] {
      NoMutations(log[..|log| - 1]);
    }
  }

  /** Every command of the list is accepted when its turn comes. */
  predicate AllAccepted(s: State, commands: seq<Command>)
    decreases |commands|
  {
    commands == [] || (Accepts(s, commands[0]) && AllAccepted(Effect(s, commands[0]), commands[1..]))
  }

  function RunAll(s: State, commands: seq<Command>): State
    requires AllAccepted(s, commands)
    decreases |commands|
  {
    if commands == [] then s else RunAll(Effect(s, commands[0]), commands[1..])
  }

  lemma {:induction false} RunAllSum(s: State, a: seq<Command>, b: seq<Command>)
    requires AllAccepted(s, a) && AllAccepted(RunAll(s, a), b)
    ensures AllAccepted(s, a + b) && RunAll(s, a + b) == RunAll(RunAll(s, a), b)
    decreases |a|
  {
    if a == [] {
      assert a + b == b;
    } else {
      assert (a + b)[0] == a[0] && (a + b)[1..] == a[1..] + b;
      RunAllSum(Effect(s, a[0]), a[1..], b);
    }
  }

  /** An undisturbed run whose mutations are all acceptable performs every one of them and nothing else. */
  lemma {:induction false} UndisturbedRunDoesAll(history: seq<State>, log: seq<Event>)
    requires IsRun(history, log) && Undisturbed(log)
    requires AllAccepted(history[0], Mutations(log))
    ensures history[|log|] == RunAll(history[0], Mutations(log))
    ensures forall k :: 0 <= k < |log| && IsMutation(log[k].command) && log[k].outcome.Started() ==> log[k].outcome.Done?
  {
    if log != [] {
      var n := |log| - 1;
      var h, l := history[..n + 1], log[..n];
      RunPrefix(history, log, n);
      AcceptedPrefix(history[0], Mutations(l), MutationOf(log[n]));
      UndisturbedRunDoesAll(h, l);
      assert h[n] == history[n];
      assert IsStep(history, log, n);
      UndisturbedStepDoesIt(history[n], log[n], history[n + 1]);
      RunAllSum(history[0], Mutations(l), MutationOf(log[n]));
      forall k | 0 <= k < |log| && IsMutation(log[k].command) && log[k].outcome.Started()
        ensures log[k].outcome.Done?
      {
        if k < n {
          assert l[k] == log[k];
        }
      }
    }
  }

  lemma {:induction false} RunPrefix(history: seq<State>, log: seq<Event>, n: nat)
    requires IsRun(history, log) && n <= |log|
    ensures IsRun(history[..n + 1], log[..n])
  {
    var h, l := history[..n + 1], log[..n];
    forall k | 0 <= k < n
      ensures IsStep(h, l, k)
    {
      assert IsStep(history, log, k);
    }
  }

  lemma {:induction false} RunSuffix(history: seq<State>, log: seq<Event>, n: nat)
    requires IsRun(history, log) && n <= |log|
    ensures IsRun(history[n..], log[n..])
  {
    var h, l := history[n..], log[n..];
    forall k | 0 <= k < |l|
      ensures IsStep(h, l, k)
    {
      assert IsStep(history, log, n + k);
    }
  }

  lemma {:induction false} UndisturbedStepDoesIt(s: State, e: Event, t: State)
    requires Follows(s, e, t)
    requires !e.outcome.Faulted? && !e.outcome.Expired?
    requires AllAccepted(s, MutationOf(e))
    ensures t == RunAll(s, MutationOf(e))
    ensures IsMutation(e.command) && e.outcome.Started() ==> e.outcome.Done?
  {
    if IsMutation(e.command) && e.outcome.Started() {
      assert MutationOf(e)[1..] == [];
      assert RunAll(s, MutationOf(e)) == Effect(s, e.command);
    }
  }

  lemma {:induction false} AcceptedPrefix(s: State, a: seq<Command>, b: seq<Command>)
    requires AllAccepted(s, a + b)
    ensures AllAccepted(s, a) && AllAccepted(RunAll(s, a), b)
    decreases |a|
  {
    if a == [] {
      assert a + b == b;
    } else {
      assert (a + b)[0] == a[0] && (a + b)[1..] == a[1..] + b;
      AcceptedPrefix(Effect(s, a[0]), a[1..], b);
    }
  }

  /** One entry of `kubectl get deployments`. */
  datatype Item = Item(name: string, spec: Deployment)

  /** A listing shows every Deployment of the namespace once, in any order. */
  ghost predicate IsListing(items: seq<Item>, s: State, namespace: string) {
    && (forall i, j :: 0 <= i < j < |items| ==> items[i].name != items[j].name)
    && (forall i :: 0 <= i < |items| ==>
          Id(namespace, items[i].name) in s && s[Id(namespace, items[i].name)] == items[i].spec)
    && (forall id :: id in s && id.namespace == namespace ==> Item(id.name, s[id]) in items)
  }

  /** The scripts' side of the cluster: they are its only writer, and every command they issue is recorded. */
  class World {
    var cluster: State
    var clock: real
    var log: seq<Event>
    ghost var history: seq<State>

    ghost predicate Valid()
      reads this
    {
      IsRun(history, log) && history[|log|] == cluster
    }

    constructor (cluster: State)
      ensures Valid() && this.cluster == cluster && log == [] && history == [cluster]
    {
      this.cluster := cluster;
      clock := 0.0;
      log := [];
      history := [cluster];
    }

    /** `time.monotonic()`: any amount of time may have passed. */
    method Now() returns (now: real)
      requires Valid()
      modifies this`clock
      ensures Valid() && old(clock) <= now == clock
    {
      now := *;
      if now < clock {
        now := clock;
      }
      clock := now;
    }

    method Record(e: Event, after: State)
      requires Valid() && Follows(cluster, e, after)
      modifies this`log, this`cluster, this`history
      ensures Valid() && cluster == after
      ensures log == old(log) + [e] && history == old(history) + [after]
    {
      RunExtended(history, log, e, after);
      log := log + [e];
      history := history + [after];
      cluster := after;
    }

    /** Starts one process; whether and how it fails is left open. */
    method Issue(command: Command, start: real, limit: Option<real>) returns (outcome: Outcome)
      requires Valid()
      modifies this`log, this`cluster, this`history
      ensures Valid() && outcome.Started()
      ensures log == old(log) + [Event(command, start, limit, outcome)]
      ensures history == old(history) + [cluster]
    {
      var fault: bool := *;
      var after := cluster;
      if !fault && Accepts(cluster, command) {
        outcome := Done;
        after := Effect(cluster, command);
      } else {
        outcome := if fault then Faulted else Refused;
        if command.Create? {
          after := CreateSome(cluster, command.creations);
        } else if fault && Accepts(cluster, command) {
          var late: bool := *;
          after := if late then Effect(cluster, command) else cluster;
        }
      }
      Record(Event(command, start, limit, outcome), after);
    }

    static method CreateSome(s: State, creations: seq<Creation>) returns (t: State)
      ensures PartiallyCreated(s, creations, t)
    {
      t := s;
      for i := 0 to |creations|
        invariant PartiallyCreated(s, creations, t)
      {
        var created: bool := *;
        if created && creations[i].id !in t {
          t := t[creations[i].id := creations[i].deployment];
        }
      }
    }

    /** `_run_with_deadline` of the rollout script; the rollback script starts most commands with no deadline. */
    method RunWithDeadline(command: Command, deadline: Option<real>) returns (outcome: Outcome)
      requires Valid() && !command.RolloutStatus?
      modifies this
      ensures Valid()
      ensures |log| == |old(log)| + 1 && log[..|old(log)|] == old(log)
      ensures log[|old(log)|].command == command && log[|old(log)|].outcome == outcome
      ensures old(clock) <= log[|old(log)|].start <= clock
      ensures history == old(history) + [cluster]
      ensures deadline.Some? ==> OnTime(log[|old(log)|], deadline.value)
      ensures outcome.Started() || (outcome.Expired? && deadline.Some?)
    {
      var now := Now();
      if deadline.None? {
        outcome := Issue(command, now, None);
      } else if deadline.value - now <= 0.0 {
        outcome := Expired;
        Record(Event(command, now, None, outcome), cluster);
      } else {
        outcome := Issue(command, now, Some(deadline.value - now));
      }
    }

    /** `_run_rollout_status`: the time left also becomes kubectl's own `--timeout`, in whole seconds. */
    method RunRolloutStatus(id: Id, deadline: real) returns (outcome: Outcome)
      requires Valid()
      modifies this
      ensures Valid()
      ensures |log| == |old(log)| + 1 && log[..|old(log)|] == old(log)
      ensures log[|old(log)|].outcome == outcome
      ensures log[|old(log)|].command.RolloutStatus? && log[|old(log)|].command.id == id
      ensures history == old(history) + [cluster] && cluster == old(cluster)
      ensures OnTime(log[|old(log)|], deadline)
      ensures outcome.Started() || outcome.Expired?
      ensures old(clock) <= log[|old(log)|].start <= clock
    {
      var now := Now();
      var remaining := deadline - now;
      if remaining <= 0.0 {
        outcome := Expired;
        Record(Event(RolloutStatus(id, 0), now, None, outcome), cluster);
      } else {
        var seconds := if Ceiling(remaining) > 1 then Ceiling(remaining) else 1;
        outcome := Issue(RolloutStatus(id, seconds), now, Some(remaining));
        assert IsStep(history, log, |log| - 1);
      }
    }

    /** `_require_rollout_deadline`: an expired deadline is recorded as a wave that was not started. */
    method RequireDeadline(deadline: real) returns (ok: bool)
      requires Valid()
      modifies this
      ensures Valid() && cluster == old(cluster) && old(log) <= log && old(history) <= history
      ensures old(clock) <= clock
      ensures ok ==> log == old(log) && clock < deadline
      ensures !ok ==>
                && |log| == |old(log)| + 1 && log[|old(log)|].command.StartWave?
                && log[|old(log)|].outcome.Expired? && log[|old(log)|].start >= deadline
    {
      var now := Now();
      ok := deadline - now > 0.0;
      if !ok {
        Record(Event(StartWave, now, None, Expired), cluster);
      }
    }

    /** A future that was cancelled before a worker picked it up. */
    method Cancel(command: Command)
      requires Valid()
      modifies this`log, this`cluster, this`history
      ensures Valid() && cluster == old(cluster)
      ensures |log| == |old(log)| + 1 && log[..|old(log)|] == old(log)
      ensures log[|old(log)|] == Event(command, clock, None, Cancelled)
      ensures history == old(history) + [cluster]
    {
      Record(Event(command, clock, None, Cancelled), cluster);
    }

    method GetDeployments(namespace: string, deadline: Option<real>) returns (r: Result<seq<Item>>)
      requires Valid()
      modifies this
      ensures Valid() && cluster == old(cluster)
      ensures |log| == |old(log)| + 1 && log[..|old(log)|] == old(log)
      ensures log[|old(log)|].command == Command.GetDeployments(namespace)
      ensures history == old(history) + [cluster]
      ensures deadline.Some? ==> OnTime(log[|old(log)|], deadline.value)
      ensures r.Ok? ==> IsListing(r.value, cluster, namespace)
      ensures r.Ok? <==> log[|old(log)|].outcome.Done?
      ensures !log[|old(log)|].outcome.Refused? && !log[|old(log)|].outcome.Cancelled?
      ensures deadline.None? ==> log[|old(log)|].outcome.Started()
      ensures old(clock) <= clock
    {
      var outcome := RunWithDeadline(Command.GetDeployments(namespace), deadline);
      assert IsStep(history, log, |log| - 1);
      if !outcome.Done? {
        return Err;
      }
      var items: seq<Item> := [];
      var pending := set id | id in cluster && id.namespace == namespace;
      while pending != {}
        invariant pending <= set id | id in cluster && id.namespace == namespace
        invariant forall i, j :: 0 <= i < j < |items| ==> items[i].name != items[j].name
        invariant forall i :: 0 <= i < |items| ==>
          && Id(namespace, items[i].name) in cluster
          && Id(namespace, items[i].name) !in pending
          && cluster[Id(namespace, items[i].name)] == items[i].spec
        invariant forall id :: id in cluster && id.namespace == namespace && id !in pending ==> Item(id.name, cluster[id]) in items
      {
        var id :| id in pending;
        items := items + [Item(id.name, cluster[id])];
        pending := pending - {id};
      }
      return Ok(items);
    }
  }

  function Ceiling(x: real): (n: int)
    ensures x <= n as real < x + 1.0
  {
    -((-x).Floor)
  }

  /** A started command has a process timeout that ends exactly at the deadline, and a status command tells kubectl
      to wait for the time left, rounded up to whole seconds. A command expires only once the deadline has passed. */
  predicate OnTime(e: Event, deadline: real) {
    && (e.outcome.Started() ==>
          && e.start < deadline
          && e.limit == Some(deadline - e.start)
          && (e.command.RolloutStatus? ==> deadline - e.start <= e.command.seconds as real < deadline - e.start + 1.0))
    && (e.outcome.Expired? ==> e.start >= deadline)
  }
}
