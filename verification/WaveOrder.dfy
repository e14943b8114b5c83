/** The order of a rollout's changes: nothing of a wave is started before everything of the waves before it is done. */
module WaveOrder {
  import opened Basics
  import opened Clusters
  import opened Waves

  predicate Changes(command: Command) {
    command.PatchSpec? || command.SetImages?
  }

  predicate AllChange(commands: seq<Command>) {
    forall i :: 0 <= i < |commands| ==> Changes(commands[i])
  }

  /** The workloads changed, in the order of the commands. */
  function ChangedIds(commands: seq<Command>): (r: seq<Id>)
    requires AllChange(commands)
    ensures |r| == |commands| && forall i :: 0 <= i < |r| ==> r[i] == commands[i].id
  {
    seq(|commands|, i requires 0 <= i < |commands| => commands[i].id)
  }

  // ---- changed, then confirmed ----

  predicate DoneIn(log: seq<Event>, n: nat, k: nat, command: Command)
    requires k <= |log|
  {
    exists m :: n <= m < k && log[m].command == command && log[m].outcome.Done?
  }

  /** The change took effect, and a status that was asked for afterwards reported its workload rolled out. */
  predicate Settled(log: seq<Event>, n: nat, k: nat, command: Command)
    requires k <= |log| && Changes(command)
  {
    exists m :: n <= m < k && Confirms(log[m]) && WorkloadOf(log[m]) == command.id && DoneIn(log, n, m, command)
  }

  predicate DoneUntil(log: seq<Event>, n: nat, k: nat)
    requires k <= |log|
  {
    forall m :: n <= m < k ==> log[m].outcome.Done?
  }

  /** The first changes are settled, and until then nothing has failed. */
  predicate FirstSettled(log: seq<Event>, n: nat, k: nat, commands: seq<Command>, count: nat)
    requires k <= |log| && AllChange(commands) && count <= |commands|
  {
    DoneUntil(log, n, k) && forall i :: 0 <= i < count ==> Settled(log, n, k, commands[i])
  }

  /** Where the wave of the j-th change begins in the list. */
  function WaveBegin(j: nat): (first: nat)
    ensures first <= j && first % MAX_WORKERS == 0 && j < first + MAX_WORKERS
  {
    j - j % MAX_WORKERS
  }

  /** The k-th command is the j-th change, and when its wave was begun every wave before it had been settled. */
  predicate InTurn(log: seq<Event>, n: nat, k: nat, commands: seq<Command>, j: nat)
    requires k < |log| && AllChange(commands) && j < |commands|
  {
    log[k].command == commands[j] && exists s :: n <= s <= k && FirstSettled(log, n, s, commands, WaveBegin(j))
  }

  /** Every change, started or not, comes in its turn. */
  ghost predicate InOrder(log: seq<Event>, n: nat, commands: seq<Command>)
    requires n <= |log| && AllChange(commands)
  {
    forall k :: n <= k < |log| && Changes(log[k].command) ==> HasTurn(log, n, k, commands)
  }

  predicate HasTurn(log: seq<Event>, n: nat, k: nat, commands: seq<Command>)
    requires k < |log| && AllChange(commands)
  {
    exists j :: 0 <= j < |commands| && InTurn(log, n, k, commands, j)
  }

  // ---- longer logs ----

  lemma {:induction false} SettledLater(a: seq<Event>, b: seq<Event>, n: nat, m: nat, k: nat, l: nat, command: Command)
    requires a <= b && n <= m && k <= |a| && k <= l <= |b| && Changes(command) && Settled(a, m, k, command)
    ensures Settled(b, n, l, command)
  {
    var i :| m <= i < k && Confirms(a[i]) && WorkloadOf(a[i]) == command.id && DoneIn(a, m, i, command);
    var d :| m <= d < i && a[d].command == command && a[d].outcome.Done?;
    assert b[i] == a[i] && b[d] == a[d];
    assert DoneIn(b, n, i, command);
  }

  lemma {:induction false} FirstSettledLater(a: seq<Event>, b: seq<Event>, n: nat, m: nat, k: nat, commands: seq<Command>, count: nat)
    requires a <= b && n <= m <= k <= |a| && AllChange(commands) && count <= |commands|
    requires FirstSettled(a, m, k, commands, count) && DoneUntil(b, n, m)
    ensures FirstSettled(b, n, k, commands, count)
  {
    assert forall i :: 0 <= i < |a| ==> b[i] == a[i];
    forall i | 0 <= i < count
      ensures Settled(b, n, k, commands[i])
    {
      SettledLater(a, b, n, m, k, k, commands[i]);
    }
  }

  lemma {:induction false} TurnLater(a: seq<Event>, b: seq<Event>, n: nat, m: nat, k: nat, commands: seq<Command>)
    requires a <= b && n <= m <= k < |a| && AllChange(commands) && HasTurn(a, m, k, commands) && DoneUntil(b, n, m)
    ensures HasTurn(b, n, k, commands)
  {
    var j :| 0 <= j < |commands| && InTurn(a, m, k, commands, j);
    var s :| m <= s <= k && FirstSettled(a, m, s, commands, WaveBegin(j));
    FirstSettledLater(a, b, n, m, s, commands, WaveBegin(j));
    assert b[k] == a[k];
    assert InTurn(b, n, k, commands, j);
  }

  /** A run in order still is, with anything before it that did not fail. */
  lemma {:induction false} InOrderFromEarlier(log: seq<Event>, n: nat, m: nat, commands: seq<Command>)
    requires n <= m <= |log| && AllChange(commands) && InOrder(log, m, commands)
    requires forall k :: n <= k < m ==> !Changes(log[k].command)
    requires m < |log| ==> DoneUntil(log, n, m)
    ensures InOrder(log, n, commands)
  {
    forall k | n <= k < |log| && Changes(log[k].command)
      ensures HasTurn(log, n, k, commands)
    {
      TurnLater(log, log, n, m, k, commands);
    }
  }

  /** ... and with anything after it that changes nothing. */
  lemma {:induction false} InOrderLater(a: seq<Event>, b: seq<Event>, n: nat, commands: seq<Command>)
    requires a <= b && n <= |a| && AllChange(commands) && InOrder(a, n, commands)
    requires forall k :: |a| <= k < |b| ==> !Changes(b[k].command)
    ensures InOrder(b, n, commands)
  {
    assert forall k :: 0 <= k < |a| ==> b[k] == a[k];
    forall k | n <= k < |b| && Changes(b[k].command)
      ensures HasTurn(b, n, k, commands)
    {
      TurnLater(a, b, n, n, k, commands);
    }
  }

  /** One more wave, begun when the ones before it are settled, keeps the order. */
  lemma {:induction false} InOrderFurther(a: seq<Event>, b: seq<Event>, n: nat, commands: seq<Command>, first: nat, size: nat)
    requires a <= b && n <= |a| && AllChange(commands) && InOrder(a, n, commands)
    requires first % MAX_WORKERS == 0 && 1 <= size <= MAX_WORKERS && first + size <= |commands|
    requires FirstSettled(a, n, |a|, commands, first)
    requires forall k :: |a| <= k < |b| && Changes(b[k].command) ==> b[k].command in commands[first..first + size]
    ensures InOrder(b, n, commands)
  {
    forall k | n <= k < |b| && Changes(b[k].command)
      ensures HasTurn(b, n, k, commands)
    {
      if k < |a| {
        assert b[k] == a[k];
        TurnLater(a, b, n, n, k, commands);
      } else {
        var i :| 0 <= i < size && commands[first..first + size][i] == b[k].command;
        assert WaveBegin(first + i) == first;
        FirstSettledLater(a, b, n, n, |a|, commands, first);
        assert InTurn(b, n, k, commands, first + i);
      }
    }
  }

  /** A settled wave after settled ones. */
  lemma {:induction false} SettledFurther(a: seq<Event>, b: seq<Event>, n: nat, commands: seq<Command>, first: nat, size: nat)
    requires a <= b && n <= |a| && AllChange(commands) && first + size <= |commands|
    requires FirstSettled(a, n, |a|, commands, first) && FirstSettled(b, |a|, |b|, commands[first..first + size], size)
    ensures FirstSettled(b, n, |b|, commands, first + size)
  {
    assert forall k :: 0 <= k < |a| ==> b[k] == a[k];
    forall i | 0 <= i < first + size
      ensures Settled(b, n, |b|, commands[i])
    {
      if i < first {
        SettledLater(a, b, n, n, |a|, |b|, commands[i]);
      } else {
        assert commands[first..first + size][i - first] == commands[i];
        SettledLater(b, b, n, |a|, |b|, |b|, commands[i]);
      }
    }
  }
}
