/** Bounded waves: how a rollout splits its work, and what it means to keep to the split. */
module Waves {
  import opened Basics
  import opened Clusters

  const MAX_WORKERS: nat := 8

  function BoundedWaves<T>(items: seq<T>, size: nat): seq<seq<T>>
    requires size >= 1
    decreases |items|
  {
    if items == [] then []
    else if |items| <= size then [items]
    else [items[..size]] + BoundedWaves(items[size..], size)
  }

  function Concatenated<T>(waves: seq<seq<T>>): seq<T> {
    if waves == [] then [] else waves[0] + Concatenated(waves[1..])
  }

  /** The k-th stretch of `size` items, the last one possibly shorter. */
  function Stretch<T>(items: seq<T>, size: nat, k: nat): seq<T>
    requires k * size <= |items|
  {
    items[k * size..if (k + 1) * size <= |items| then (k + 1) * size else |items|]
  }

  lemma {:induction false} WavesConcatenate<T>(items: seq<T>, size: nat)
    requires size >= 1
    ensures Concatenated(BoundedWaves(items, size)) == items
    decreases |items|
  {
    var waves := BoundedWaves(items, size);
    if |items| > size {
      WavesConcatenate(items[size..], size);
      assert waves[1..] == BoundedWaves(items[size..], size);
      assert items == items[..size] + items[size..];
    } else if items != [] {
      assert waves[1..] == [];
    }
  }

  lemma {:induction false} WaveSizes<T>(items: seq<T>, size: nat, k: nat)
    requires size >= 1 && k < |BoundedWaves(items, size)|
    ensures 1 <= |BoundedWaves(items, size)[k]| <= size
    ensures k < |BoundedWaves(items, size)| - 1 ==> |BoundedWaves(items, size)[k]| == size
    decreases |items|
  {
    if |items| > size && k > 0 {
      WaveSizes(items[size..], size, k - 1);
    }
  }

  /** The waves are the list in its own order; none is empty, none exceeds the bound, only the last falls short of it. */
  lemma {:induction false} WavesSplit<T>(items: seq<T>, size: nat)
    requires size >= 1
    ensures var waves := BoundedWaves(items, size);
            && Concatenated(waves) == items
            && (forall k :: 0 <= k < |waves| ==> 1 <= |waves[k]| <= size)
            && (forall k :: 0 <= k < |waves| - 1 ==> |waves[k]| == size)
  {
    WavesConcatenate(items, size);
    forall k | 0 <= k < |BoundedWaves(items, size)| {
      WaveSizes(items, size, k);
    }
  }

  /** Wave k holds the items from position k * size on. */
  lemma {:induction false} WavePosition<T>(items: seq<T>, size: nat, k: nat)
    requires size >= 1 && k < |BoundedWaves(items, size)|
    ensures k * size < |items| && BoundedWaves(items, size)[k] == Stretch(items, size, k)
    decreases |items|
  {
    if k > 0 {
      var rest := items[size..];
      WavePosition(rest, size, k - 1);
      StretchShift(items, size, k);
    }
  }

  lemma {:induction false} StretchShift<T>(items: seq<T>, size: nat, k: nat)
    requires 1 <= size < |items| && k >= 1 && (k - 1) * size < |items[size..]|
    ensures k * size < |items| && Stretch(items, size, k) == Stretch(items[size..], size, k - 1)
  {
    assert k * size == (k - 1) * size + size && (k + 1) * size == k * size + size;
  }

  // ---- what a log says about unconfirmed workloads ----

  predicate Mutates(e: Event) {
    (e.command.PatchSpec? || e.command.SetImages?) && e.outcome.Started()
  }

  predicate Confirms(e: Event) {
    e.command.RolloutStatus? && e.outcome.Done?
  }

  function WorkloadOf(e: Event): Id
    requires Mutates(e) || Confirms(e)
  {
    e.command.id
  }

  /** The existing workloads changed by commands n to k - 1 and not reported rolled out since. */
  function Unconfirmed(log: seq<Event>, n: nat, k: nat): set<Id>
    requires n <= k <= |log|
  {
    if k == n then {}
    else
      var u := Unconfirmed(log, n, k - 1);
      if Mutates(log[k - 1]) then u + {WorkloadOf(log[k - 1])}
      else if Confirms(log[k - 1]) then u - {WorkloadOf(log[k - 1])}
      else u
  }

  /** The workloads of the wave that the j-th workload of the list falls in. */
  function WaveOf(ids: seq<Id>, j: nat): set<Id>
    requires j < |ids|
  {
    set i | j - j % MAX_WORKERS <= i < j - j % MAX_WORKERS + MAX_WORKERS && i < |ids| :: ids[i]
  }

  /** Whenever a workload is changed, everything still unconfirmed belongs to its own wave. */
  ghost predicate KeepsWaves(log: seq<Event>, n: nat, ids: seq<Id>)
    requires n <= |log|
  {
    forall k :: n <= k < |log| && Mutates(log[k]) ==>
      exists j :: 0 <= j < |ids| && ids[j] == WorkloadOf(log[k]) && Unconfirmed(log, n, k) <= WaveOf(ids, j)
  }

  lemma {:induction false} UnconfirmedPrefix(a: seq<Event>, b: seq<Event>, n: nat, k: nat)
    requires a <= b && n <= k <= |a|
    ensures Unconfirmed(a, n, k) == Unconfirmed(b, n, k)
  {
    if k > n {
      UnconfirmedPrefix(a, b, n, k - 1);
    }
  }

  lemma {:induction false} WaveSize(ids: seq<Id>, j: nat)
    requires j < |ids|
    ensures |WaveOf(ids, j)| <= MAX_WORKERS
  {
    var first := j - j % MAX_WORKERS;
    var last := if first + MAX_WORKERS <= |ids| then first + MAX_WORKERS else |ids|;
    SliceSetSize(ids, first, last);
    assert WaveOf(ids, j) == set i | first <= i < last :: ids[i];
  }

  lemma {:induction false} SliceSetSize(ids: seq<Id>, first: nat, last: nat)
    requires first <= last <= |ids|
    ensures |set i | first <= i < last :: ids[i]| <= last - first
  {
    if first < last {
      SliceSetSize(ids, first, last - 1);
      assert (set i | first <= i < last :: ids[i]) == (set i | first <= i < last - 1 :: ids[i]) + {ids[last - 1]};
    }
  }

  /** So at no point of such a run are more than eight existing workloads changed and unconfirmed. */
  lemma {:induction false} AtMostEightUnconfirmed(log: seq<Event>, n: nat, ids: seq<Id>, k: nat)
    requires n <= k <= |log| && KeepsWaves(log, n, ids)
    ensures |Unconfirmed(log, n, k)| <= MAX_WORKERS
  {
    if k > n {
      AtMostEightUnconfirmed(log, n, ids, k - 1);
      var u := Unconfirmed(log, n, k - 1);
      if Mutates(log[k - 1]) {
        var j :| 0 <= j < |ids| && ids[j] == WorkloadOf(log[k - 1]) && u <= WaveOf(ids, j);
        WaveSize(ids, j);
        assert ids[j] in WaveOf(ids, j);
        SubsetSize(Unconfirmed(log, n, k), WaveOf(ids, j));
      } else {
        SubsetSize(Unconfirmed(log, n, k), u);
      }
    }
  }

  lemma {:induction false} SubsetSize<T>(a: set<T>, b: set<T>)
    requires a <= b
    ensures |a| <= |b|
  {
    if a != {} {
      var x :| x in a;
      SubsetSize(a - {x}, b - {x});
    }
  }

  // ---- one wave after another ----

  lemma {:induction false} UnconfirmedWithin(log: seq<Event>, m: nat, k: nat, ids: set<Id>)
    requires m <= k <= |log|
    requires forall j :: m <= j < k && Mutates(log[j]) ==> WorkloadOf(log[j]) in ids
    ensures Unconfirmed(log, m, k) <= ids
  {
    if k > m {
      UnconfirmedWithin(log, m, k - 1, ids);
    }
  }

  lemma {:induction false} StaysConfirmed(log: seq<Event>, m: nat, j: nat, k: nat)
    requires m <= j < k <= |log| && Confirms(log[j])
    requires forall i :: j < i < k ==> !Mutates(log[i])
    ensures WorkloadOf(log[j]) !in Unconfirmed(log, m, k)
  {
    if k > j + 1 {
      StaysConfirmed(log, m, j, k - 1);
    }
  }

  /** A wave whose workloads are all reported rolled out afterwards leaves nothing unconfirmed. */
  lemma {:induction false} WaveConfirmed(log: seq<Event>, m: nat, f: nat, ids: set<Id>)
    requires m <= f <= |log|
    requires forall j :: m <= j < |log| && Mutates(log[j]) ==> j < f && WorkloadOf(log[j]) in ids
    requires forall id :: id in ids ==> ConfirmedIn(log, f, id)
    ensures Unconfirmed(log, m, |log|) == {}
  {
    UnconfirmedWithin(log, m, |log|, ids);
    forall id | id in ids
      ensures id !in Unconfirmed(log, m, |log|)
    {
      var j :| f <= j < |log| && Confirms(log[j]) && WorkloadOf(log[j]) == id;
      StaysConfirmed(log, m, j, |log|);
    }
  }

  predicate ConfirmedIn(log: seq<Event>, f: nat, id: Id) {
    exists j :: f <= j < |log| && Confirms(log[j]) && WorkloadOf(log[j]) == id
  }

  function Elements<T>(s: seq<T>): set<T> {
    set x | x in s
  }

  lemma {:induction false} UnconfirmedFrom(log: seq<Event>, n: nat, m: nat, k: nat)
    requires n <= m <= k <= |log| && Unconfirmed(log, n, m) == {}
    ensures Unconfirmed(log, n, k) == Unconfirmed(log, m, k)
  {
    if k > m {
      UnconfirmedFrom(log, n, m, k - 1);
    }
  }

  /** A run that keeps its waves still does after one more wave, begun with everything confirmed. */
  lemma {:induction false} KeepsWavesFurther(l0: seq<Event>, l1: seq<Event>, n: nat, ids: seq<Id>, first: nat, size: nat)
    requires l0 <= l1 && n <= |l0| && KeepsWaves(l0, n, ids) && Unconfirmed(l0, n, |l0|) == {}
    requires first % MAX_WORKERS == 0 && 1 <= size <= MAX_WORKERS && first + size <= |ids|
    requires forall k :: |l0| <= k < |l1| && Mutates(l1[k]) ==> WorkloadOf(l1[k]) in ids[first..first + size]
    ensures KeepsWaves(l1, n, ids)
    ensures Unconfirmed(l1, n, |l1|) == Unconfirmed(l1, |l0|, |l1|)
  {
    var wave := Elements(ids[first..first + size]);
    UnconfirmedPrefix(l0, l1, n, |l0|);
    UnconfirmedFrom(l1, n, |l0|, |l1|);
    forall k | n <= k < |l1| && Mutates(l1[k])
      ensures exists j :: 0 <= j < |ids| && ids[j] == WorkloadOf(l1[k]) && Unconfirmed(l1, n, k) <= WaveOf(ids, j)
    {
      if k < |l0| {
        assert l1[k] == l0[k];
        var j :| 0 <= j < |ids| && ids[j] == WorkloadOf(l0[k]) && Unconfirmed(l0, n, k) <= WaveOf(ids, j);
        UnconfirmedPrefix(l0, l1, n, k);
      } else {
        var i :| 0 <= i < size && ids[first..first + size][i] == WorkloadOf(l1[k]);
        UnconfirmedFrom(l1, n, |l0|, k);
        UnconfirmedWithin(l1, |l0|, k, wave);
        SameWave(ids, first, size, i);
      }
    }
  }

  lemma {:induction false} SameWave(ids: seq<Id>, first: nat, size: nat, i: nat)
    requires first % MAX_WORKERS == 0 && i < size <= MAX_WORKERS && first + size <= |ids|
    ensures Elements(ids[first..first + size]) <= WaveOf(ids, first + i)
  {
    var j := first + i;
    assert j % MAX_WORKERS == i && j - j % MAX_WORKERS == first;
    forall id | id in Elements(ids[first..first + size])
      ensures id in WaveOf(ids, j)
    {
      var k :| 0 <= k < size && ids[first..first + size][k] == id;
      assert ids[first + k] == id;
    }
  }
}
