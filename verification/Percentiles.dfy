/** The interpolated percentile of the payload benchmarks, over the reals. */
module Percentiles {
  import opened Basics

  // ---- sorting ----

  predicate Ascending(s: seq<real>) {
    forall i, j :: 0 <= i <= j < |s| ==> s[i] <= s[j]
  }

  function Insert(s: seq<real>, x: real): (r: seq<real>)
    requires Ascending(s)
    ensures Ascending(r) && multiset(r) == multiset(s) + multiset{x} && |r| == |s| + 1
  {
    if s == [] || x <= s[0] then
      assert multiset([x] + s) == multiset([x]) + multiset(s);
      [x] + s
    else
      var rest := Insert(s[1..], x);
      assert s == [s[0]] + s[1..];
      assert multiset([s[0]] + rest) == multiset([s[0]]) + multiset(rest);
      InsertedAbove(s, x, rest);
      [s[0]] + rest
  }

  lemma {:induction false} InsertedAbove(s: seq<real>, x: real, rest: seq<real>)
    requires s != [] && Ascending(s) && s[0] <= x && Ascending(rest) && multiset(rest) == multiset(s[1..]) + multiset{x}
    ensures Ascending([s[0]] + rest)
  {
    forall j | 0 <= j < |rest|
      ensures s[0] <= rest[j]
    {
      assert rest[j] in multiset(rest);
      if rest[j] in s[1..] {
        var k :| 0 <= k < |s[1..]| && s[1..][k] == rest[j];
      }
    }
  }

  /** `sorted(values)`. */
  function Sorted(values: seq<real>): (r: seq<real>)
    ensures Ascending(r) && multiset(r) == multiset(values) && |r| == |values|
  {
    if values == [] then []
    else
      assert values == values[..|values| - 1] + [values[|values| - 1]];
      Insert(Sorted(values[..|values| - 1]), values[|values| - 1])
  }

  lemma {:induction false} HeadAndTail(s: seq<real>)
    requires s != []
    ensures multiset(s[1..]) == multiset(s) - multiset{s[0]}
  {
    assert s == [s[0]] + s[1..];
    assert multiset([s[0]] + s[1..]) == multiset([s[0]]) + multiset(s[1..]);
  }

  lemma {:induction false} SmallestFirst(a: seq<real>, b: seq<real>)
    requires Ascending(a) && a != [] && b != [] && b[0] in multiset(a)
    ensures a[0] <= b[0]
  {
    var j :| 0 <= j < |a| && a[j] == b[0];
  }

  lemma {:induction false} SortedUnique(a: seq<real>, b: seq<real>)
    requires Ascending(a) && Ascending(b) && multiset(a) == multiset(b)
    ensures a == b
    decreases |a|, 1
  {
    if a == [] || b == [] {
      assert |multiset(a)| == |a| && |multiset(b)| == |b|;
    } else {
      assert b[0] in multiset(b) && a[0] in multiset(a);
      SmallestFirst(a, b);
      SmallestFirst(b, a);
      HeadAndTail(a);
      HeadAndTail(b);
      TailsEqual(a, b);
    }
  }

  lemma {:induction false} TailsEqual(a: seq<real>, b: seq<real>)
    requires a != [] && b != [] && Ascending(a) && Ascending(b) && a[0] == b[0]
    requires multiset(a[1..]) == multiset(b[1..])
    ensures a == b
    decreases |a|, 0
  {
    SortedUnique(a[1..], b[1..]);
    assert a == [a[0]] + a[1..] && b == [b[0]] + b[1..];
  }

  // ---- the percentile ----

  /** `int(x)` truncates towards zero. */
  function Truncated(x: real): int {
    if x >= 0.0 then x.Floor else -((-x).Floor)
  }

  /** Indexing from either end; `None` where Python raises. */
  function At(s: seq<real>, i: int): Option<real> {
    if 0 <= i < |s| then Some(s[i]) else if -|s| <= i < 0 then Some(s[|s| + i]) else None
  }

  function Rank(n: nat, p: real): real {
    (n - 1) as real * p
  }

  /** A point between two values. */
  function Weighted(a: real, b: real, f: real): real {
    a * (1.0 - f) + b * f
  }

  function OfSorted(s: seq<real>, index: real): Option<real>
    requires s != []
  {
    var lower := Truncated(index);
    var upper := if lower + 1 < |s| - 1 then lower + 1 else |s| - 1;
    var a, b := At(s, lower), At(s, upper);
    if a.None? || b.None? then None else Some(Weighted(a.value, b.value, index - lower as real))
  }

  /** `percentile`. */
  function Percentile(values: seq<real>, p: real): Option<real> {
    if values == [] then Some(0.0) else OfSorted(Sorted(values), Rank(|values|, p))
  }

  /** It is defined for every list exactly while the rank, truncated, stays within the list, counted from either end. */
  lemma {:induction false} DefinedExactly(values: seq<real>, p: real)
    ensures Percentile(values, p).Some? <==>
              values == [] || -(|values| + 1) as real < (|values| - 1) as real * p < |values| as real
  {
    if values != [] {
      TruncatedWithin(Rank(|values|, p), |values|);
    }
  }

  lemma {:induction false} TruncatedWithin(x: real, n: nat)
    requires n > 0
    ensures -(n as int) <= Truncated(x) < n <==> -(n + 1) as real < x < n as real
  {
  }

  /** The order of the samples does not matter. */
  lemma {:induction false} OrderIrrelevant(a: seq<real>, b: seq<real>, p: real)
    requires multiset(a) == multiset(b)
    ensures Percentile(a, p) == Percentile(b, p)
  {
    SortedUnique(Sorted(a), Sorted(b));
    assert |Sorted(a)| == |a| && |Sorted(b)| == |b|;
  }

  // ---- between the order statistics ----

  lemma {:induction false} ScaledBelow(a: real, p: real, q: real)
    requires 0.0 <= a && p <= q
    ensures a * p <= a * q
  {
    assert a * q - a * p == a * (q - p);
  }

  lemma {:induction false} WeightedIsStep(a: real, b: real, f: real)
    ensures Weighted(a, b, f) == a + (b - a) * f
  {
  }

  lemma {:induction false} WeightedBetween(a: real, b: real, f: real)
    requires a <= b && 0.0 <= f <= 1.0
    ensures a <= Weighted(a, b, f) <= b
  {
    WeightedIsStep(a, b, f);
    ScaledBelow(b - a, 0.0, f);
    ScaledBelow(b - a, f, 1.0);
  }

  lemma {:induction false} WeightedMonotone(a: real, b: real, f: real, g: real)
    requires a <= b && f <= g
    ensures Weighted(a, b, f) <= Weighted(a, b, g)
  {
    WeightedIsStep(a, b, f);
    WeightedIsStep(a, b, g);
    ScaledBelow(b - a, f, g);
  }

  lemma {:induction false} WeightedSame(a: real, f: real)
    ensures Weighted(a, a, f) == a
  {
    WeightedIsStep(a, a, f);
  }

  lemma {:induction false} RankMonotone(n: nat, p: real, q: real)
    requires n > 0 && 0.0 <= p <= q <= 1.0
    ensures 0.0 <= Rank(n, p) <= Rank(n, q) <= (n - 1) as real
    ensures Rank(n, 0.0) == 0.0 && Rank(n, 1.0) == (n - 1) as real
  {
    var a := (n - 1) as real;
    ScaledBelow(a, 0.0, p);
    ScaledBelow(a, p, q);
    ScaledBelow(a, q, 1.0);
    assert a * 0.0 == 0.0 && a * 1.0 == a;
  }

  /** On the ranks in between, the value lies on the segment between neighbouring order statistics. */
  lemma {:induction false} OnSegment(s: seq<real>, x: real) returns (k: nat)
    requires Ascending(s) && s != [] && 0.0 <= x <= (|s| - 1) as real
    ensures k == x.Floor && k < |s| && OfSorted(s, x).Some?
    ensures k + 1 < |s| ==> OfSorted(s, x).value == Weighted(s[k], s[k + 1], x - k as real)
    ensures k + 1 < |s| ==> s[k] <= OfSorted(s, x).value <= s[k + 1]
    ensures k + 1 == |s| ==> OfSorted(s, x).value == s[k]
  {
    k := x.Floor;
    if k + 1 < |s| {
      WeightedBetween(s[k], s[k + 1], x - k as real);
    } else {
      WeightedSame(s[k], x - k as real);
    }
  }

  lemma {:induction false} SortedBounds(s: seq<real>, x: real)
    requires Ascending(s) && s != [] && 0.0 <= x <= (|s| - 1) as real
    ensures OfSorted(s, x).Some? && s[0] <= OfSorted(s, x).value <= s[|s| - 1]
  {
    var k := OnSegment(s, x);
  }

  lemma {:induction false} SortedMonotone(s: seq<real>, x: real, y: real)
    requires Ascending(s) && s != [] && 0.0 <= x <= y <= (|s| - 1) as real
    ensures OfSorted(s, x).Some? && OfSorted(s, y).Some? && OfSorted(s, x).value <= OfSorted(s, y).value
  {
    var k := OnSegment(s, x);
    var l := OnSegment(s, y);
    if k == l {
      if k + 1 < |s| {
        WeightedMonotone(s[k], s[k + 1], x - k as real, y - k as real);
      }
    } else {
      assert k + 1 <= l && s[k + 1] <= s[l];
    }
  }

  lemma {:induction false} SortedAtRank(s: seq<real>, k: nat)
    requires k < |s|
    ensures OfSorted(s, k as real) == Some(s[k])
  {
    assert (k as real).Floor == k;
    var b := if k + 1 < |s| - 1 then s[k + 1] else s[|s| - 1];
    WeightedIsStep(s[k], b, 0.0);
    assert (b - s[k]) * 0.0 == 0.0;
  }

  /** Between the smallest and the largest sample. */
  lemma {:induction false} PercentileBounds(values: seq<real>, p: real)
    requires values != [] && 0.0 <= p <= 1.0
    ensures Percentile(values, p).Some?
    ensures Sorted(values)[0] <= Percentile(values, p).value <= Sorted(values)[|values| - 1]
  {
    RankMonotone(|values|, p, 1.0);
    SortedBounds(Sorted(values), Rank(|values|, p));
  }

  /** Never decreasing, across the joints between segments as well. */
  lemma {:induction false} PercentileMonotone(values: seq<real>, p: real, q: real)
    requires values != [] && 0.0 <= p <= q <= 1.0
    ensures Percentile(values, p).Some? && Percentile(values, q).Some?
    ensures Percentile(values, p).value <= Percentile(values, q).value
  {
    RankMonotone(|values|, p, q);
    SortedMonotone(Sorted(values), Rank(|values|, p), Rank(|values|, q));
  }

  lemma {:induction false} PercentileOfRank(values: seq<real>, p: real, x: real)
    requires values != [] && (|values| - 1) as real * p == x
    ensures Percentile(values, p) == OfSorted(Sorted(values), x)
  {
  }

  /** Between two whole ranks it lies between their order statistics, as far along as the rank is (`WeightedIsStep`). */
  lemma {:induction false} PercentileBetween(values: seq<real>, p: real, x: real, k: nat)
    requires k + 1 < |values| && (|values| - 1) as real * p == x && k as real <= x < (k + 1) as real
    ensures Percentile(values, p) == Some(Weighted(Sorted(values)[k], Sorted(values)[k + 1], x - k as real))
  {
    PercentileOfRank(values, p, x);
    var j := OnSegment(Sorted(values), x);
  }

  /** At a whole rank it is that order statistic; so it is the minimum at 0 and the maximum at 1. */
  lemma {:induction false} PercentileAtRank(values: seq<real>, p: real, k: nat)
    requires k < |values| && (|values| - 1) as real * p == k as real
    ensures Percentile(values, p) == Some(Sorted(values)[k])
  {
    SortedAtRank(Sorted(values), k);
  }

  lemma {:induction false} PercentileEnds(values: seq<real>)
    requires values != []
    ensures Percentile(values, 0.0) == Some(Sorted(values)[0])
    ensures Percentile(values, 1.0) == Some(Sorted(values)[|values| - 1])
    ensures forall v :: v in values ==> Sorted(values)[0] <= v <= Sorted(values)[|values| - 1]
  {
    RankMonotone(|values|, 0.0, 1.0);
    SortedAtRank(Sorted(values), 0);
    SortedAtRank(Sorted(values), |values| - 1);
    forall v | v in values
      ensures Sorted(values)[0] <= v <= Sorted(values)[|values| - 1]
    {
      assert v in multiset(Sorted(values));
      var i :| 0 <= i < |values| && Sorted(values)[i] == v;
    }
  }
}
