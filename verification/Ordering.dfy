/** `sorted` over a set: each element once, in ascending order. */
module Ordering {
  import opened Basics

  /** Strings compare by code point, a proper prefix coming first. */
  predicate Less(a: string, b: string) {
    if b == "" then false
    else if a == "" then true
    else if a[0] != b[0] then a[0] < b[0]
    else Less(a[1..], b[1..])
  }

  lemma {:induction false} LessTransitive(a: string, b: string, c: string)
    requires Less(a, b) && Less(b, c)
    ensures Less(a, c)
  {
    if a != "" && a[0] == b[0] && b[0] == c[0] {
      LessTransitive(a[1..], b[1..], c[1..]);
    }
  }

  lemma {:induction false} LessTotal(a: string, b: string)
    ensures a == b || Less(a, b) || Less(b, a)
    ensures !(Less(a, b) && Less(b, a)) && !Less(a, a)
  {
    if a != "" && b != "" {
      LessTotal(a[1..], b[1..]);
      LessTotal(a[1..], a[1..]);
      assert a == [a[0]] + a[1..] && b == [b[0]] + b[1..];
    } else if a != "" {
      LessTotal(a[1..], a[1..]);
    }
  }

  /** A proper prefix comes first; otherwise the first difference decides. */
  lemma {:induction false} LessMeaning(a: string, b: string)
    ensures Less(a, b) <==> a < b || exists i :: 0 <= i < |a| && i < |b| && a[..i] == b[..i] && a[i] < b[i]
  {
    if a != "" && b != "" && a[0] == b[0] {
      var c, d := a[1..], b[1..];
      LessMeaning(c, d);
      assert a == [a[0]] + c && b == [b[0]] + d;
      if i :| 0 <= i < |c| && i < |d| && c[..i] == d[..i] && c[i] < d[i] {
        assert a[..i + 1] == [a[0]] + c[..i] && b[..i + 1] == [b[0]] + d[..i];
        assert a[i + 1] < b[i + 1];
      }
      if i :| 0 <= i < |a| && i < |b| && a[..i] == b[..i] && a[i] < b[i] {
        assert c[..i - 1] == a[..i][1..] && d[..i - 1] == b[..i][1..];
        assert c[i - 1] < d[i - 1];
      }
    } else if a != "" && b != "" && a[0] < b[0] {
      assert a[..0] == b[..0];
    }
  }

  /** Tuples of strings compare component by component. */
  predicate LessPair(a: (string, string), b: (string, string)) {
    Less(a.0, b.0) || (a.0 == b.0 && Less(a.1, b.1))
  }

  ghost predicate StrictOrder<T(!new)>(less: (T, T) -> bool) {
    && (forall a, b, c :: less(a, b) && less(b, c) ==> less(a, c))
    && (forall a, b :: a == b || less(a, b) || less(b, a))
    && (forall a :: !less(a, a))
  }

  predicate Ascending<T>(s: seq<T>, less: (T, T) -> bool) {
    forall i, j :: 0 <= i < j < |s| ==> less(s[i], s[j])
  }

  lemma {:induction false} LessIsStrictOrder()
    ensures StrictOrder(Less)
  {
    forall a, b, c | Less(a, b) && Less(b, c) ensures Less(a, c) { LessTransitive(a, b, c); }
    forall a, b ensures a == b || Less(a, b) || Less(b, a) { LessTotal(a, b); }
    forall a ensures !Less(a, a) { LessTotal(a, a); }
  }

  lemma {:induction false} LessPairIsStrictOrder()
    ensures StrictOrder(LessPair)
  {
    forall a, b, c | LessPair(a, b) && LessPair(b, c) ensures LessPair(a, c) {
      if Less(a.0, b.0) && Less(b.0, c.0) { LessTransitive(a.0, b.0, c.0); }
      if Less(a.1, b.1) && Less(b.1, c.1) { LessTransitive(a.1, b.1, c.1); }
    }
    forall a, b ensures a == b || LessPair(a, b) || LessPair(b, a) { LessTotal(a.0, b.0); LessTotal(a.1, b.1); }
    forall a ensures !LessPair(a, a) { LessTotal(a.0, a.0); LessTotal(a.1, a.1); }
  }

  function Insert<T(==)>(x: T, s: seq<T>, less: (T, T) -> bool): seq<T> {
    if s == [] then [x]
    else if s[0] == x then s
    else if less(x, s[0]) then [x] + s
    else [s[0]] + Insert(x, s[1..], less)
  }

  function SortedSet<T(==)>(s: seq<T>, less: (T, T) -> bool): seq<T> {
    if s == [] then [] else Insert(s[0], SortedSet(s[1..], less), less)
  }

  lemma {:induction false} InsertAscending<T(!new)>(x: T, s: seq<T>, less: (T, T) -> bool)
    requires StrictOrder(less) && Ascending(s, less)
    ensures Ascending(Insert(x, s, less), less)
    ensures forall y :: y in Insert(x, s, less) <==> y == x || y in s
  {
    if s != [] && s[0] != x && !less(x, s[0]) {
      var rest := Insert(x, s[1..], less);
      InsertAscending(x, s[1..], less);
      assert s == [s[0]] + s[1..];
      forall i, j | 0 <= i < j < |rest| + 1
        ensures less(([s[0]] + rest)[i], ([s[0]] + rest)[j])
      {
        assert rest[j - 1] in rest;
      }
    }
  }

  /** The sorted form of a list has exactly its elements, each once, in strictly ascending order. */
  lemma {:induction false} SortedSetMeaning<T(!new)>(s: seq<T>, less: (T, T) -> bool)
    requires StrictOrder(less)
    ensures Ascending(SortedSet(s, less), less) && NoDuplicates(SortedSet(s, less))
    ensures forall y :: y in SortedSet(s, less) <==> y in s
  {
    if s != [] {
      SortedSetMeaning(s[1..], less);
      InsertAscending(s[0], SortedSet(s[1..], less), less);
      assert s == [s[0]] + s[1..];
    }
  }
}
