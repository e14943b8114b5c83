/** Repository paths of the demo source-control fixture. */
module ScmPaths {
  import opened Basics
  import opened Images

  function Strip(s: string): (r: string)
    ensures r != [] ==> !IsSpace(r[0]) && !IsSpace(r[|r| - 1])
    decreases |s|
  {
    if s == [] then []
    else if IsSpace(s[0]) then Strip(s[1..])
    else if IsSpace(s[|s| - 1]) then Strip(s[..|s| - 1])
    else s
  }

  /** What is between the slashes. */
  function Split(s: string): (r: seq<string>)
    ensures r != []
    ensures forall i :: 0 <= i < |r| ==> '/' !in r[i]
    decreases |s|
  {
    var cut := FirstIndex(s, '/');
    if cut == |s| then [s] else [s[..cut]] + Split(s[cut + 1..])
  }

  /** `PurePosixPath.parts` of a relative path: empty and `.` components are dropped. */
  function Proper(components: seq<string>): (r: seq<string>)
    ensures forall i :: 0 <= i < |r| ==> r[i] in components && r[i] != "" && r[i] != "."
    ensures forall c :: c in components && c != "" && c != "." ==> c in r
  {
    if components == [] then []
    else (if components[0] == "" || components[0] == "." then [] else [components[0]]) + Proper(components[1..])
  }

  function Join(parts: seq<string>): string {
    if parts == [] then [] else if |parts| == 1 then parts[0] else parts[0] + "/" + Join(parts[1..])
  }

  predicate SafePart(part: string) {
    part != ".." && Lower(part) != ".git"
  }

  /** `_relative`. A path of nothing but `.` components is the root itself. */
  function Relative(value: string): Result<string> {
    var raw := Strip(value);
    if raw == "" || raw[0] == '/' then Err
    else
      var parts := Proper(Split(raw));
      if exists i :: 0 <= i < |parts| && !SafePart(parts[i]) then Err
      else Ok(if parts == [] then "." else Join(parts))
  }

  predicate IsPart(part: string) {
    part != "" && part != "." && '/' !in part
  }

  predicate AreParts(parts: seq<string>) {
    forall i :: 0 <= i < |parts| ==> IsPart(parts[i])
  }

  lemma {:induction false} SplitAt(a: string, b: string)
    requires '/' !in a
    ensures Split(a + "/" + b) == [a] + Split(b)
    ensures Split(a) == [a]
  {
    var s := a + "/" + b;
    assert s[|a|] == '/';
    assert forall k :: 0 <= k < |a| ==> s[k] == a[k];
    assert FirstIndex(s, '/') == |a| && FirstIndex(a, '/') == |a|;
    assert s[..|a|] == a && s[|a| + 1..] == b;
  }

  lemma {:induction false} SplitJoin(parts: seq<string>)
    requires parts != [] && AreParts(parts)
    ensures Split(Join(parts)) == parts && Proper(parts) == parts
    ensures Join(parts) != "" && Join(parts)[0] != '/'
  {
    var rest := parts[1..];
    assert IsPart(parts[0]) && parts[0][0] in parts[0];
    if rest == [] {
      SplitAt(parts[0], "");
      assert Proper(rest) == [];
    } else {
      assert forall i :: 0 <= i < |rest| ==> rest[i] == parts[i + 1];
      SplitJoin(rest);
      SplitAt(parts[0], Join(rest));
    }
    assert parts == [parts[0]] + rest;
  }

  /** An accepted path stays below the root and out of the repository's own metadata, however it was written. */
  lemma {:induction false} RelativeIsSafe(value: string)
    requires Relative(value).Ok?
    ensures var path := Relative(value).value;
            && path != "" && path[0] != '/'
            && (path != "." ==> forall part :: part in Split(path) ==> IsPart(part) && SafePart(part))
  {
    var parts := Proper(Split(Strip(value)));
    if parts != [] {
      SplitJoin(parts);
    }
  }

  predicate Trimmed(path: string) {
    path != "" && !IsSpace(path[0]) && !IsSpace(path[|path| - 1])
  }

  lemma {:induction false} StripTrimmed(path: string)
    ensures path != "" ==> (Strip(path) == path <==> Trimmed(path))
    ensures |Strip(path)| <= |path|
    decreases |path|
  {
    if path != "" && !Trimmed(path) {
      if IsSpace(path[0]) {
        StripTrimmed(path[1..]);
      } else {
        StripTrimmed(path[..|path| - 1]);
      }
    }
  }

  lemma {:induction false} JoinLength(parts: seq<string>)
    ensures forall i :: 0 <= i < |parts| ==> |parts[i]| <= |Join(parts)|
  {
    if |parts| > 1 {
      JoinLength(parts[1..]);
      assert forall i :: 0 < i < |parts| ==> parts[i] == parts[1..][i - 1];
    }
  }

  lemma {:induction false} ProperLength(s: string)
    ensures |Join(Proper(Split(s)))| <= |s|
    decreases |s|
  {
    var cut := FirstIndex(s, '/');
    if cut < |s| {
      ProperLength(s[cut + 1..]);
      var rest := Proper(Split(s[cut + 1..]));
      assert Split(s)[1..] == Split(s[cut + 1..]);
      assert Proper(Split(s)) == (if s[..cut] == "" || s[..cut] == "." then [] else [s[..cut]]) + rest;
      if s[..cut] != "" && s[..cut] != "." {
        assert ([s[..cut]] + rest)[1..] == rest;
      } else {
        assert Proper(Split(s)) == rest;
      }
    } else {
      assert Split(s)[1..] == [];
    }
  }

  lemma {:induction false} TrimmedIsStable(value: string)
    requires Relative(value).Ok?
    ensures var path := Relative(value).value;
            Relative(path) == Ok(path) <==> Trimmed(path)
  {
    var path := Relative(value).value;
    RelativeIsSafe(value);
    StripTrimmed(path);
    if path == "." {
      SplitAt(".", "");
      assert Split(".")[1..] == [];
    } else {
      var parts := Proper(Split(Strip(value)));
      SplitJoin(parts);
      if !Trimmed(path) && Relative(path).Ok? {
        ProperLength(Strip(path));
        StripShorter(path);
      }
    }
  }

  // ---- what the normal form is, component by component ----

  predicate AreComponents(components: seq<string>) {
    components != [] && forall i :: 0 <= i < |components| ==> '/' !in components[i]
  }

  /** No white space at either end of the path they make up. */
  predicate OuterTrimmed(components: seq<string>)
    requires components != []
  {
    var first, last := components[0], components[|components| - 1];
    && (first != "" ==> !IsSpace(first[0]))
    && (last != "" ==> !IsSpace(last[|last| - 1]))
    && (|components| == 1 ==> first != "")
  }

  lemma {:induction false} SplitJoined(components: seq<string>)
    requires AreComponents(components)
    ensures Split(Join(components)) == components
  {
    if |components| == 1 {
      SplitAt(components[0], "");
    } else {
      var rest := components[1..];
      assert forall i :: 0 <= i < |rest| ==> rest[i] == components[i + 1];
      SplitJoined(rest);
      SplitAt(components[0], Join(rest));
      assert components == [components[0]] + rest;
    }
  }

  /** Every path is made up of its components. */
  lemma {:induction false} JoinSplit(value: string)
    ensures AreComponents(Split(value)) && Join(Split(value)) == value
    decreases |value|
  {
    var cut := FirstIndex(value, '/');
    if cut < |value| {
      JoinSplit(value[cut + 1..]);
      assert Split(value)[1..] == Split(value[cut + 1..]);
    }
  }

  lemma {:induction false} JoinTrimmed(components: seq<string>)
    requires AreComponents(components) && OuterTrimmed(components)
    ensures Trimmed(Join(components)) && Strip(Join(components)) == Join(components)
    ensures Join(components)[0] == '/' <==> components[0] == ""
  {
    JoinLast(components);
    StripTrimmed(Join(components));
    if components[0] != "" {
      assert components[0][0] in components[0];
    }
  }

  lemma {:induction false} JoinLast(components: seq<string>)
    requires AreComponents(components) && |components[0]| + |components| > 1
    ensures var path, last := Join(components), components[|components| - 1];
            path != "" && path[|path| - 1] == if last == "" then '/' else last[|last| - 1]
  {
    if |components| > 1 {
      var rest := components[1..];
      assert forall i :: 0 <= i < |rest| ==> rest[i] == components[i + 1];
      if |rest[0]| + |rest| > 1 {
        JoinLast(rest);
      }
    }
  }

  lemma {:induction false} ProperConcat(a: seq<string>, b: seq<string>)
    ensures Proper(a + b) == Proper(a) + Proper(b)
  {
    if a == [] {
      assert a + b == b;
    } else {
      assert (a + b)[1..] == a[1..] + b;
      ProperConcat(a[1..], b);
    }
  }

  /** A path of parts, however many, that has nothing to drop and nothing to refuse is kept as it is. */
  lemma {:induction false} RelativeKeeps(parts: seq<string>)
    requires parts != [] && AreParts(parts) && OuterTrimmed(parts)
    requires forall i :: 0 <= i < |parts| ==> parts[i] != ".." && Lower(parts[i]) != ".git"
    ensures Relative(Join(parts)) == Ok(Join(parts))
  {
    assert forall i :: 0 <= i < |parts| ==> IsPart(parts[i]);
    JoinTrimmed(parts);
    SplitJoin(parts);
  }

  /** An empty component or a dot may be put anywhere inside a path without changing what it is normalised to. */
  lemma {:induction false} RelativeDrops(a: seq<string>, dropped: string, b: seq<string>)
    requires AreComponents(a + b) && OuterTrimmed(a + b) && (dropped == "" || dropped == ".")
    requires a == [] ==> dropped == "." && b[0] != ""
    ensures Relative(Join(a + [dropped] + b)) == Relative(Join(a + b))
  {
    ComponentsMore(a, dropped, b);
    ProperDrops(a, dropped, b);
    SameNormalForm(a + [dropped] + b, a + b);
  }

  lemma {:induction false} SameNormalForm(a: seq<string>, b: seq<string>)
    requires AreComponents(a) && OuterTrimmed(a) && AreComponents(b) && OuterTrimmed(b)
    requires Proper(a) == Proper(b) && (a[0] == "" <==> b[0] == "")
    ensures Relative(Join(a)) == Relative(Join(b))
  {
    JoinTrimmed(a);
    JoinTrimmed(b);
    SplitJoined(a);
    SplitJoined(b);
  }

  lemma {:induction false} ProperDrops(a: seq<string>, dropped: string, b: seq<string>)
    requires dropped == "" || dropped == "."
    ensures Proper(a + [dropped] + b) == Proper(a + b)
  {
    ProperConcat(a + [dropped], b);
    ProperConcat(a, [dropped]);
    ProperConcat(a, b);
    assert [dropped][1..] == [];
  }

  lemma {:induction false} ComponentsMore(a: seq<string>, dropped: string, b: seq<string>)
    requires AreComponents(a + b) && OuterTrimmed(a + b) && (dropped == "" || dropped == ".")
    requires a == [] ==> dropped == "." && b[0] != ""
    ensures AreComponents(a + [dropped] + b) && OuterTrimmed(a + [dropped] + b)
    ensures (a + [dropped] + b)[0] == "" <==> (a + b)[0] == ""
  {
    var more := a + [dropped] + b;
    forall i | 0 <= i < |more|
      ensures '/' !in more[i]
    {
      assert more[i] == if i < |a| then (a + b)[i] else if i == |a| then dropped else (a + b)[i - 1];
    }
    assert more[|more| - 1] == if b == [] then dropped else (a + b)[|a + b| - 1];
  }

  /** White space around a path is ignored. */
  lemma {:induction false} RelativeTrims(before: string, value: string, after: string)
    requires forall i :: 0 <= i < |before| ==> IsSpace(before[i])
    requires forall i :: 0 <= i < |after| ==> IsSpace(after[i])
    ensures Relative(before + value + after) == Relative(value)
  {
    StripAround(before, value, after);
  }

  lemma {:induction false} StripAround(before: string, value: string, after: string)
    requires forall i :: 0 <= i < |before| ==> IsSpace(before[i])
    requires forall i :: 0 <= i < |after| ==> IsSpace(after[i])
    ensures Strip(before + value + after) == Strip(value)
    decreases |before| + |value| + |after|
  {
    var all := before + value + after;
    if before != [] {
      assert all[1..] == before[1..] + value + after;
      StripAround(before[1..], value, after);
    } else if value == [] {
      if after != [] {
        assert all[1..] == before + value + after[1..];
        StripAround(before, value, after[1..]);
      }
    } else if IsSpace(value[0]) {
      assert all[1..] == before + value[1..] + after;
      StripAround(before, value[1..], after);
    } else if after != [] {
      assert all[..|all| - 1] == before + value + after[..|after| - 1];
      StripAround(before, value, after[..|after| - 1]);
    } else {
      assert all == value;
    }
  }

  /** What is refused: a path from the root, and one with a component that leads up or into the repository's metadata. */
  lemma {:induction false} RelativeRefuses(components: seq<string>)
    requires AreComponents(components) && OuterTrimmed(components)
    ensures Relative(Join(components)).Err? <==>
              components[0] == "" || exists i :: 0 <= i < |components| && (components[i] == ".." || Lower(components[i]) == ".git")
  {
    JoinTrimmed(components);
    SplitJoined(components);
    var parts := Proper(components);
    if i :| 0 <= i < |components| && (components[i] == ".." || Lower(components[i]) == ".git") {
      assert components[i] in components && components[i] != "" && components[i] != ".";
      var k :| 0 <= k < |parts| && parts[k] == components[i];
      assert !SafePart(parts[k]);
    }
    if k :| 0 <= k < |parts| && !SafePart(parts[k]) {
      assert parts[k] in components;
    }
  }

  /** What is left of a path as it was given, once its white space, empty and `.` components are dropped. */
  function PartsOf(value: string): seq<string> {
    Proper(Split(Strip(value)))
  }

  /** No white space comes to the front or the back. */
  predicate Stable(value: string) {
    var parts := PartsOf(value);
    parts == [] || (!IsSpace(parts[0][0]) && !IsSpace(parts[|parts| - 1][|parts[|parts| - 1]| - 1]))
  }

  lemma {:induction false} JoinEnds(parts: seq<string>)
    requires parts != [] && AreParts(parts)
    ensures Join(parts) != "" && Join(parts)[0] == parts[0][0]
    ensures Join(parts)[|Join(parts)| - 1] == parts[|parts| - 1][|parts[|parts| - 1]| - 1]
  {
    assert IsPart(parts[0]);
    if |parts| > 1 {
      var rest := parts[1..];
      assert forall i :: 0 <= i < |rest| ==> rest[i] == parts[i + 1];
      JoinEnds(rest);
    }
  }

  /** Normalising a path again leaves it alone exactly when, of the path as given, dropping empty and `.` components
      brings no white space to the front or the back. */
  lemma {:induction false} RelativeTwice(value: string)
    requires Relative(value).Ok?
    ensures Relative(Relative(value).value) == Ok(Relative(value).value) <==> Stable(value)
  {
    TrimmedIsStable(value);
    StableParts(value);
  }

  lemma {:induction false} StableParts(value: string)
    requires Relative(value).Ok?
    ensures Trimmed(Relative(value).value) <==> Stable(value)
  {
    var parts := PartsOf(value);
    assert Relative(value).value == if parts == [] then "." else Join(parts);
    if parts != [] {
      JoinEnds(parts);
    }
  }

  /** A second normalisation that changes the path makes it shorter. */
  lemma {:induction false} AgainShorter(value: string)
    requires Relative(value).Ok? && !Stable(value)
    ensures Relative(value).value != "."
    ensures Relative(Relative(value).value).Ok? ==> |Relative(Relative(value).value).value| < |Relative(value).value|
  {
    var path := Relative(value).value;
    RelativeTwice(value);
    TrimmedIsStable(value);
    RelativeIsSafe(value);
    SplitAt(".", "");
    assert Split(".")[1..] == [];
    if Relative(path).Ok? {
      ProperLength(Strip(path));
      StripShorter(path);
      RelativeIsSafe(path);
    }
  }

  lemma {:induction false} StripShorter(path: string)
    requires path != "" && !Trimmed(path)
    ensures |Strip(path)| < |path|
  {
    if IsSpace(path[0]) {
      StripTrimmed(path[1..]);
    } else {
      StripTrimmed(path[..|path| - 1]);
    }
  }

  lemma {:induction false} DropsDot(dot: string, part: string)
    requires dot == "." && IsPart(part)
    ensures Proper(Split(dot + "/" + part)) == [part]
  {
    SplitAt(dot, part);
    SplitAt(part, "");
    assert Split(dot + "/" + part)[1..] == [part] && [part][1..] == [];
    assert Proper([part]) == [part];
  }

  /** Such paths exist: what follows a leading `./` may start with a blank, and is then normalised differently again. */
  lemma {:induction false} RelativeTwiceFails(dot: string, part: string)
    requires dot == "." && IsPart(part) && SafePart(part) && IsSpace(part[0]) && !IsSpace(part[|part| - 1])
    ensures Relative(dot + "/" + part) == Ok(part) && Relative(part) != Ok(part)
  {
    var raw := dot + "/" + part;
    StripTrimmed(raw);
    DropsDot(dot, part);
    TrimmedIsStable(raw);
  }

  /** One safe component without white space around it is a path in its normal form. */
  lemma {:induction false} PlainPart(part: string)
    requires IsPart(part) && SafePart(part) && Trimmed(part)
    ensures Relative(part) == Ok(part)
  {
    StripTrimmed(part);
    SplitAt(part, "");
    assert [part][1..] == [];
    assert Proper([part]) == [part];
    assert part[0] in part;
  }

  lemma {:induction false} LeadsOut(up: string, part: string)
    requires up == ".." && IsPart(part) && !IsSpace(part[|part| - 1])
    ensures Relative(up + "/" + part).Err?
  {
    var raw := up + "/" + part;
    StripTrimmed(raw);
    SplitAt(up, part);
    SplitAt(part, "");
    assert Split(raw)[1..] == [part] && [part][1..] == [];
    assert Proper(Split(raw))[0] == up && !SafePart(up);
  }

  lemma {:induction false} BlankDropped(blank: string, part: string)
    requires blank == " " && Relative(part) == Ok(part) && Trimmed(part)
    ensures Relative(blank + part) == Ok(part)
  {
    assert (blank + part)[1..] == part;
    StripTrimmed(part);
    assert Strip(blank + part) == Strip(part) == Strip(Strip(part));
  }

  /** The paths of two examples. */
  lemma {:induction false} ExamplePaths(a: string, c: string, outside: string, blank: string, dotted: string)
    requires a == "a" && c == "c" && outside == "../b" && blank == " a" && dotted == "./ a"
    ensures Relative(a) == Ok(a) && Relative(c) == Ok(c) && Relative(outside).Err?
    ensures Relative(dotted) == Ok(blank) && Relative(blank) == Ok(a) && !Stable(dotted)
  {
    var up, dot, space, b := "..", ".", " ", "b";
    PlainPart(a);
    PlainPart(c);
    assert outside == up + "/" + b && blank == space + a && dotted == dot + "/" + blank;
    LeadsOut(up, b);
    BlankDropped(space, a);
    RelativeTwiceFails(dot, blank);
    RelativeTwice(dotted);
  }
}
