/** What the Cloudflare scripts plan for one hostname: tunnel ingress, DNS, client-certificate hostnames and a firewall rule. */
module Cloudflare {
  import opened Basics
  import opened JsonTrees

  datatype Action = Unchanged | Update | Create

  // ---- lists searched by the scripts ----

  /** The positions of the elements that satisfy a condition, ascending. */
  function Indexes<T>(s: seq<T>, p: T -> bool): (r: seq<nat>)
    ensures forall k :: 0 <= k < |r| ==> r[k] < |s| && p(s[r[k]])
    ensures forall k, l :: 0 <= k < l < |r| ==> r[k] < r[l]
    ensures forall i :: 0 <= i < |s| && p(s[i]) ==> i in r
  {
    if s == [] then []
    else
      var k := |s| - 1;
      Indexes(s[..k], p) + (if p(s[k]) then [k] else [])
  }

  ghost predicate OnlyAt<T>(s: seq<T>, p: T -> bool, i: nat) {
    i < |s| && p(s[i]) && forall j :: 0 <= j < |s| && j != i ==> !p(s[j])
  }

  lemma {:induction false} OneIndex<T>(s: seq<T>, p: T -> bool)
    ensures Indexes(s, p) == [] <==> forall i :: 0 <= i < |s| ==> !p(s[i])
    ensures |Indexes(s, p)| == 1 ==> OnlyAt(s, p, Indexes(s, p)[0])
    ensures forall i: nat :: OnlyAt(s, p, i) ==> Indexes(s, p) == [i]
  {
    var r := Indexes(s, p);
    forall i: nat | OnlyAt(s, p, i)
      ensures r == [i]
    {
      assert i in r;
      assert forall k :: 0 <= k < |r| ==> r[k] == i;
      assert r[0] == r[|r| - 1];
    }
  }

  // ---- tunnel ingress ----

  /** Python's notion of an empty value. */
  predicate Falsy(value: Json) {
    match value
    case JNull => true
    case JBool(flag) => !flag
    case JNumber(number) => number == 0.0
    case JString(text) => text == ""
    case JList(items) => items == []
    case JObject(fields) => fields == map[]
  }

  predicate IsFullHost(rule: Json, hostname: string) {
    Get(rule, "hostname") == JString(hostname) && Falsy(Get(rule, "path"))
  }

  predicate IsFallback(rule: Json) {
    Falsy(Get(rule, "hostname")) && Falsy(Get(rule, "path"))
  }

  function FullHost(hostname: string): Json -> bool {
    rule => IsFullHost(rule, hostname)
  }

  function Fallback(): Json -> bool {
    rule => IsFallback(rule)
  }

  function DesiredRule(hostname: string, service: string): Json {
    JObject(map["hostname" := JString(hostname), "service" := JString(service)])
  }

  function Rerouted(rule: Json, hostname: string, service: string): (r: Json)
    requires rule.JObject?
    ensures Get(r, "hostname") == JString(hostname) && Get(r, "service") == JString(service)
    ensures forall key :: key != "hostname" && key != "service" ==> Get(r, key) == Get(rule, key)
  {
    JObject(rule.fields["hostname" := JString(hostname)]["service" := JString(service)])
  }

  /** Nothing but the hostname and the service of a rerouted rule is new. */
  lemma {:induction false} ReroutedKeepsRest(rule: Json, hostname: string, service: string)
    requires rule.JObject?
    ensures Rerouted(rule, hostname, service).JObject?
    ensures Rerouted(rule, hostname, service).fields - {"hostname", "service"} == rule.fields - {"hostname", "service"}
  {
  }

  predicate AreRules(rules: seq<Json>) {
    rules != [] && forall i :: 0 <= i < |rules| ==> rules[i].JObject?
  }

  function InsertAt<T>(s: seq<T>, i: nat, x: T): seq<T>
    requires i <= |s|
  {
    s[..i] + [x] + s[i..]
  }

  function MergeRules(rules: seq<Json>, hostname: string, service: string): Result<(seq<Json>, Action)>
    requires AreRules(rules)
  {
    var full, fallback := Indexes(rules, FullHost(hostname)), Indexes(rules, Fallback());
    if |full| > 1 then Err
    else if |full| == 1 then
      if Get(rules[full[0]], "service") == JString(service) then Ok((rules, Unchanged))
      else Ok((rules[full[0] := Rerouted(rules[full[0]], hostname, service)], Update))
    else if fallback == [] then Err
    else Ok((InsertAt(rules, fallback[0], DesiredRule(hostname, service)), Create))
  }

  /** `merge_tunnel_ingress`; `valid` stands for the URL check of the origin service. */
  function MergeIngress(config: Json, hostname: string, service: string, valid: string -> bool): Result<(Json, Action)>
    requires config.JObject?
  {
    var ingress := Get(config, "ingress");
    if !valid(service) || !ingress.JList? || !AreRules(ingress.items) then Err
    else
      var merged :- MergeRules(ingress.items, hostname, service);
      Ok((JObject(config.fields["ingress" := JList(merged.0)]), merged.1))
  }

  /** The rule for the hostname after a merge: alone, whole-host, and pointing at the service. */
  ghost predicate RoutedAt(rules: seq<Json>, hostname: string, service: string, i: nat) {
    OnlyAt(rules, FullHost(hostname), i) && Get(rules[i], "service") == JString(service)
  }

  lemma {:induction false} ReroutedOnly(rules: seq<Json>, hostname: string, service: string, i: nat)
    requires AreRules(rules) && OnlyAt(rules, FullHost(hostname), i)
    ensures RoutedAt(rules[i := Rerouted(rules[i], hostname, service)], hostname, service, i)
    ensures AreRules(rules[i := Rerouted(rules[i], hostname, service)])
  {
    var rule := Rerouted(rules[i], hostname, service);
    assert IsFullHost(rules[i], hostname);
    assert Get(rule, "path") == Get(rules[i], "path");
    assert FullHost(hostname)(rule);
  }

  lemma {:induction false} InsertedOnly(rules: seq<Json>, hostname: string, service: string, i: nat)
    requires AreRules(rules) && i <= |rules| && forall j :: 0 <= j < |rules| ==> !FullHost(hostname)(rules[j])
    ensures RoutedAt(InsertAt(rules, i, DesiredRule(hostname, service)), hostname, service, i)
    ensures AreRules(InsertAt(rules, i, DesiredRule(hostname, service)))
  {
    var merged := InsertAt(rules, i, DesiredRule(hostname, service));
    assert FullHost(hostname)(merged[i]);
    forall j | 0 <= j < |merged| && j != i
      ensures !FullHost(hostname)(merged[j]) && merged[j].JObject?
    {
      assert merged[j] == if j < i then rules[j] else rules[j - 1];
    }
  }

  lemma {:induction false} MergeRoutes(rules: seq<Json>, hostname: string, service: string) returns (i: nat)
    requires AreRules(rules) && MergeRules(rules, hostname, service).Ok?
    ensures AreRules(MergeRules(rules, hostname, service).value.0)
    ensures RoutedAt(MergeRules(rules, hostname, service).value.0, hostname, service, i)
    ensures MergedAs(rules, hostname, service, i, MergeRules(rules, hostname, service).value)
  {
    var full, fallback := Indexes(rules, FullHost(hostname)), Indexes(rules, Fallback());
    OneIndex(rules, FullHost(hostname));
    OneIndex(rules, Fallback());
    if |full| == 1 {
      i := full[0];
      ReroutedOnly(rules, hostname, service, i);
    } else {
      i := fallback[0];
      InsertedOnly(rules, hostname, service, i);
      assert forall j :: 0 <= j < i && Fallback()(rules[j]) ==> j in fallback;
    }
  }

  /** How the merged rules come from the old ones. */
  ghost predicate MergedAs(rules: seq<Json>, hostname: string, service: string, i: nat, merged: (seq<Json>, Action))
    requires AreRules(rules)
  {
    && i < |rules|
    && match merged.1
       case Unchanged => merged.0 == rules
       case Update => IsFullHost(rules[i], hostname) && merged.0 == rules[i := Rerouted(rules[i], hostname, service)]
       case Create =>
         && IsFallback(rules[i]) && (forall j :: 0 <= j < i ==> !IsFallback(rules[j]))
         && merged.0 == InsertAt(rules, i, JObject(map["hostname" := JString(hostname), "service" := JString(service)]))
  }

  /** At most one element, and at least one. */
  lemma {:induction false} CountedExactly<T>(s: seq<T>, p: T -> bool)
    ensures |Indexes(s, p)| <= 1 <==> forall i, j :: 0 <= i < j < |s| ==> !(p(s[i]) && p(s[j]))
    ensures Indexes(s, p) != [] <==> exists i :: 0 <= i < |s| && p(s[i])
  {
    var r := Indexes(s, p);
    if |r| > 1 {
      assert p(s[r[0]]) && p(s[r[1]]);
    }
    forall i, j | 0 <= i < j < |s| && p(s[i]) && p(s[j])
      ensures |r| > 1
    {
      var a :| 0 <= a < |r| && r[a] == i;
      var b :| 0 <= b < |r| && r[b] == j;
    }
    if r != [] {
      assert p(s[r[0]]);
    }
  }

  predicate OneFullHost(rules: seq<Json>, hostname: string) {
    forall i, j :: 0 <= i < j < |rules| ==> !(IsFullHost(rules[i], hostname) && IsFullHost(rules[j], hostname))
  }

  predicate HasFullHost(rules: seq<Json>, hostname: string) {
    exists i :: 0 <= i < |rules| && IsFullHost(rules[i], hostname)
  }

  predicate HasFallback(rules: seq<Json>) {
    exists i :: 0 <= i < |rules| && IsFallback(rules[i])
  }

  lemma {:induction false} FullHostsCounted(rules: seq<Json>, hostname: string)
    ensures |Indexes(rules, FullHost(hostname))| <= 1 <==> OneFullHost(rules, hostname)
    ensures Indexes(rules, FullHost(hostname)) != [] <==> HasFullHost(rules, hostname)
  {
    CountedExactly(rules, FullHost(hostname));
    assert forall i :: 0 <= i < |rules| ==> (FullHost(hostname)(rules[i]) <==> IsFullHost(rules[i], hostname));
  }

  lemma {:induction false} FallbacksCounted(rules: seq<Json>)
    ensures Indexes(rules, Fallback()) != [] <==> HasFallback(rules)
  {
    CountedExactly(rules, Fallback());
    assert forall i :: 0 <= i < |rules| ==> (Fallback()(rules[i]) <==> IsFallback(rules[i]));
  }

  /** Rules can be merged exactly when the hostname has at most one whole-host rule, and none only where a catch-all
      leaves a place for it. */
  lemma {:induction false} MergeExactly(rules: seq<Json>, hostname: string, service: string)
    requires AreRules(rules)
    ensures MergeRules(rules, hostname, service).Ok? <==>
              OneFullHost(rules, hostname) && (HasFullHost(rules, hostname) || HasFallback(rules))
  {
    FullHostsCounted(rules, hostname);
    FallbacksCounted(rules);
  }

  /** Nothing is changed exactly when the rule is there and points at the service. */
  lemma {:induction false} MergedExactly(rules: seq<Json>, hostname: string, service: string)
    requires AreRules(rules)
    ensures MergeRules(rules, hostname, service) == Ok((rules, Unchanged)) <==>
              exists i: nat :: RoutedAt(rules, hostname, service, i)
  {
    if MergeRules(rules, hostname, service) == Ok((rules, Unchanged)) {
      OneIndex(rules, FullHost(hostname));
      assert RoutedAt(rules, hostname, service, Indexes(rules, FullHost(hostname))[0]);
    }
    if i: nat :| RoutedAt(rules, hostname, service, i) {
      RoutedIsFixed(rules, hostname, service, i);
    }
  }

  /** Of the configuration only the ingress is changed, and that as its rules are merged; it is refused where the service
      is none, where the ingress is no list of rules, and where the rules cannot be merged. */
  lemma {:induction false} ConfigMerged(config: Json, hostname: string, service: string, valid: string -> bool)
    requires config.JObject?
    ensures MergeIngress(config, hostname, service, valid).Ok? <==>
              && valid(service) && Get(config, "ingress").JList? && AreRules(Get(config, "ingress").items)
              && OneFullHost(Get(config, "ingress").items, hostname)
              && (HasFullHost(Get(config, "ingress").items, hostname) || HasFallback(Get(config, "ingress").items))
    ensures MergeIngress(config, hostname, service, valid).Ok? ==>
              var merged := MergeIngress(config, hostname, service, valid).value;
              && SameBut(config, merged.0, "ingress") && Get(merged.0, "ingress").JList?
              && MergeRules(Get(config, "ingress").items, hostname, service) == Ok((Get(merged.0, "ingress").items, merged.1))
  {
    var ingress := Get(config, "ingress");
    if ingress.JList? && AreRules(ingress.items) {
      MergeExactly(ingress.items, hostname, service);
    }
  }

  lemma {:induction false} RoutedIsFixed(rules: seq<Json>, hostname: string, service: string, i: nat)
    requires AreRules(rules) && RoutedAt(rules, hostname, service, i)
    ensures MergeRules(rules, hostname, service) == Ok((rules, Unchanged))
  {
    OneIndex(rules, FullHost(hostname));
  }

  lemma {:induction false} RoutedConfigIsFixed(
    config: Json, rules: seq<Json>, hostname: string, service: string, valid: string -> bool, i: nat)
    requires config.JObject? && Get(config, "ingress") == JList(rules) && AreRules(rules) && valid(service)
    requires RoutedAt(rules, hostname, service, i)
    ensures MergeIngress(config, hostname, service, valid) == Ok((config, Unchanged))
  {
    RoutedIsFixed(rules, hostname, service, i);
    assert config.fields["ingress" := JList(rules)] == config.fields;
  }

  /** Merging again changes nothing: one merge reaches the fixed point. */
  lemma {:induction false} MergeTwice(config: Json, hostname: string, service: string, valid: string -> bool)
    requires config.JObject? && MergeIngress(config, hostname, service, valid).Ok?
    ensures var merged := MergeIngress(config, hostname, service, valid).value.0;
            merged.JObject? && MergeIngress(merged, hostname, service, valid) == Ok((merged, Unchanged))
  {
    var rules := Get(config, "ingress").items;
    var i := MergeRoutes(rules, hostname, service);
    RoutedConfigIsFixed(MergeIngress(config, hostname, service, valid).value.0,
                        MergeRules(rules, hostname, service).value.0, hostname, service, valid, i);
  }

  // ---- which rule answers a request ----

  datatype Request = Request(host: string, path: string)

  predicate EndsWith(s: string, suffix: string) {
    |suffix| <= |s| && s[|s| - |suffix|..] == suffix
  }

  /** A rule's hostname is one name, or `*.` and a suffix, or empty for any. */
  predicate HostMatches(hostname: Json, host: string) {
    || Falsy(hostname)
    || hostname == JString(host)
    || (hostname.JString? && StartsWith(hostname.text, "*.") && EndsWith(host, hostname.text[1..]))
  }

  predicate Matches(rule: Json, request: Request, pathMatches: (Json, string) -> bool) {
    && HostMatches(Get(rule, "hostname"), request.host)
    && (Falsy(Get(rule, "path")) || pathMatches(Get(rule, "path"), request.path))
  }

  /** The first rule that matches answers. */
  function Answers(rules: seq<Json>, request: Request, pathMatches: (Json, string) -> bool): Option<Json> {
    if rules == [] then None
    else if Matches(rules[0], request, pathMatches) then Some(rules[0])
    else Answers(rules[1..], request, pathMatches)
  }

  lemma {:induction false} AnswersConcat(a: seq<Json>, b: seq<Json>, request: Request, pathMatches: (Json, string) -> bool)
    ensures Answers(a + b, request, pathMatches)
            == if Answers(a, request, pathMatches).Some? then Answers(a, request, pathMatches) else Answers(b, request, pathMatches)
  {
    if a == [] {
      assert a + b == b;
    } else {
      assert (a + b)[1..] == a[1..] + b;
      AnswersConcat(a[1..], b, request, pathMatches);
    }
  }

  lemma {:induction false} AnswersOne(rule: Json, request: Request, pathMatches: (Json, string) -> bool)
    ensures Answers([rule], request, pathMatches) == if Matches(rule, request, pathMatches) then Some(rule) else None
  {
    assert [rule][1..] == [];
  }

  predicate IsPlainName(hostname: string) {
    hostname != "" && !StartsWith(hostname, "*.")
  }

  lemma {:induction false} OthersNotMatched(rule: Json, hostname: string, request: Request, pathMatches: (Json, string) -> bool)
    requires Get(rule, "hostname") == JString(hostname) && IsPlainName(hostname) && request.host != hostname
    ensures !Matches(rule, request, pathMatches)
  {
  }

  lemma {:induction false} ReplacedOutOfSight(
    rules: seq<Json>, i: nat, rule: Json, request: Request, pathMatches: (Json, string) -> bool)
    requires i < |rules| && !Matches(rules[i], request, pathMatches) && !Matches(rule, request, pathMatches)
    ensures Answers(rules[i := rule], request, pathMatches) == Answers(rules, request, pathMatches)
  {
    var a, b := rules[..i], rules[i + 1..];
    assert rules == a + ([rules[i]] + b) && rules[i := rule] == a + ([rule] + b);
    AnswersAround(a, rules[i], b, request, pathMatches);
    AnswersAround(a, rule, b, request, pathMatches);
  }

  lemma {:induction false} InsertedOutOfSight(
    rules: seq<Json>, i: nat, rule: Json, request: Request, pathMatches: (Json, string) -> bool)
    requires i <= |rules| && !Matches(rule, request, pathMatches)
    ensures Answers(InsertAt(rules, i, rule), request, pathMatches) == Answers(rules, request, pathMatches)
  {
    var a, b := rules[..i], rules[i..];
    assert rules == a + b && InsertAt(rules, i, rule) == a + ([rule] + b);
    AnswersAround(a, rule, b, request, pathMatches);
  }

  /** Requests to every other host are answered by the same rule as before. */
  lemma {:induction false} OtherHostsUnchanged(
    rules: seq<Json>, hostname: string, service: string, request: Request, pathMatches: (Json, string) -> bool)
    requires AreRules(rules) && MergeRules(rules, hostname, service).Ok?
    requires IsPlainName(hostname) && request.host != hostname
    ensures Answers(MergeRules(rules, hostname, service).value.0, request, pathMatches) == Answers(rules, request, pathMatches)
  {
    var i := MergeRoutes(rules, hostname, service);
    match MergeRules(rules, hostname, service).value.1
    case Unchanged =>
    case Update =>
      OthersNotMatched(rules[i], hostname, request, pathMatches);
      OthersNotMatched(Rerouted(rules[i], hostname, service), hostname, request, pathMatches);
      ReplacedOutOfSight(rules, i, Rerouted(rules[i], hostname, service), request, pathMatches);
    case Create =>
      OthersNotMatched(DesiredRule(hostname, service), hostname, request, pathMatches);
      InsertedOutOfSight(rules, i, DesiredRule(hostname, service), request, pathMatches);
  }

  /** A rule that does not match may stand anywhere. */
  lemma {:induction false} AnswersAround(a: seq<Json>, rule: Json, b: seq<Json>, request: Request, pathMatches: (Json, string) -> bool)
    requires !Matches(rule, request, pathMatches)
    ensures Answers(a + ([rule] + b), request, pathMatches) == Answers(a + b, request, pathMatches)
  {
    AnswersOne(rule, request, pathMatches);
    AnswersConcat(a, [rule] + b, request, pathMatches);
    AnswersConcat([rule], b, request, pathMatches);
    AnswersConcat(a, b, request, pathMatches);
  }

  predicate NoneMatches(rules: seq<Json>, request: Request, pathMatches: (Json, string) -> bool) {
    forall j :: 0 <= j < |rules| ==> !Matches(rules[j], request, pathMatches)
  }

  lemma {:induction false} NoAnswer(rules: seq<Json>, request: Request, pathMatches: (Json, string) -> bool)
    ensures Answers(rules, request, pathMatches).None? <==> NoneMatches(rules, request, pathMatches)
    ensures Answers(rules, request, pathMatches).Some? ==> Answers(rules, request, pathMatches).value in rules
  {
    if rules != [] {
      NoAnswer(rules[1..], request, pathMatches);
      assert forall j :: 0 < j < |rules| ==> rules[j] == rules[1..][j - 1];
    }
  }

  lemma {:induction false} FirstMatchAt(a: seq<Json>, rule: Json, b: seq<Json>, request: Request, pathMatches: (Json, string) -> bool)
    requires Matches(rule, request, pathMatches) && rule !in a
    ensures Answers(a + ([rule] + b), request, pathMatches) == Some(rule) <==> NoneMatches(a, request, pathMatches)
  {
    AnswersConcat(a, [rule] + b, request, pathMatches);
    AnswersConcat([rule], b, request, pathMatches);
    AnswersOne(rule, request, pathMatches);
    NoAnswer(a, request, pathMatches);
  }

  /** The host itself is answered by its own rule exactly when nothing before that rule takes the request: an
      earlier wildcard, or a rule for one of its paths, still does. */
  lemma {:induction false} HostAnsweredExactly(
    rules: seq<Json>, hostname: string, service: string, request: Request, pathMatches: (Json, string) -> bool) returns (i: nat)
    requires AreRules(rules) && MergeRules(rules, hostname, service).Ok? && request.host == hostname
    ensures var merged := MergeRules(rules, hostname, service).value.0;
            && RoutedAt(merged, hostname, service, i)
            && (Answers(merged, request, pathMatches) == Some(merged[i]) <==> NoneMatches(merged[..i], request, pathMatches))
  {
    i := MergeRoutes(rules, hostname, service);
    RoutedAnswers(MergeRules(rules, hostname, service).value.0, hostname, service, i, request, pathMatches);
  }

  lemma {:induction false} RoutedAnswers(
    rules: seq<Json>, hostname: string, service: string, i: nat, request: Request, pathMatches: (Json, string) -> bool)
    requires RoutedAt(rules, hostname, service, i) && request.host == hostname
    ensures Answers(rules, request, pathMatches) == Some(rules[i]) <==> NoneMatches(rules[..i], request, pathMatches)
  {
    var a, b := rules[..i], rules[i + 1..];
    assert rules == a + ([rules[i]] + b);
    assert FullHost(hostname)(rules[i]);
    assert forall j :: 0 <= j < |a| ==> !FullHost(hostname)(a[j]);
    FirstMatchAt(a, rules[i], b, request, pathMatches);
  }
}
