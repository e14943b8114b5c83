/** Planning and applying the Cloudflare configuration against the live zone, request by request. */
module Reconciliation {
  import opened Basics
  import opened JsonTrees
  import opened Cloudflare

  function TrimDots(s: string): string {
    if s != "" && s[|s| - 1] == '.' then TrimDots(s[..|s| - 1]) else s
  }

  /** Nothing but trailing dots goes, and all of them. */
  lemma {:induction false} TrimDotsMeaning(s: string)
    ensures TrimDots(s) <= s && (forall i :: |TrimDots(s)| <= i < |s| ==> s[i] == '.')
    ensures TrimDots(s) != "" ==> TrimDots(s)[|TrimDots(s)| - 1] != '.'
  {
    if s != "" && s[|s| - 1] == '.' {
      TrimDotsMeaning(s[..|s| - 1]);
    }
  }

  // ---- what is left alone ----

  /** The elements a script does not manage, in their order. */
  function Others<T>(s: seq<T>, p: T -> bool): seq<T> {
    if s == [] then [] else Others(s[..|s| - 1], p) + (if p(s[|s| - 1]) then [] else [s[|s| - 1]])
  }

  lemma {:induction false} OthersConcat<T>(a: seq<T>, b: seq<T>, p: T -> bool)
    ensures Others(a + b, p) == Others(a, p) + Others(b, p)
  {
    if b == [] {
      assert a + b == a;
    } else {
      var k := |b| - 1;
      assert (a + b)[..|a + b| - 1] == a + b[..k];
      OthersConcat(a, b[..k], p);
    }
  }

  lemma {:induction false} OthersOfManaged<T>(x: T, p: T -> bool)
    requires p(x)
    ensures Others([x], p) == []
  {
    assert [x][..0] == [];
  }

  lemma {:induction false} OthersOfChanged<T>(a: seq<T>, b: seq<T>, p: T -> bool)
    requires |a| == |b| && forall i :: 0 <= i < |a| ==> a[i] == b[i] || (p(a[i]) && p(b[i]))
    ensures Others(a, p) == Others(b, p)
  {
    if a != [] {
      OthersOfChanged(a[..|a| - 1], b[..|b| - 1], p);
    }
  }

  // ---- DNS ----

  datatype DnsRecord = DnsRecord(id: string, kind: string, name: string, content: string, ttl: int, proxied: bool)

  datatype DnsPlan = DnsPlan(action: Action, id: string)

  function DesiredDns(hostname: string, tunnelId: string): DnsRecord {
    DnsRecord("", "CNAME", hostname, tunnelId + ".cfargotunnel.com", 1, true)
  }

  /** The two scripts compare names and contents as they are, or in lower case. */
  function Spelled(s: string, lower: bool): string {
    if lower then Lower(TrimDots(s)) else TrimDots(s)
  }

  function NamedRecord(hostname: string, lower: bool): DnsRecord -> bool {
    (r: DnsRecord) => Spelled(r.name, lower) == hostname
  }

  predicate Equivalent(r: DnsRecord, desired: DnsRecord, lower: bool) {
    && r.kind == desired.kind
    && Spelled(r.content, lower) == Spelled(desired.content, lower)
    && r.ttl == desired.ttl
    && r.proxied
  }

  /** `plan_dns_record`. The mTLS script compares case and refuses another record type; the route script ignores
      case, needs an id, and replaces whatever record has the name. */
  function PlanDns(records: seq<DnsRecord>, desired: DnsRecord, route: bool): Result<DnsPlan> {
    var exact := Indexes(records, NamedRecord(desired.name, route));
    if exact == [] then Ok(DnsPlan(Create, ""))
    else if |exact| != 1 then Err
    else
      var current := records[exact[0]];
      if (if route then current.id == "" else current.kind != "CNAME") then Err
      else Ok(DnsPlan(if Equivalent(current, desired, route) then Unchanged else Update, current.id))
  }

  predicate DistinctIds(records: seq<DnsRecord>) {
    && (forall i :: 0 <= i < |records| ==> records[i].id != "")
    && forall i, j :: 0 <= i < j < |records| ==> records[i].id != records[j].id
  }

  function Created(records: seq<DnsRecord>, desired: DnsRecord, id: string): seq<DnsRecord> {
    records + [desired.(id := id)]
  }

  function Replaced(records: seq<DnsRecord>, desired: DnsRecord, id: string): (r: seq<DnsRecord>)
    ensures |r| == |records|
    ensures forall i :: 0 <= i < |r| ==> r[i] == if records[i].id == id then desired.(id := id) else records[i]
  {
    seq(|records|, i requires 0 <= i < |records| => if records[i].id == id then desired.(id := id) else records[i])
  }

  /** The name is spelled the way the script compares it. */
  predicate Canonical(desired: DnsRecord, route: bool) {
    Spelled(desired.name, route) == desired.name && desired.kind == "CNAME" && desired.proxied
  }

  lemma {:induction false} AppendedOnly<T>(s: seq<T>, p: T -> bool, x: T)
    requires p(x) && forall i :: 0 <= i < |s| ==> !p(s[i])
    ensures OnlyAt(s + [x], p, |s|)
  {
  }

  lemma {:induction false} OnlyRecordPlanned(records: seq<DnsRecord>, desired: DnsRecord, route: bool, i: nat)
    requires OnlyAt(records, NamedRecord(desired.name, route), i)
    requires records[i].id != "" && records[i].kind == "CNAME"
    ensures PlanDns(records, desired, route)
            == Ok(DnsPlan(if Equivalent(records[i], desired, route) then Unchanged else Update, records[i].id))
  {
    OneIndex(records, NamedRecord(desired.name, route));
  }

  /** The plan for a name: create where no record has it, refuse where two have; the one that has it is refused by the
      mTLS script when it is no CNAME and by the route script when it has no id, and otherwise kept exactly when it is
      a proxied record of the same type, content and lifetime. */
  lemma {:induction false} PlanDnsExactly(records: seq<DnsRecord>, desired: DnsRecord, route: bool)
    ensures (forall i :: 0 <= i < |records| ==> Spelled(records[i].name, route) != desired.name) ==>
              PlanDns(records, desired, route) == Ok(DnsPlan(Create, ""))
    ensures forall i, j :: (0 <= i < j < |records| && Spelled(records[i].name, route) == Spelled(records[j].name, route) == desired.name)
              ==> PlanDns(records, desired, route).Err?
    ensures forall i: nat :: OnlyAt(records, NamedRecord(desired.name, route), i) ==>
              var r := records[i];
              PlanDns(records, desired, route)
              == if (route && r.id == "") || (!route && r.kind != "CNAME") then Err
                 else if r.kind == desired.kind && Spelled(r.content, route) == Spelled(desired.content, route)
                         && r.ttl == desired.ttl && r.proxied
                 then Ok(DnsPlan(Unchanged, r.id)) else Ok(DnsPlan(Update, r.id))
  {
    var p := NamedRecord(desired.name, route);
    OneIndex(records, p);
    assert forall i :: 0 <= i < |records| ==> (p(records[i]) <==> Spelled(records[i].name, route) == desired.name);
    forall i, j | 0 <= i < j < |records| && p(records[i]) && p(records[j])
      ensures PlanDns(records, desired, route).Err?
    {
      assert i in Indexes(records, p) && j in Indexes(records, p);
    }
  }

  lemma {:induction false} CreatedIsFixed(records: seq<DnsRecord>, desired: DnsRecord, route: bool, id: string)
    requires PlanDns(records, desired, route).Ok? && PlanDns(records, desired, route).value.action == Create
    requires Canonical(desired, route) && id != ""
    ensures PlanDns(Created(records, desired, id), desired, route) == Ok(DnsPlan(Unchanged, id))
    ensures Others(Created(records, desired, id), NamedRecord(desired.name, route)) == Others(records, NamedRecord(desired.name, route))
  {
    OthersConcat(records, [desired.(id := id)], NamedRecord(desired.name, route));
    OthersOfManaged(desired.(id := id), NamedRecord(desired.name, route));
    OneIndex(records, NamedRecord(desired.name, route));
    AppendedOnly(records, NamedRecord(desired.name, route), desired.(id := id));
    OnlyRecordPlanned(Created(records, desired, id), desired, route, |records|);
  }

  lemma {:induction false} ReplacedIsFixed(records: seq<DnsRecord>, desired: DnsRecord, route: bool)
    requires PlanDns(records, desired, route).Ok? && PlanDns(records, desired, route).value.action == Update
    requires Canonical(desired, route) && DistinctIds(records)
    ensures var id := PlanDns(records, desired, route).value.id;
            && PlanDns(Replaced(records, desired, id), desired, route) == Ok(DnsPlan(Unchanged, id))
            && Others(Replaced(records, desired, id), NamedRecord(desired.name, route)) == Others(records, NamedRecord(desired.name, route))
  {
    var p := NamedRecord(desired.name, route);
    OneIndex(records, p);
    var i := Indexes(records, p)[0];
    var after := Replaced(records, desired, records[i].id);
    assert p(after[i]);
    forall j | 0 <= j < |after| && j != i
      ensures after[j] == records[j] && !p(after[j])
    {
      assert records[j].id != records[i].id;
    }
    assert OnlyAt(after, p, i);
    OneIndex(after, p);
    OthersOfChanged(records, after, p);
  }

  /** The one record of that name is of another type. */
  ghost predicate OtherType(records: seq<DnsRecord>, hostname: string) {
    exists i: nat :: OnlyAt(records, NamedRecord(hostname, false), i) && records[i].kind != "CNAME"
  }

  predicate LowerCase(r: DnsRecord) {
    Lower(TrimDots(r.name)) == TrimDots(r.name) && Lower(TrimDots(r.content)) == TrimDots(r.content)
  }

  /** On lower-case data with ids the two planners agree, except that only the route script replaces a record of
      another type. */
  lemma {:induction false} PlannersAgreeExactly(records: seq<DnsRecord>, desired: DnsRecord)
    requires DistinctIds(records) && desired.kind == "CNAME" && LowerCase(desired)
    requires forall i :: 0 <= i < |records| ==> LowerCase(records[i])
    ensures PlanDns(records, desired, true) == PlanDns(records, desired, false) <==> !OtherType(records, desired.name)
  {
    var p := NamedRecord(desired.name, false);
    forall i | 0 <= i < |records|
      ensures NamedRecord(desired.name, true)(records[i]) == p(records[i])
    {
      assert LowerCase(records[i]);
    }
    SameIndexes(records, NamedRecord(desired.name, true), p);
    OneIndex(records, p);
    if |Indexes(records, p)| == 1 {
      assert LowerCase(records[Indexes(records, p)[0]]);
    }
  }

  lemma {:induction false} SameIndexes<T>(s: seq<T>, p: T -> bool, q: T -> bool)
    requires forall i :: 0 <= i < |s| ==> p(s[i]) == q(s[i])
    ensures Indexes(s, p) == Indexes(s, q)
  {
    if s != [] {
      SameIndexes(s[..|s| - 1], p, q);
    }
  }

  // ---- client-certificate hostnames ----

  predicate Associated(hostnames: seq<string>, hostname: string) {
    exists i :: 0 <= i < |hostnames| && Lower(TrimDots(hostnames[i])) == hostname
  }

  /** `merge_hostname_associations`. */
  function MergeAssociations(hostnames: seq<string>, hostname: string): (seq<string>, Action) {
    if Associated(hostnames, hostname) then (hostnames, Unchanged) else (hostnames + [hostname], Update)
  }

  lemma {:induction false} AssociationsFixed(hostnames: seq<string>, hostname: string)
    requires Lower(TrimDots(hostname)) == hostname
    ensures var merged := MergeAssociations(hostnames, hostname).0;
            && hostnames <= merged && |merged| <= |hostnames| + 1
            && (merged == hostnames <==> exists i :: 0 <= i < |hostnames| && Lower(TrimDots(hostnames[i])) == hostname)
            && (merged != hostnames ==> merged[|hostnames|] == hostname)
            && MergeAssociations(merged, hostname) == (merged, Unchanged)
  {
    var merged := MergeAssociations(hostnames, hostname).0;
    assert !Associated(hostnames, hostname) ==> Lower(TrimDots(merged[|hostnames|])) == hostname;
  }

  // ---- the firewall rule ----

  datatype WafRule = WafRule(id: string, ref: string, action: string, expression: string, description: string, enabled: bool)

  datatype Ruleset = Ruleset(id: string, rules: seq<WafRule>)

  datatype WafPlan = KeepRule | CreateRuleset | CreateRule | UpdateRule(ruleId: string)

  const WAF_RULE_REF := "require_mtls_dev_k8s_woonyong_org"

  function DesiredWaf(hostname: string): WafRule {
    WafRule("", WAF_RULE_REF, "block",
            "(http.host eq \"" + hostname + "\" and not cf.tls_client_auth.cert_verified)",
            "Require a valid mTLS client certificate for " + hostname, true)
  }

  function Managed(): WafRule -> bool {
    (r: WafRule) => r.ref == WAF_RULE_REF
  }

  /** `plan_waf_rule`: the rule must be first, and as desired. */
  function PlanWaf(ruleset: Option<Ruleset>, hostname: string): Result<WafPlan> {
    if ruleset.None? then Ok(CreateRuleset)
    else if ruleset.value.id == "" then Err
    else
      var rules := ruleset.value.rules;
      var matches := Indexes(rules, Managed());
      if |matches| > 1 then Err
      else if matches == [] then Ok(CreateRule)
      else
        var current := rules[matches[0]];
        if matches[0] == 0 && current.(id := "") == DesiredWaf(hostname) then Ok(KeepRule)
        else if current.id == "" then Err
        else Ok(UpdateRule(current.id))
  }

  /** There is nothing to do exactly when the first rule is the desired one and no other carries its reference. */
  lemma {:induction false} PlanWafExactly(ruleset: Option<Ruleset>, hostname: string)
    ensures PlanWaf(ruleset, hostname) == Ok(CreateRuleset) <==> ruleset.None?
    ensures PlanWaf(ruleset, hostname) == Ok(KeepRule) <==>
              && ruleset.Some? && ruleset.value.id != "" && ruleset.value.rules != []
              && IsDesiredWaf(ruleset.value.rules[0], hostname)
              && forall i :: 0 < i < |ruleset.value.rules| ==> ruleset.value.rules[i].ref != WAF_RULE_REF
    ensures PlanWaf(ruleset, hostname) == Ok(CreateRule) <==>
              && ruleset.Some? && ruleset.value.id != ""
              && forall i :: 0 <= i < |ruleset.value.rules| ==> ruleset.value.rules[i].ref != WAF_RULE_REF
  {
    if ruleset.Some? {
      var rules := ruleset.value.rules;
      OneIndex(rules, Managed());
      assert forall i :: 0 <= i < |rules| ==> (Managed()(rules[i]) <==> rules[i].ref == WAF_RULE_REF);
      if rules != [] && IsDesiredWaf(rules[0], hostname) && forall i :: 0 < i < |rules| ==> rules[i].ref != WAF_RULE_REF {
        assert OnlyAt(rules, Managed(), 0);
      }
    }
  }

  /** A rule that blocks every request to the host without a verified client certificate. */
  predicate IsDesiredWaf(rule: WafRule, hostname: string) {
    && rule.ref == WAF_RULE_REF && rule.action == "block" && rule.enabled
    && rule.expression == "(http.host eq \"" + hostname + "\" and not cf.tls_client_auth.cert_verified)"
    && rule.description == "Require a valid mTLS client certificate for " + hostname
  }

  function WithId(id: string): WafRule -> bool {
    (r: WafRule) => r.id == id
  }

  /** A patched rule keeps its place when it is first, and is moved to the front otherwise. */
  function UpdatedRules(rules: seq<WafRule>, id: string, hostname: string): seq<WafRule> {
    var at := Indexes(rules, WithId(id));
    if at == [] then rules
    else [DesiredWaf(hostname).(id := id)] + rules[..at[0]] + rules[at[0] + 1..]
  }

  predicate DistinctRuleIds(rules: seq<WafRule>) {
    && (forall i :: 0 <= i < |rules| ==> rules[i].id != "")
    && forall i, j :: 0 <= i < j < |rules| ==> rules[i].id != rules[j].id
  }

  lemma {:induction false} FirstManagedIsFixed(rules: seq<WafRule>, rulesetId: string, hostname: string)
    requires rulesetId != "" && rules != [] && rules[0].(id := "") == DesiredWaf(hostname)
    requires forall j :: 0 < j < |rules| ==> rules[j].ref != WAF_RULE_REF
    ensures PlanWaf(Some(Ruleset(rulesetId, rules)), hostname) == Ok(KeepRule)
  {
    assert Managed()(rules[0]);
    assert OnlyAt(rules, Managed(), 0);
    OneIndex(rules, Managed());
  }

  lemma {:induction false} UpdatedAt(rules: seq<WafRule>, hostname: string, i: nat)
    requires OnlyAt(rules, Managed(), i) && DistinctRuleIds(rules)
    ensures UpdatedRules(rules, rules[i].id, hostname) == [DesiredWaf(hostname).(id := rules[i].id)] + rules[..i] + rules[i + 1..]
  {
    assert WithId(rules[i].id)(rules[i]) && OnlyAt(rules, WithId(rules[i].id), i);
    OneIndex(rules, WithId(rules[i].id));
  }

  lemma {:induction false} MovedToFront(rules: seq<WafRule>, rule: WafRule, i: nat)
    requires OnlyAt(rules, Managed(), i) && Managed()(rule)
    ensures var after := [rule] + rules[..i] + rules[i + 1..];
            && (forall j :: 0 < j < |after| ==> after[j].ref != WAF_RULE_REF)
            && Others(after, Managed()) == Others(rules, Managed())
  {
    var a, b, after := rules[..i], rules[i + 1..], [rule] + rules[..i] + rules[i + 1..];
    forall j | 0 < j < |after|
      ensures after[j].ref != WAF_RULE_REF
    {
      var k := if j <= i then j - 1 else j;
      assert after[j] == rules[k] && !Managed()(rules[k]);
    }
    assert rules == a + [rules[i]] + b;
    OthersConcat(a + [rules[i]], b, Managed());
    OthersConcat(a, [rules[i]], Managed());
    OthersConcat([rule] + a, b, Managed());
    OthersConcat([rule], a, Managed());
    OthersOfManaged(rules[i], Managed());
    OthersOfManaged(rule, Managed());
  }

  lemma {:induction false} UpdatedIsFixed(ruleset: Ruleset, hostname: string)
    requires PlanWaf(Some(ruleset), hostname).Ok? && PlanWaf(Some(ruleset), hostname).value.UpdateRule?
    requires DistinctRuleIds(ruleset.rules)
    ensures var after := UpdatedRules(ruleset.rules, PlanWaf(Some(ruleset), hostname).value.ruleId, hostname);
            && PlanWaf(Some(ruleset.(rules := after)), hostname) == Ok(KeepRule)
            && Others(after, Managed()) == Others(ruleset.rules, Managed())
  {
    OneIndex(ruleset.rules, Managed());
    var i := Indexes(ruleset.rules, Managed())[0];
    var rule := DesiredWaf(hostname).(id := ruleset.rules[i].id);
    UpdatedAt(ruleset.rules, hostname, i);
    MovedToFront(ruleset.rules, rule, i);
    FirstManagedIsFixed([rule] + ruleset.rules[..i] + ruleset.rules[i + 1..], ruleset.id, hostname);
  }

  lemma {:induction false} CreatedRuleIsFixed(ruleset: Ruleset, hostname: string, rule: WafRule)
    requires PlanWaf(Some(ruleset), hostname) == Ok(CreateRule) && rule.(id := "") == DesiredWaf(hostname)
    ensures PlanWaf(Some(ruleset.(rules := [rule] + ruleset.rules)), hostname) == Ok(KeepRule)
    ensures Others([rule] + ruleset.rules, Managed()) == Others(ruleset.rules, Managed())
  {
    OthersConcat([rule], ruleset.rules, Managed());
    OthersOfManaged(rule, Managed());
    OneIndex(ruleset.rules, Managed());
    NoneManaged(ruleset.rules);
    FirstManagedIsFixed([rule] + ruleset.rules, ruleset.id, hostname);
  }

  lemma {:induction false} NoneManaged(rules: seq<WafRule>)
    requires forall i :: 0 <= i < |rules| ==> !Managed()(rules[i])
    ensures forall i :: 0 <= i < |rules| ==> rules[i].ref != WAF_RULE_REF
  {
  }
}
