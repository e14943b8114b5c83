/** The live zone and the two scripts that bring it to the planned state. */
module Zones {
  import opened Basics
  import opened JsonTrees
  import opened Cloudflare
  import opened Reconciliation

  datatype Target = Target(hostname: string, service: string, tunnelId: string, valid: string -> bool)

  datatype State = State(config: Json, dns: seq<DnsRecord>, hostnames: seq<string>, ruleset: Option<Ruleset>)

  /** What every name here satisfies: no trailing dot, lower case, no wildcard. */
  predicate CanonicalName(hostname: string) {
    TrimDots(hostname) == hostname && Lower(hostname) == hostname && IsPlainName(hostname)
  }

  predicate Sound(s: State) {
    && s.config.JObject?
    && DistinctIds(s.dns)
    && (s.ruleset.Some? ==> s.ruleset.value.id != "" && DistinctRuleIds(s.ruleset.value.rules))
  }

  // ---- plans, part by part ----

  predicate IngressPlanned(s: State, t: Target)
    requires Sound(s)
  {
    MergeIngress(s.config, t.hostname, t.service, t.valid).Ok?
  }

  predicate IngressDone(s: State, t: Target)
    requires Sound(s)
  {
    MergeIngress(s.config, t.hostname, t.service, t.valid) == Ok((s.config, Unchanged))
  }

  predicate DnsPlanned(s: State, t: Target, route: bool) {
    PlanDns(s.dns, DesiredDns(t.hostname, t.tunnelId), route).Ok?
  }

  predicate DnsDone(s: State, t: Target, route: bool) {
    DnsPlanned(s, t, route) && PlanDns(s.dns, DesiredDns(t.hostname, t.tunnelId), route).value.action == Unchanged
  }

  predicate WafPlanned(s: State, t: Target) {
    PlanWaf(s.ruleset, t.hostname).Ok?
  }

  predicate WafDone(s: State, t: Target) {
    PlanWaf(s.ruleset, t.hostname) == Ok(KeepRule)
  }

  /** Nothing is left to do for the mTLS script. */
  predicate Converged(s: State, t: Target)
    requires Sound(s)
  {
    IngressDone(s, t) && DnsDone(s, t, false) && Associated(s.hostnames, t.hostname) && WafDone(s, t)
  }

  predicate Plannable(s: State, t: Target)
    requires Sound(s)
  {
    IngressPlanned(s, t) && DnsPlanned(s, t, false) && WafPlanned(s, t)
  }

  predicate RouteConverged(s: State, t: Target)
    requires Sound(s)
  {
    IngressDone(s, t) && DnsDone(s, t, true)
  }

  predicate RoutePlannable(s: State, t: Target)
    requires Sound(s)
  {
    IngressPlanned(s, t) && DnsPlanned(s, t, true)
  }

  // ---- what it means that nothing is left to do ----

  /** One rule of the tunnel is for the whole host, and it points at the service. */
  ghost predicate TunnelRoutes(s: State, t: Target) {
    && t.valid(t.service)
    && Get(s.config, "ingress").JList? && AreRules(Get(s.config, "ingress").items)
    && exists i: nat :: RoutedAt(Get(s.config, "ingress").items, t.hostname, t.service, i)
  }

  /** One record has the name, and it is a proxied alias of the tunnel. */
  ghost predicate NameResolves(s: State, t: Target, route: bool) {
    exists i: nat :: OnlyAt(s.dns, NamedRecord(t.hostname, route), i) && AliasOfTunnel(s.dns[i], t, route)
  }

  predicate AliasOfTunnel(r: DnsRecord, t: Target, route: bool) {
    && r.kind == "CNAME" && r.ttl == 1 && r.proxied
    && Spelled(r.content, route) == Spelled(t.tunnelId + ".cfargotunnel.com", route)
  }

  /** The first firewall rule asks for the certificate, and no other rule of ours is there. */
  predicate CertificateRequired(s: State, t: Target) {
    && s.ruleset.Some? && s.ruleset.value.rules != []
    && IsDesiredWaf(s.ruleset.value.rules[0], t.hostname)
    && forall i :: 0 < i < |s.ruleset.value.rules| ==> s.ruleset.value.rules[i].ref != WAF_RULE_REF
  }

  lemma {:induction false} IngressDoneExactly(s: State, t: Target)
    requires Sound(s)
    ensures IngressDone(s, t) <==> TunnelRoutes(s, t)
  {
    var ingress := Get(s.config, "ingress");
    if t.valid(t.service) && ingress.JList? && AreRules(ingress.items) {
      MergedExactly(ingress.items, t.hostname, t.service);
      var merged := MergeRules(ingress.items, t.hostname, t.service);
      if merged.Ok? {
        assert Get(JObject(s.config.fields["ingress" := JList(merged.value.0)]), "ingress") == JList(merged.value.0);
      }
      assert s.config.fields["ingress" := ingress] == s.config.fields;
    }
  }

  lemma {:induction false} DnsDoneExactly(s: State, t: Target, route: bool)
    requires Sound(s)
    ensures DnsDone(s, t, route) <==> NameResolves(s, t, route)
  {
    var desired := DesiredDns(t.hostname, t.tunnelId);
    var p := NamedRecord(t.hostname, route);
    PlanDnsExactly(s.dns, desired, route);
    OneIndex(s.dns, p);
    if DnsDone(s, t, route) {
      assert OnlyAt(s.dns, p, Indexes(s.dns, p)[0]);
    }
  }

  /** Nothing is left to do exactly when the tunnel routes the host, its name resolves to the tunnel, the certificate
      applies to it and is required of every client. */
  lemma {:induction false} ConvergedExactly(s: State, t: Target)
    requires Sound(s)
    ensures Converged(s, t) <==>
              && TunnelRoutes(s, t) && NameResolves(s, t, false) && CertificateRequired(s, t)
              && exists i :: 0 <= i < |s.hostnames| && Lower(TrimDots(s.hostnames[i])) == t.hostname
    ensures RouteConverged(s, t) <==> TunnelRoutes(s, t) && NameResolves(s, t, true)
  {
    IngressDoneExactly(s, t);
    DnsDoneExactly(s, t, false);
    DnsDoneExactly(s, t, true);
    PlanWafExactly(s.ruleset, t.hostname);
  }

  // ---- what the scripts must leave alone ----

  /** Another record, another associated name or another firewall rule is neither lost, changed nor reordered. */
  ghost predicate OthersKept(a: State, b: State, t: Target, route: bool) {
    && Others(b.dns, NamedRecord(t.hostname, route)) == Others(a.dns, NamedRecord(t.hostname, route))
    && a.hostnames <= b.hostnames
    && Others(RulesOf(b), Managed()) == Others(RulesOf(a), Managed())
  }

  function RulesOf(s: State): seq<WafRule> {
    if s.ruleset.Some? then s.ruleset.value.rules else []
  }

  /** The tunnel configuration is untouched, or is the merged one. */
  ghost predicate IngressKept(a: State, b: State, t: Target)
    requires Sound(a)
  {
    b.config == a.config || (IngressPlanned(a, t) && b.config == MergeIngress(a.config, t.hostname, t.service, t.valid).value.0)
  }

  // ---- ids the service hands out ----

  function Joined(ids: seq<string>): (r: string)
    ensures forall i :: 0 <= i < |ids| ==> |ids[i]| <= |r|
  {
    if ids == [] then "" else Joined(ids[..|ids| - 1]) + ids[|ids| - 1]
  }

  method NewId(ids: seq<string>) returns (id: string)
    ensures id != "" && id !in ids
  {
    id := *;
    if id == "" || id in ids {
      id := Joined(ids) + "x";
    }
  }

  function DnsIds(records: seq<DnsRecord>): (r: seq<string>)
    ensures |r| == |records| && forall i :: 0 <= i < |r| ==> r[i] == records[i].id
  {
    seq(|records|, i requires 0 <= i < |records| => records[i].id)
  }

  function RuleIds(rules: seq<WafRule>): (r: seq<string>)
    ensures |r| == |rules| && forall i :: 0 <= i < |r| ==> r[i] == rules[i].id
  {
    seq(|rules|, i requires 0 <= i < |rules| => rules[i].id)
  }

  lemma {:induction false} CreatedDistinct(records: seq<DnsRecord>, desired: DnsRecord, id: string)
    requires DistinctIds(records) && id != "" && id !in DnsIds(records)
    ensures DistinctIds(Created(records, desired, id))
  {
    assert forall i :: 0 <= i < |records| ==> DnsIds(records)[i] in DnsIds(records);
  }

  lemma {:induction false} UpdatedDistinct(rules: seq<WafRule>, id: string, hostname: string)
    requires DistinctRuleIds(rules)
    ensures DistinctRuleIds(UpdatedRules(rules, id, hostname))
  {
    var at, after := Indexes(rules, WithId(id)), UpdatedRules(rules, id, hostname);
    if at != [] {
      assert WithId(id)(rules[at[0]]);
      forall j | 0 < j < |after|
        ensures after[j] == rules[if j <= at[0] then j - 1 else j]
      {
      }
    }
  }

  lemma {:induction false} FrontDistinct(rules: seq<WafRule>, rule: WafRule)
    requires DistinctRuleIds(rules) && rule.id != "" && rule.id !in RuleIds(rules)
    ensures DistinctRuleIds([rule] + rules)
  {
    assert forall i :: 0 <= i < |rules| ==> RuleIds(rules)[i] in RuleIds(rules);
  }

  // ---- the zone ----

  /** The scripts are the zone's only writer. A request may fail, before or after it took effect. */
  class Zone {
    var config: Json
    var dns: seq<DnsRecord>
    var hostnames: seq<string>
    var ruleset: Option<Ruleset>
    var requests: nat
    var failures: nat

    function Now(): State
      reads this
    {
      State(config, dns, hostnames, ruleset)
    }

    predicate Valid()
      reads this
    {
      Sound(Now())
    }

    constructor (s: State)
      requires Sound(s)
      ensures Valid() && Now() == s && requests == 0 && failures == 0
    {
      config, dns, hostnames, ruleset := s.config, s.dns, s.hostnames, s.ruleset;
      requests, failures := 0, 0;
    }

    method Send() returns (ok: bool, effective: bool)
      modifies this`requests, this`failures
      ensures requests == old(requests) + 1
      ensures failures == old(failures) + (if ok then 0 else 1)
      ensures ok ==> effective
    {
      ok, effective := *, *;
      effective := ok || effective;
      requests := requests + 1;
      failures := if ok then failures else failures + 1;
    }

    method ApplyIngress(t: Target) returns (ok: bool)
      requires Valid() && IngressPlanned(Now(), t)
      modifies this`config, this`requests, this`failures
      ensures Valid()
      ensures config == old(config) || config == MergeIngress(old(config), t.hostname, t.service, t.valid).value.0
      ensures IngressPlanned(Now(), t) && (ok ==> IngressDone(Now(), t))
      ensures old(IngressDone(Now(), t)) ==> ok && requests == old(requests) && failures == old(failures) && config == old(config)
      ensures failures == old(failures) ==> ok
      ensures requests >= old(requests) && failures >= old(failures)
    {
      if NothingToMerge(config, t) {
        UnchangedIsSame(config, t);
        return true;
      }
      var after := MergedConfig(config, t);
      var effective;
      ok, effective := Send();
      if effective {
        config := after;
      }
      SoundWithConfig(old(Now()), config);
    }

    method ApplyDns(t: Target, route: bool) returns (ok: bool)
      requires Valid() && CanonicalName(t.hostname) && DnsPlanned(Now(), t, route)
      modifies this`dns, this`requests, this`failures
      ensures Valid() && DnsPlanned(Now(), t, route) && (ok ==> DnsDone(Now(), t, route))
      ensures Others(dns, NamedRecord(t.hostname, route)) == Others(old(dns), NamedRecord(t.hostname, route))
      ensures old(DnsDone(Now(), t, route)) ==> ok && requests == old(requests) && failures == old(failures) && dns == old(dns)
      ensures failures == old(failures) ==> ok
      ensures requests >= old(requests) && failures >= old(failures)
    {
      var plan := PlanDns(dns, DesiredDns(t.hostname, t.tunnelId), route).value;
      if plan.action == Unchanged {
        return true;
      }
      var after := AfterDns(t, route, plan);
      var effective;
      ok, effective := Send();
      if effective {
        dns := after;
      }
    }

    method AfterDns(t: Target, route: bool, plan: DnsPlan) returns (after: seq<DnsRecord>)
      requires Valid() && CanonicalName(t.hostname)
      requires PlanDns(dns, DesiredDns(t.hostname, t.tunnelId), route) == Ok(plan) && plan.action != Unchanged
      ensures DistinctIds(after) && Others(after, NamedRecord(t.hostname, route)) == Others(dns, NamedRecord(t.hostname, route))
      ensures PlanDns(after, DesiredDns(t.hostname, t.tunnelId), route).Ok?
      ensures PlanDns(after, DesiredDns(t.hostname, t.tunnelId), route).value.action == Unchanged
    {
      var desired := DesiredDns(t.hostname, t.tunnelId);
      if plan.action == Create {
        var id := NewId(DnsIds(dns));
        CreatedIsFixed(dns, desired, route, id);
        CreatedDistinct(dns, desired, id);
        after := Created(dns, desired, id);
      } else {
        ReplacedIsFixed(dns, desired, route);
        after := Replaced(dns, desired, plan.id);
      }
    }

    method ApplyAssociation(t: Target) returns (ok: bool)
      requires Valid() && CanonicalName(t.hostname)
      modifies this`hostnames, this`requests, this`failures
      ensures Valid() && old(hostnames) <= hostnames && (ok ==> Associated(hostnames, t.hostname))
      ensures old(Associated(hostnames, t.hostname)) ==> ok && requests == old(requests) && failures == old(failures) && hostnames == old(hostnames)
      ensures failures == old(failures) ==> ok
      ensures requests >= old(requests) && failures >= old(failures)
    {
      var plan := MergeAssociations(hostnames, t.hostname);
      AssociationsFixed(hostnames, t.hostname);
      ok := true;
      if plan.1 != Unchanged {
        var effective;
        ok, effective := Send();
        if effective {
          hostnames := plan.0;
        }
      }
    }

    method ApplyWaf(t: Target) returns (ok: bool)
      requires Valid() && WafPlanned(Now(), t)
      modifies this`ruleset, this`requests, this`failures
      ensures Valid() && WafPlanned(Now(), t) && (ok ==> WafDone(Now(), t))
      ensures Others(RulesOf(Now()), Managed()) == old(Others(RulesOf(Now()), Managed()))
      ensures old(WafDone(Now(), t)) ==> ok && requests == old(requests) && failures == old(failures) && ruleset == old(ruleset)
      ensures failures == old(failures) ==> ok
      ensures requests >= old(requests) && failures >= old(failures)
    {
      var plan := PlanWaf(ruleset, t.hostname).value;
      if plan == KeepRule {
        return true;
      }
      var after := AfterWaf(t, plan);
      var effective;
      ok, effective := Send();
      if effective {
        ruleset := Some(after);
      }
    }

    method AfterWaf(t: Target, plan: WafPlan) returns (after: Ruleset)
      requires Valid() && PlanWaf(ruleset, t.hostname) == Ok(plan) && plan != KeepRule
      ensures after.id != "" && DistinctRuleIds(after.rules) && PlanWaf(Some(after), t.hostname) == Ok(KeepRule)
      ensures Others(after.rules, Managed()) == Others(RulesOf(Now()), Managed())
    {
      if plan == CreateRuleset {
        var rulesetId := NewId([]);
        var id := NewId([]);
        after := Ruleset(rulesetId, [DesiredWaf(t.hostname).(id := id)]);
        FirstManagedIsFixed(after.rules, rulesetId, t.hostname);
        OthersOfManaged(after.rules[0], Managed());
      } else if plan == CreateRule {
        var id := NewId(RuleIds(ruleset.value.rules));
        var rule := DesiredWaf(t.hostname).(id := id);
        CreatedRuleIsFixed(ruleset.value, t.hostname, rule);
        FrontDistinct(ruleset.value.rules, rule);
        after := ruleset.value.(rules := [rule] + ruleset.value.rules);
      } else {
        UpdatedIsFixed(ruleset.value, t.hostname);
        UpdatedDistinct(ruleset.value.rules, plan.ruleId, t.hostname);
        after := ruleset.value.(rules := UpdatedRules(ruleset.value.rules, plan.ruleId, t.hostname));
      }
    }

    /** The two parts both scripts apply. */
    method ApplyRoute(t: Target, route: bool) returns (ok: bool)
      requires Valid() && CanonicalName(t.hostname) && IngressPlanned(Now(), t) && DnsPlanned(Now(), t, route)
      modifies this`config, this`dns, this`requests, this`failures
      ensures Valid() && IngressPlanned(Now(), t) && DnsPlanned(Now(), t, route)
      ensures IngressKept(old(Now()), Now(), t) && OthersKept(old(Now()), Now(), t, route)
      ensures ok ==> IngressDone(Now(), t) && DnsDone(Now(), t, route)
      ensures old(IngressDone(Now(), t) && DnsDone(Now(), t, route)) ==>
                ok && config == old(config) && dns == old(dns) && requests == old(requests) && failures == old(failures)
      ensures failures == old(failures) ==> ok
      ensures failures >= old(failures)
    {
      ok := ApplyIngress(t);
      if ok {
        ok := ApplyDns(t, route);
      }
    }

    /** The two parts only the mTLS script applies. */
    method ApplyProtection(t: Target) returns (ok: bool)
      requires Valid() && CanonicalName(t.hostname) && WafPlanned(Now(), t)
      modifies this`hostnames, this`ruleset, this`requests, this`failures
      ensures Valid() && WafPlanned(Now(), t) && OthersKept(old(Now()), Now(), t, false)
      ensures ok ==> Associated(hostnames, t.hostname) && WafDone(Now(), t)
      ensures old(Associated(hostnames, t.hostname) && WafDone(Now(), t)) ==>
                ok && hostnames == old(hostnames) && ruleset == old(ruleset) && requests == old(requests) && failures == old(failures)
      ensures failures == old(failures) ==> ok
      ensures failures >= old(failures)
    {
      ok := ApplyAssociation(t);
      if ok {
        ok := ApplyWaf(t);
      }
    }

    /** `apply_configuration`. One complete run reaches the fixed point; a run that is cut short leaves a state
        from which the next one can go on; and at the fixed point nothing is sent. */
    method ApplyConfiguration(t: Target, dryRun: bool) returns (r: Result<()>)
      requires Valid() && CanonicalName(t.hostname)
      modifies this
      ensures Valid() && IngressKept(old(Now()), Now(), t) && OthersKept(old(Now()), Now(), t, false)
      ensures dryRun || !old(Plannable(Now(), t)) ==> Now() == old(Now()) && requests == old(requests) && failures == old(failures)
      ensures r.Ok? ==> old(Plannable(Now(), t))
      ensures old(Plannable(Now(), t)) ==> Plannable(Now(), t)
      ensures r.Ok? && !dryRun ==> Converged(Now(), t)
      ensures old(Converged(Now(), t)) ==> r.Ok? && Now() == old(Now()) && requests == old(requests)
      ensures old(Plannable(Now(), t)) && failures == old(failures) ==> r.Ok?
    {
      if !Plannable(Now(), t) {
        return Err;
      }
      if dryRun {
        return Ok(());
      }
      var ok := ApplyRoute(t, false);
      if ok {
        ok := ApplyProtection(t);
      }
      return if ok then Ok(()) else Err;
    }

    /** The route script: plan, apply, read again, and insist that nothing is left to do, which is never an issue. */
    method ReconcileRoute(t: Target, dryRun: bool) returns (r: Result<()>, converged: bool)
      requires Valid() && CanonicalName(t.hostname)
      modifies this`config, this`dns, this`requests, this`failures
      ensures Valid() && converged
      ensures IngressKept(old(Now()), Now(), t) && OthersKept(old(Now()), Now(), t, true)
      ensures dryRun || !old(RoutePlannable(Now(), t)) ==> Now() == old(Now()) && requests == old(requests) && failures == old(failures)
      ensures r.Ok? ==> old(RoutePlannable(Now(), t))
      ensures old(RoutePlannable(Now(), t)) ==> RoutePlannable(Now(), t)
      ensures r.Ok? && !dryRun ==> RouteConverged(Now(), t)
      ensures old(RoutePlannable(Now(), t)) && failures == old(failures) ==> r.Ok?
    {
      converged := true;
      if !RoutePlannable(Now(), t) {
        return Err, converged;
      }
      if dryRun {
        return Ok(()), converged;
      }
      var ok := ApplyRoute(t, true);
      if !ok {
        return Err, converged;
      }
      converged := RouteConverged(Now(), t);
      return if converged then Ok(()) else Err, converged;
    }
  }

  lemma {:induction false} SoundWithConfig(s: State, config: Json)
    requires Sound(s) && config.JObject?
    ensures Sound(s.(config := config))
  {
  }

  predicate NothingToMerge(config: Json, t: Target)
    requires config.JObject? && MergeIngress(config, t.hostname, t.service, t.valid).Ok?
  {
    MergeIngress(config, t.hostname, t.service, t.valid).value.1 == Unchanged
  }

  function MergedConfig(config: Json, t: Target): (after: Json)
    requires config.JObject? && MergeIngress(config, t.hostname, t.service, t.valid).Ok?
    ensures after.JObject? && MergeIngress(after, t.hostname, t.service, t.valid) == Ok((after, Unchanged))
  {
    MergeTwice(config, t.hostname, t.service, t.valid);
    MergeIngress(config, t.hostname, t.service, t.valid).value.0
  }

  lemma {:induction false} UnchangedIsSame(config: Json, t: Target)
    requires config.JObject? && MergeIngress(config, t.hostname, t.service, t.valid).Ok?
    requires MergeIngress(config, t.hostname, t.service, t.valid).value.1 == Unchanged
    ensures MergeIngress(config, t.hostname, t.service, t.valid) == Ok((config, Unchanged))
  {
    var rules := Get(config, "ingress").items;
    var i := MergeRoutes(rules, t.hostname, t.service);
    assert config.fields["ingress" := JList(rules)] == config.fields;
  }
}
