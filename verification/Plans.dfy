/** The rollback plan: its parts, the file it is written to, and the checks made when it is read back. */
module Plans {
  import opened Basics
  import opened JsonTrees
  import opened Images

  datatype RollbackTarget = RollbackTarget(namespace: string, resource: string, container: string, image: string)

  datatype BootstrapTarget = BootstrapTarget(namespace: string, resource: string, container: string, state: string)

  datatype ProtectedTarget =
    ProtectedTarget(namespace: string, resource: string, container: string, image: string, state: string)

  datatype DeploymentState = DeploymentState(namespace: string, resource: string, strategy: Json, template: Json)

  datatype Plan = Plan(
    previousReleaseSha: string,
    targets: seq<RollbackTarget>,
    bootstrapTargets: seq<BootstrapTarget>,
    protectedTargets: seq<ProtectedTarget>,
    deploymentStates: seq<DeploymentState>)

  const NOT_PRESENT := "not_present_before_rollout"
  const OUTSIDE_SCOPE := "outside_manifest_scope_before_rollout"

  // ---- what a plan must satisfy ----

  datatype Place = Place(namespace: string, resource: string, container: string)

  datatype Workload = Workload(namespace: string, resource: string)

  function TargetPlaces(targets: seq<RollbackTarget>): (r: seq<Place>)
    ensures |r| == |targets|
    ensures forall i :: 0 <= i < |r| ==> r[i] == Place(targets[i].namespace, targets[i].resource, targets[i].container)
  {
    seq(|targets|, i requires 0 <= i < |targets| =>
      Place(targets[i].namespace, targets[i].resource, targets[i].container))
  }

  function BootstrapPlaces(targets: seq<BootstrapTarget>): (r: seq<Place>)
    ensures |r| == |targets|
    ensures forall i :: 0 <= i < |r| ==> r[i] == Place(targets[i].namespace, targets[i].resource, targets[i].container)
  {
    seq(|targets|, i requires 0 <= i < |targets| =>
      Place(targets[i].namespace, targets[i].resource, targets[i].container))
  }

  function ProtectedPlaces(targets: seq<ProtectedTarget>): (r: seq<Place>)
    ensures |r| == |targets|
    ensures forall i :: 0 <= i < |r| ==> r[i] == Place(targets[i].namespace, targets[i].resource, targets[i].container)
  {
    seq(|targets|, i requires 0 <= i < |targets| =>
      Place(targets[i].namespace, targets[i].resource, targets[i].container))
  }

  function Places(p: Plan): seq<Place> {
    TargetPlaces(p.targets) + BootstrapPlaces(p.bootstrapTargets) + ProtectedPlaces(p.protectedTargets)
  }

  function StateWorkloads(states: seq<DeploymentState>): (r: seq<Workload>)
    ensures |r| == |states|
    ensures forall i :: 0 <= i < |r| ==> r[i] == Workload(states[i].namespace, states[i].resource)
  {
    seq(|states|, i requires 0 <= i < |states| => Workload(states[i].namespace, states[i].resource))
  }

  predicate ValidPlace(place: Place) {
    IsKubernetesName(place.namespace) && IsDeploymentResource(place.resource) && IsKubernetesName(place.container)
  }

  predicate ValidTarget(t: RollbackTarget) {
    ValidPlace(Place(t.namespace, t.resource, t.container)) && IsImageDigest(t.image)
  }

  predicate ValidBootstrap(t: BootstrapTarget) {
    ValidPlace(Place(t.namespace, t.resource, t.container)) && t.state == NOT_PRESENT
  }

  predicate ValidProtected(t: ProtectedTarget) {
    ValidPlace(Place(t.namespace, t.resource, t.container)) && IsImageDigest(t.image) && t.state == OUTSIDE_SCOPE
  }

  predicate ValidState(s: DeploymentState) {
    && IsKubernetesName(s.namespace)
    && IsDeploymentResource(s.resource)
    && s.strategy.JObject?
    && Containers(s.template).Some?
    && Containers(s.template).value != []
  }

  /** What the checks of `load_plan` establish for a plan of any version. */
  predicate WellFormed(p: Plan) {
    && IsGitSha(p.previousReleaseSha)
    && (forall i :: 0 <= i < |p.targets| ==> ValidTarget(p.targets[i]))
    && (forall i :: 0 <= i < |p.bootstrapTargets| ==> ValidBootstrap(p.bootstrapTargets[i]))
    && (forall i :: 0 <= i < |p.protectedTargets| ==> ValidProtected(p.protectedTargets[i]))
    && (forall i :: 0 <= i < |p.deploymentStates| ==> ValidState(p.deploymentStates[i]))
    && Places(p) != []
    && NoDuplicates(Places(p))
    && NoDuplicates(StateWorkloads(p.deploymentStates))
  }

  /** The states cover exactly the workloads that own a target. */
  predicate CoversTargets(p: Plan) {
    StateWorkloadSet(p.deploymentStates) == TargetWorkloadSet(p.targets)
  }

  function StateWorkloadSet(states: seq<DeploymentState>): set<Workload> {
    set w | w in StateWorkloads(states)
  }

  function TargetWorkload(t: RollbackTarget): Workload {
    Workload(t.namespace, t.resource)
  }

  function TargetWorkloads(targets: seq<RollbackTarget>): (r: seq<Workload>)
    ensures |r| == |targets| && forall i :: 0 <= i < |r| ==> r[i] == TargetWorkload(targets[i])
  {
    seq(|targets|, i requires 0 <= i < |targets| => TargetWorkload(targets[i]))
  }

  function TargetWorkloadSet(targets: seq<RollbackTarget>): set<Workload> {
    set w | w in TargetWorkloads(targets)
  }

  predicate Loadable(p: Plan) {
    WellFormed(p) && CoversTargets(p)
  }

  // ---- reading a plan file ----

  function RequireText(value: Json, key: string): Result<string> {
    var text := Get(value, key);
    if text.JString? && text.text != "" then Ok(text.text) else Err
  }

  function ParseTarget(value: Json): Result<RollbackTarget> {
    if !value.JObject? || value.fields.Keys != {"namespace", "resource", "container", "image"} then Err else
      var namespace :- RequireText(value, "namespace");
      var resource :- RequireText(value, "resource");
      var container :- RequireText(value, "container");
      var image :- RequireText(value, "image");
      var t := RollbackTarget(namespace, resource, container, image);
      if ValidTarget(t) then Ok(t) else Err
  }

  function ParseBootstrap(value: Json): Result<BootstrapTarget> {
    if !value.JObject? || value.fields.Keys != {"namespace", "resource", "container", "state"} then Err else
      var namespace :- RequireText(value, "namespace");
      var resource :- RequireText(value, "resource");
      var container :- RequireText(value, "container");
      var state :- RequireText(value, "state");
      var t := BootstrapTarget(namespace, resource, container, state);
      if ValidBootstrap(t) then Ok(t) else Err
  }

  function ParseProtected(value: Json): Result<ProtectedTarget> {
    if !value.JObject? || value.fields.Keys != {"namespace", "resource", "container", "image", "state"} then Err else
      var namespace :- RequireText(value, "namespace");
      var resource :- RequireText(value, "resource");
      var container :- RequireText(value, "container");
      var image :- RequireText(value, "image");
      var state :- RequireText(value, "state");
      var t := ProtectedTarget(namespace, resource, container, image, state);
      if ValidProtected(t) then Ok(t) else Err
  }

  function ParseState(value: Json): Result<DeploymentState> {
    if !value.JObject? || value.fields.Keys != {"namespace", "resource", "strategy", "template"} then Err else
      var namespace :- RequireText(value, "namespace");
      var resource :- RequireText(value, "resource");
      var s := DeploymentState(namespace, resource, Get(value, "strategy"), Get(value, "template"));
      if ValidState(s) then Ok(s) else Err
  }

  function ParseList<T>(items: seq<Json>, parse: Json -> Result<T>): Result<seq<T>> {
    if items == [] then
      Ok([])
    else
      var first :- parse(items[0]);
      var rest :- ParseList(items[1..], parse);
      Ok([first] + rest)
  }

  /** A missing list reads as an empty one; the field check has already required it where it must exist. */
  function ParseField<T>(document: Json, key: string, parse: Json -> Result<T>): Result<seq<T>>
    requires document.JObject?
  {
    if key !in document.fields then Ok([])
    else if !document.fields[key].JList? then Err
    else ParseList(document.fields[key].items, parse)
  }

  /** Python compares `true` equal to 1. */
  predicate IsVersion(value: Json, version: nat) {
    value == JNumber(version as real) || (version == 1 && value == JBool(true))
  }

  function ExpectedFields(version: nat): set<string> {
    {"version", "previous_release_sha", "targets"}
    + (if version >= 2 then {"bootstrap_targets"} else {})
    + (if version >= 3 then {"protected_targets"} else {})
    + (if version >= 4 then {"deployment_states"} else {})
  }

  function PlanVersion(document: Json): Result<nat> {
    var version := Get(document, "version");
    if IsVersion(version, 1) then Ok(1)
    else if IsVersion(version, 2) then Ok(2)
    else if IsVersion(version, 3) then Ok(3)
    else if IsVersion(version, 4) then Ok(4)
    else Err
  }

  /** The four versions; Python takes `true` for the first. */
  lemma {:induction false} VersionExactly(document: Json, version: nat)
    ensures PlanVersion(document) == Ok(version) <==>
              && 1 <= version <= 4 && document.JObject? && "version" in document.fields
              && (document.fields["version"] == JNumber(version as real) || (version == 1 && document.fields["version"] == JBool(true)))
  {
  }

  function LoadPlan(document: Json): Result<Plan> {
    if !document.JObject? then Err else
      var version :- PlanVersion(document);
      if document.fields.Keys != ExpectedFields(version) then Err else
        var sha :- RequireText(document, "previous_release_sha");
        var targets :- ParseField(document, "targets", ParseTarget);
        var bootstraps :- ParseField(document, "bootstrap_targets", ParseBootstrap);
        var protecteds :- ParseField(document, "protected_targets", ParseProtected);
        var states :- ParseField(document, "deployment_states", ParseState);
        var p := Plan(sha, targets, bootstraps, protecteds, states);
        if Consistent(p) && (version == 4 ==> CoversTargets(p)) then Ok(p) else Err
  }

  /** The checks made across the parts of a parsed plan. */
  predicate Consistent(p: Plan) {
    && IsGitSha(p.previousReleaseSha)
    && Places(p) != []
    && NoDuplicates(Places(p))
    && NoDuplicates(StateWorkloads(p.deploymentStates))
  }

  // ---- writing a plan file ----

  function TargetJson(t: RollbackTarget): Json {
    JObject(map["namespace" := JString(t.namespace), "resource" := JString(t.resource),
                "container" := JString(t.container), "image" := JString(t.image)])
  }

  function BootstrapJson(t: BootstrapTarget): Json {
    JObject(map["namespace" := JString(t.namespace), "resource" := JString(t.resource),
                "container" := JString(t.container), "state" := JString(t.state)])
  }

  function ProtectedJson(t: ProtectedTarget): Json {
    JObject(map["namespace" := JString(t.namespace), "resource" := JString(t.resource),
                "container" := JString(t.container), "image" := JString(t.image), "state" := JString(t.state)])
  }

  function StateJson(s: DeploymentState): Json {
    JObject(map["namespace" := JString(s.namespace), "resource" := JString(s.resource),
                "strategy" := s.strategy, "template" := s.template])
  }

  function ListJson<T>(items: seq<T>, json: T -> Json): Json {
    JList(seq(|items|, i requires 0 <= i < |items| => json(items[i])))
  }

  function WritePlan(p: Plan): Json {
    JObject(map[
      "version" := JNumber(4.0),
      "previous_release_sha" := JString(p.previousReleaseSha),
      "targets" := ListJson(p.targets, TargetJson),
      "bootstrap_targets" := ListJson(p.bootstrapTargets, BootstrapJson),
      "protected_targets" := ListJson(p.protectedTargets, ProtectedJson),
      "deployment_states" := ListJson(p.deploymentStates, StateJson)])
  }

  // ---- the round trip ----

  lemma {:induction false} TargetRoundTrip(t: RollbackTarget)
    ensures ParseTarget(TargetJson(t)) == if ValidTarget(t) then Ok(t) else Err
  {
    assert TargetJson(t).fields.Keys == {"namespace", "resource", "container", "image"};
  }

  lemma {:induction false} BootstrapRoundTrip(t: BootstrapTarget)
    ensures ParseBootstrap(BootstrapJson(t)) == if ValidBootstrap(t) then Ok(t) else Err
  {
    assert BootstrapJson(t).fields.Keys == {"namespace", "resource", "container", "state"};
  }

  lemma {:induction false} ProtectedRoundTrip(t: ProtectedTarget)
    ensures ParseProtected(ProtectedJson(t)) == if ValidProtected(t) then Ok(t) else Err
  {
    assert ProtectedJson(t).fields.Keys == {"namespace", "resource", "container", "image", "state"};
  }

  lemma {:induction false} StateRoundTrip(s: DeploymentState)
    ensures ParseState(StateJson(s)) == if ValidState(s) then Ok(s) else Err
  {
    assert StateJson(s).fields.Keys == {"namespace", "resource", "strategy", "template"};
  }

  lemma {:induction false} ListRoundTrip<T>(items: seq<T>, json: T -> Json, parse: Json -> Result<T>, valid: T -> bool)
    requires forall i :: 0 <= i < |items| ==> parse(json(items[i])) == if valid(items[i]) then Ok(items[i]) else Err
    ensures ParseList(ListJson(items, json).items, parse)
            == if forall i :: 0 <= i < |items| ==> valid(items[i]) then Ok(items) else Err
  {
    if items != [] {
      var rest := items[1..];
      ListRoundTrip(rest, json, parse, valid);
      assert ListJson(items, json).items[0] == json(items[0]);
      assert ListJson(items, json).items[1..] == ListJson(rest, json).items;
      assert items == [items[0]] + rest;
      assert forall i :: 0 < i < |items| ==> items[i] == rest[i - 1];
      assert forall i :: 0 <= i < |rest| ==> rest[i] == items[i + 1];
    }
  }

  lemma {:induction false} TargetsFieldRoundTrip(p: Plan)
    ensures ParseField(WritePlan(p), "targets", ParseTarget)
            == if forall i :: 0 <= i < |p.targets| ==> ValidTarget(p.targets[i]) then Ok(p.targets) else Err
  {
    forall i | 0 <= i < |p.targets| {
      TargetRoundTrip(p.targets[i]);
    }
    ListRoundTrip(p.targets, TargetJson, ParseTarget, ValidTarget);
  }

  lemma {:induction false} BootstrapsFieldRoundTrip(p: Plan)
    ensures ParseField(WritePlan(p), "bootstrap_targets", ParseBootstrap)
            == if forall i :: 0 <= i < |p.bootstrapTargets| ==> ValidBootstrap(p.bootstrapTargets[i])
               then Ok(p.bootstrapTargets) else Err
  {
    forall i | 0 <= i < |p.bootstrapTargets| {
      BootstrapRoundTrip(p.bootstrapTargets[i]);
    }
    ListRoundTrip(p.bootstrapTargets, BootstrapJson, ParseBootstrap, ValidBootstrap);
  }

  lemma {:induction false} ProtectedsFieldRoundTrip(p: Plan)
    ensures ParseField(WritePlan(p), "protected_targets", ParseProtected)
            == if forall i :: 0 <= i < |p.protectedTargets| ==> ValidProtected(p.protectedTargets[i])
               then Ok(p.protectedTargets) else Err
  {
    forall i | 0 <= i < |p.protectedTargets| {
      ProtectedRoundTrip(p.protectedTargets[i]);
    }
    ListRoundTrip(p.protectedTargets, ProtectedJson, ParseProtected, ValidProtected);
  }

  lemma {:induction false} StatesFieldRoundTrip(p: Plan)
    ensures ParseField(WritePlan(p), "deployment_states", ParseState)
            == if forall i :: 0 <= i < |p.deploymentStates| ==> ValidState(p.deploymentStates[i])
               then Ok(p.deploymentStates) else Err
  {
    forall i | 0 <= i < |p.deploymentStates| {
      StateRoundTrip(p.deploymentStates[i]);
    }
    ListRoundTrip(p.deploymentStates, StateJson, ParseState, ValidState);
  }

  lemma {:induction false} HeaderRoundTrip(p: Plan)
    ensures WritePlan(p).fields.Keys == ExpectedFields(4)
    ensures PlanVersion(WritePlan(p)) == Ok(4)
    ensures RequireText(WritePlan(p), "previous_release_sha")
            == if p.previousReleaseSha != "" then Ok(p.previousReleaseSha) else Err
  {
    assert Get(WritePlan(p), "version") == JNumber(4.0);
  }

  /** A written plan is read back unchanged exactly when it meets every check; otherwise it is refused. */
  lemma {:induction false} PlanRoundTrip(p: Plan)
    ensures LoadPlan(WritePlan(p)) == if Loadable(p) then Ok(p) else Err
  {
    HeaderRoundTrip(p);
    TargetsFieldRoundTrip(p);
    BootstrapsFieldRoundTrip(p);
    ProtectedsFieldRoundTrip(p);
    StatesFieldRoundTrip(p);
  }

  // ---- files of the older versions ----

  /** A plan in the file format of version 1, 2 or 3, which had no states, no protected targets before version 3 and
      no bootstrap targets before version 2. */
  function WriteOlder(p: Plan, version: nat): Json {
    var header := map["version" := JNumber(version as real), "previous_release_sha" := JString(p.previousReleaseSha),
                      "targets" := ListJson(p.targets, TargetJson)];
    var bootstraps := map["bootstrap_targets" := ListJson(p.bootstrapTargets, BootstrapJson)];
    var protecteds := map["protected_targets" := ListJson(p.protectedTargets, ProtectedJson)];
    JObject(if version == 1 then header else if version == 2 then header + bootstraps else header + bootstraps + protecteds)
  }

  predicate FitsVersion(p: Plan, version: nat) {
    p.deploymentStates == [] && (version < 3 ==> p.protectedTargets == []) && (version < 2 ==> p.bootstrapTargets == [])
  }

  lemma {:induction false} OlderHeader(p: Plan, version: nat)
    requires 1 <= version <= 3
    ensures WriteOlder(p, version).fields.Keys == ExpectedFields(version) && PlanVersion(WriteOlder(p, version)) == Ok(version)
    ensures RequireText(WriteOlder(p, version), "previous_release_sha")
            == if p.previousReleaseSha != "" then Ok(p.previousReleaseSha) else Err
    ensures "deployment_states" !in WriteOlder(p, version).fields
  {
    assert Get(WriteOlder(p, version), "version") == JNumber(version as real);
  }

  lemma {:induction false} OlderLists(p: Plan, version: nat)
    requires 1 <= version <= 3 && FitsVersion(p, version)
    ensures ParseField(WriteOlder(p, version), "targets", ParseTarget) == ParseField(WritePlan(p), "targets", ParseTarget)
    ensures ParseField(WriteOlder(p, version), "bootstrap_targets", ParseBootstrap)
            == ParseField(WritePlan(p), "bootstrap_targets", ParseBootstrap)
    ensures ParseField(WriteOlder(p, version), "protected_targets", ParseProtected)
            == ParseField(WritePlan(p), "protected_targets", ParseProtected)
  {
    assert ListJson(p.bootstrapTargets, BootstrapJson).items == [] <==> p.bootstrapTargets == [];
    assert ListJson(p.protectedTargets, ProtectedJson).items == [] <==> p.protectedTargets == [];
  }

  /** A file of an older version loads exactly when the plan in it is well formed, and gives that plan. */
  lemma {:induction false} OlderRoundTrip(p: Plan, version: nat)
    requires 1 <= version <= 3 && FitsVersion(p, version)
    ensures LoadPlan(WriteOlder(p, version)) == if WellFormed(p) then Ok(p) else Err
  {
    OlderHeader(p, version);
    OlderLists(p, version);
    TargetsFieldRoundTrip(p);
    BootstrapsFieldRoundTrip(p);
    ProtectedsFieldRoundTrip(p);
  }

  /** A file that loads is of one of the four versions and has exactly the fields of that version. */
  lemma {:induction false} LoadedFields(document: Json)
    requires LoadPlan(document).Ok?
    ensures document.JObject? && "version" in document.fields
    ensures var version, keys := document.fields["version"], document.fields.Keys;
            || ((version == JNumber(1.0) || version == JBool(true)) && keys == {"version", "previous_release_sha", "targets"})
            || (version == JNumber(2.0) && keys == {"version", "previous_release_sha", "targets", "bootstrap_targets"})
            || (version == JNumber(3.0) && keys == {"version", "previous_release_sha", "targets", "bootstrap_targets", "protected_targets"})
            || (version == JNumber(4.0) && keys == {"version", "previous_release_sha", "targets", "bootstrap_targets",
                                                     "protected_targets", "deployment_states"})
  {
    var p := LoadedParts(document);
  }

  lemma {:induction false} ParsedListValid<T>(items: seq<Json>, parse: Json -> Result<T>, valid: T -> bool)
    requires forall j :: parse(j).Ok? ==> valid(parse(j).value)
    requires ParseList(items, parse).Ok?
    ensures forall i :: 0 <= i < |ParseList(items, parse).value| ==> valid(ParseList(items, parse).value[i])
  {
    if items != [] {
      ParsedListValid(items[1..], parse, valid);
    }
  }

  lemma {:induction false} LoadedParts(document: Json) returns (p: Plan)
    requires LoadPlan(document).Ok?
    ensures p == LoadPlan(document).value && Consistent(p) && document.JObject?
    ensures ParseField(document, "targets", ParseTarget) == Ok(p.targets)
    ensures ParseField(document, "bootstrap_targets", ParseBootstrap) == Ok(p.bootstrapTargets)
    ensures ParseField(document, "protected_targets", ParseProtected) == Ok(p.protectedTargets)
    ensures ParseField(document, "deployment_states", ParseState) == Ok(p.deploymentStates)
    ensures PlanVersion(document) == Ok(4) ==> CoversTargets(p)
    ensures PlanVersion(document) != Ok(4) ==> "deployment_states" !in document.fields
  {
    p := LoadPlan(document).value;
  }

  /** Whatever the file held, a plan that loads is well formed, and a version 4 plan covers its targets. */
  lemma {:induction false} LoadedPlanWellFormed(document: Json)
    requires LoadPlan(document).Ok?
    ensures WellFormed(LoadPlan(document).value)
    ensures PlanVersion(document) == Ok(4) ==> CoversTargets(LoadPlan(document).value)
    ensures PlanVersion(document) != Ok(4) ==> LoadPlan(document).value.deploymentStates == []
  {
    var p := LoadedParts(document);
    PartsWellFormed(document, p);
    ParsedFieldValid(document, "deployment_states", ParseState, ValidState);
  }

  lemma {:induction false} PartsWellFormed(document: Json, p: Plan)
    requires document.JObject? && Consistent(p)
    requires ParseField(document, "targets", ParseTarget) == Ok(p.targets)
    requires ParseField(document, "bootstrap_targets", ParseBootstrap) == Ok(p.bootstrapTargets)
    requires ParseField(document, "protected_targets", ParseProtected) == Ok(p.protectedTargets)
    requires ParseField(document, "deployment_states", ParseState) == Ok(p.deploymentStates)
    ensures WellFormed(p)
  {
    LoadedTargetsValid(document, p.targets);
    LoadedBootstrapsValid(document, p.bootstrapTargets);
    LoadedProtectedsValid(document, p.protectedTargets);
    LoadedStatesValid(document, p.deploymentStates);
  }

  lemma {:induction false} LoadedTargetsValid(document: Json, loaded: seq<RollbackTarget>)
    requires document.JObject? && ParseField(document, "targets", ParseTarget) == Ok(loaded)
    ensures forall i :: 0 <= i < |loaded| ==> ValidTarget(loaded[i])
  {
    ParsedFieldValid(document, "targets", ParseTarget, ValidTarget);
  }

  lemma {:induction false} LoadedBootstrapsValid(document: Json, loaded: seq<BootstrapTarget>)
    requires document.JObject? && ParseField(document, "bootstrap_targets", ParseBootstrap) == Ok(loaded)
    ensures forall i :: 0 <= i < |loaded| ==> ValidBootstrap(loaded[i])
  {
    ParsedFieldValid(document, "bootstrap_targets", ParseBootstrap, ValidBootstrap);
  }

  lemma {:induction false} LoadedProtectedsValid(document: Json, loaded: seq<ProtectedTarget>)
    requires document.JObject? && ParseField(document, "protected_targets", ParseProtected) == Ok(loaded)
    ensures forall i :: 0 <= i < |loaded| ==> ValidProtected(loaded[i])
  {
    ParsedFieldValid(document, "protected_targets", ParseProtected, ValidProtected);
  }

  lemma {:induction false} LoadedStatesValid(document: Json, loaded: seq<DeploymentState>)
    requires document.JObject? && ParseField(document, "deployment_states", ParseState) == Ok(loaded)
    ensures forall i :: 0 <= i < |loaded| ==> ValidState(loaded[i])
  {
    ParsedFieldValid(document, "deployment_states", ParseState, ValidState);
  }

  lemma {:induction false} ParsedFieldValid<T>(document: Json, key: string, parse: Json -> Result<T>, valid: T -> bool)
    requires forall j :: parse(j).Ok? ==> valid(parse(j).value)
    requires document.JObject?
    ensures ParseField(document, key, parse).Ok? ==>
              forall i :: 0 <= i < |ParseField(document, key, parse).value| ==> valid(ParseField(document, key, parse).value[i])
    ensures key !in document.fields ==> ParseField(document, key, parse) == Ok([])
  {
    if ParseField(document, key, parse).Ok? && key in document.fields {
      ParsedListValid(document.fields[key].items, parse, valid);
    }
  }
}
