/** Turning a live namespace and the expected containers of a release into a rollback plan. */
module Capture {
  import opened Basics
  import opened JsonTrees
  import opened Images
  import opened Ordering
  import opened Clusters
  import opened Inventories
  import opened Plans

  // ---- attested tags ----

  /** `TAG=DIGEST`. */
  function ParseAttestation(value: string): Result<(string, string)> {
    var mark := FirstIndex(value, '=');
    if mark == 0 || mark >= |value| - 1 || HasSpace(value) then Err
    else Ok((value[..mark], value[mark + 1..]))
  }

  /** What counts as an attestation: a tag without `=`, the sign, and something after it, all without white space. */
  lemma {:induction false} AttestationExactly(value: string, tag: string, digest: string)
    ensures ParseAttestation(value) == Ok((tag, digest)) <==>
              value == tag + "=" + digest && tag != "" && digest != "" && '=' !in tag && !HasSpace(value)
  {
    if ParseAttestation(value) == Ok((tag, digest)) {
      assert value == value[..|tag|] + [value[|tag|]] + value[|tag| + 1..];
    }
    if value == tag + "=" + digest && '=' !in tag {
      assert value[|tag|] == '=' && forall k :: 0 <= k < |tag| ==> value[k] == tag[k];
      assert FirstIndex(value, '=') == |tag|;
      assert value[..|tag|] == tag && value[|tag| + 1..] == digest;
    }
  }

  function AddAttestation(verified: map<string, string>, value: string): Result<map<string, string>> {
    var parsed :- ParseAttestation(value);
    var (source, digest) := parsed;
    if source in verified || !IsImageDigest(digest) then Err
    else
      var tagged :- ImageRepository(source);
      var pinned :- ImageRepository(digest);
      if tagged != pinned then Err else Ok(verified[source := digest])
  }

  /** Every attestation pins a tag to a digest of the same repository. */
  ghost predicate Attests(verified: map<string, string>) {
    forall tag :: tag in verified ==>
      && IsImageDigest(verified[tag])
      && ImageRepository(tag).Ok?
      && ImageRepository(tag) == ImageRepository(verified[tag])
  }

  function AddAttestations(verified: map<string, string>, values: seq<string>): Result<map<string, string>>
    decreases |values|
  {
    if values == [] then Ok(verified)
    else
      var next :- AddAttestation(verified, values[0]);
      AddAttestations(next, values[1..])
  }

  method ParseVerifiedLiveImages(values: seq<string>) returns (r: Result<map<string, string>>)
    ensures r == AddAttestations(map[], values)
  {
    var verified: map<string, string> := map[];
    for i := 0 to |values|
      invariant AddAttestations(map[], values) == AddAttestations(verified, values[i..])
    {
      assert values[i..][0] == values[i] && values[i..][1..] == values[i + 1..];
      var next := AddAttestation(verified, values[i]);
      if next.Err? {
        return Err;
      }
      verified := next.value;
    }
    return Ok(verified);
  }

  lemma {:induction false} AttestationStep(verified: map<string, string>, value: string)
    requires Attests(verified) && AddAttestation(verified, value).Ok?
    ensures ParseAttestation(value).Ok?
    ensures ParseAttestation(value).value.0 !in verified
    ensures AddAttestation(verified, value).value
            == verified[ParseAttestation(value).value.0 := ParseAttestation(value).value.1]
    ensures Attests(AddAttestation(verified, value).value)
  {
  }

  /** `after` adds to `before` the attestations of `values`, each under its own tag, and nothing else. */
  ghost predicate AddsAttestations(before: map<string, string>, after: map<string, string>, values: seq<string>) {
    && (forall tag :: tag in before ==> tag in after && after[tag] == before[tag])
    && (forall i :: 0 <= i < |values| ==> HoldsAttestation(after, values[i]))
    && (forall tag :: tag in after && tag !in before ==>
          exists i :: 0 <= i < |values| && ParseAttestation(values[i]) == Ok((tag, after[tag])))
  }

  predicate HoldsAttestation(verified: map<string, string>, value: string) {
    var parsed := ParseAttestation(value);
    parsed.Ok? && parsed.value.0 in verified && verified[parsed.value.0] == parsed.value.1
  }

  /** Accepted attestations pin every given tag, to its own digest, and nothing else. */
  lemma {:induction false} AttestationsMeaning(verified: map<string, string>, values: seq<string>)
    requires Attests(verified) && AddAttestations(verified, values).Ok?
    ensures Attests(AddAttestations(verified, values).value)
    ensures AddsAttestations(verified, AddAttestations(verified, values).value, values)
    decreases |values|
  {
    if values != [] {
      AttestationStep(verified, values[0]);
      var next := AddAttestation(verified, values[0]).value;
      AttestationsMeaning(next, values[1..]);
      AttestationsTogether(verified, next, AddAttestations(next, values[1..]).value, values);
    }
  }

  lemma {:induction false} AttestationsTogether(
    before: map<string, string>, next: map<string, string>, after: map<string, string>, values: seq<string>)
    requires values != [] && ParseAttestation(values[0]).Ok?
    requires ParseAttestation(values[0]).value.0 !in before
    requires next == before[ParseAttestation(values[0]).value.0 := ParseAttestation(values[0]).value.1]
    requires AddsAttestations(next, after, values[1..])
    ensures AddsAttestations(before, after, values)
  {
    var rest := values[1..];
    assert forall i :: 0 < i < |values| ==> values[i] == rest[i - 1];
    forall tag | tag in after && tag !in before
      ensures exists i :: 0 <= i < |values| && ParseAttestation(values[i]) == Ok((tag, after[tag]))
    {
      if tag in next {
        assert ParseAttestation(values[0]) == Ok((tag, after[tag]));
      } else {
        var i :| 0 <= i < |rest| && ParseAttestation(rest[i]) == Ok((tag, after[tag]));
        assert values[i + 1] == rest[i];
      }
    }
  }

  // ---- the plan ----

  datatype Request = Request(
    expected: seq<Ident>,
    namespace: string,
    previousReleaseSha: string,
    verified: map<string, string>,
    repository: Option<string>)

  /** The lists and the set `build_plan` fills as it goes. */
  datatype Draft = Draft(
    targets: seq<RollbackTarget>,
    bootstraps: seq<BootstrapTarget>,
    protecteds: seq<ProtectedTarget>,
    used: set<string>)

  const EMPTY_DRAFT := Draft([], [], [], {})

  /** The digest recorded for a live image: its own, or the one its tag is attested to have. */
  function Recorded(image: string, verified: map<string, string>): Option<string> {
    if IsImageDigest(image) then Some(image)
    else if image in verified then Some(verified[image])
    else None
  }

  function UsedTags(image: string): set<string> {
    if IsImageDigest(image) then {} else {image}
  }

  predicate IsLiveDeployment(inv: Inventory, name: string) {
    exists ident :: ident in inv.images && ident.deployment == name
  }

  function CaptureExpected(d: Draft, ident: Ident, inv: Inventory, q: Request): Result<Draft> {
    if ident in inv.images then
      var image := inv.images[ident];
      if Recorded(image, q.verified).None? then Err
      else
        var target := RollbackTarget(q.namespace, Resource(ident.deployment), ident.container, Recorded(image, q.verified).value);
        Ok(d.(targets := d.targets + [target], used := d.used + UsedTags(image)))
    else if IsLiveDeployment(inv, ident.deployment) then Err
    else Ok(d.(bootstraps := d.bootstraps + [BootstrapTarget(q.namespace, Resource(ident.deployment), ident.container, NOT_PRESENT)]))
  }

  function CaptureProtected(d: Draft, ident: Ident, inv: Inventory, q: Request): Result<Draft>
    requires ident in inv.images && q.repository.Some?
  {
    var image := inv.images[ident];
    if ident in q.expected then Ok(d)
    else
      var repository :- ImageRepository(image);
      if repository != q.repository.value then Ok(d)
      else if Recorded(image, q.verified).None? || Recorded(image, q.verified).value == "" then Err
      else
        var target := ProtectedTarget(
                        q.namespace, Resource(ident.deployment), ident.container, Recorded(image, q.verified).value, OUTSIDE_SCOPE);
        Ok(d.(protecteds := d.protecteds + [target], used := d.used + UsedTags(image)))
  }

  function CaptureAllExpected(d: Draft, idents: seq<Ident>, inv: Inventory, q: Request): Result<Draft>
    decreases |idents|
  {
    if idents == [] then Ok(d)
    else
      var next :- CaptureExpected(d, idents[0], inv, q);
      CaptureAllExpected(next, idents[1..], inv, q)
  }

  function CaptureAllProtected(d: Draft, idents: seq<Ident>, inv: Inventory, q: Request): Result<Draft>
    requires q.repository.Some? && forall i :: 0 <= i < |idents| ==> idents[i] in inv.images
    decreases |idents|
  {
    if idents == [] then Ok(d)
    else
      var next :- CaptureProtected(d, idents[0], inv, q);
      CaptureAllProtected(next, idents[1..], inv, q)
  }

  function TargetResources(targets: seq<RollbackTarget>): seq<string> {
    seq(|targets|, i requires 0 <= i < |targets| => targets[i].resource)
  }

  function FindItem(items: seq<Item>, name: string): Option<Item> {
    if items == [] then None else if items[0].name == name then Some(items[0]) else FindItem(items[1..], name)
  }

  function CaptureState(resource: string, items: seq<Item>, namespace: string): Result<DeploymentState> {
    var item := FindItem(items, NameOf(resource));
    if item.None? || !item.value.spec.strategy.JObject? || !item.value.spec.template.JObject? then Err
    else Ok(DeploymentState(namespace, resource, item.value.spec.strategy, item.value.spec.template))
  }

  function CaptureStates(acc: seq<DeploymentState>, resources: seq<string>, items: seq<Item>, namespace: string): Result<seq<DeploymentState>>
    decreases |resources|
  {
    if resources == [] then Ok(acc)
    else
      var state :- CaptureState(resources[0], items, namespace);
      CaptureStates(acc + [state], resources[1..], items, namespace)
  }

  /** The draft that both passes over the containers leave behind. */
  function CaptureDraft(inv: Inventory, q: Request): Result<Draft>
    requires Ordered(inv)
  {
    var d :- CaptureAllExpected(EMPTY_DRAFT, q.expected, inv, q);
    if q.repository.Some? then CaptureAllProtected(d, inv.order, inv, q) else Ok(d)
  }

  predicate Complete(d: Draft, q: Request) {
    q.verified.Keys <= d.used && (d.targets != [] || d.bootstraps != [] || d.protecteds != [])
  }

  /** `build_plan`. */
  method BuildPlan(q: Request, items: seq<Item>) returns (r: Result<Plan>)
    ensures r == PlanOf(q, items)
  {
    InventoryOrdered(items);
    if !IsKubernetesName(q.namespace) || !IsGitSha(q.previousReleaseSha) {
      return Err;
    }
    var live := LiveDeploymentImages(items);
    if live.Err? {
      return Err;
    }
    var inv := live.value;
    var d := EMPTY_DRAFT;
    for i := 0 to |q.expected|
      invariant CaptureAllExpected(EMPTY_DRAFT, q.expected, inv, q) == CaptureAllExpected(d, q.expected[i..], inv, q)
    {
      assert q.expected[i..][0] == q.expected[i] && q.expected[i..][1..] == q.expected[i + 1..];
      var next := CaptureExpected(d, q.expected[i], inv, q);
      if next.Err? {
        return Err;
      }
      d := next.value;
    }
    if q.repository.Some? {
      ghost var start := d;
      for i := 0 to |inv.order|
        invariant CaptureAllProtected(start, inv.order, inv, q) == CaptureAllProtected(d, inv.order[i..], inv, q)
      {
        assert inv.order[i..][0] == inv.order[i] && inv.order[i..][1..] == inv.order[i + 1..];
        var next := CaptureProtected(d, inv.order[i], inv, q);
        if next.Err? {
          return Err;
        }
        d := next.value;
      }
    }
    if !Complete(d, q) {
      return Err;
    }
    var distinct := NamesDistinct(items);
    if !distinct {
      return Err;
    }
    var states := ReadStates(SortedSet(TargetResources(d.targets), Less), items, q.namespace);
    if states.Err? {
      return Err;
    }
    return Ok(Plan(q.previousReleaseSha, d.targets, d.bootstraps, d.protecteds, states.value));
  }

  /** The last loop of `build_plan`: the state of each workload that owns a target. */
  method ReadStates(resources: seq<string>, items: seq<Item>, namespace: string) returns (r: Result<seq<DeploymentState>>)
    ensures r == CaptureStates([], resources, items, namespace)
  {
    var states: seq<DeploymentState> := [];
    for i := 0 to |resources|
      invariant CaptureStates([], resources, items, namespace) == CaptureStates(states, resources[i..], items, namespace)
    {
      assert resources[i..][0] == resources[i] && resources[i..][1..] == resources[i + 1..];
      var state := CaptureState(resources[i], items, namespace);
      if state.Err? {
        return Err;
      }
      states := states + [state.value];
    }
    return Ok(states);
  }

  method NamesDistinct(items: seq<Item>) returns (distinct: bool)
    ensures distinct == DistinctNames(items)
  {
    var names: set<string> := {};
    for i := 0 to |items|
      invariant forall k :: 0 <= k < i ==> items[k].name in names
      invariant forall name :: name in names ==> exists k :: 0 <= k < i && items[k].name == name
      invariant forall k, l :: 0 <= k < l < i ==> items[k].name != items[l].name
    {
      if items[i].name in names {
        return false;
      }
      names := names + {items[i].name};
    }
    return true;
  }

  lemma {:induction false} InventoryOrdered(items: seq<Item>)
    ensures LiveImages(items).Ok? ==> Ordered(LiveImages(items).value)
  {
    if LiveImages(items).Ok? {
      AddItemsOrdered(EMPTY, items);
    }
  }

  lemma {:induction false} AddItemsOrdered(inv: Inventory, items: seq<Item>)
    requires Ordered(inv) && AddItems(inv, items).Ok?
    ensures Ordered(AddItems(inv, items).value)
    decreases |items|
  {
    if items != [] {
      var containers := Containers(items[0].spec.template).value;
      AddContainersAdds(inv, items[0].name, containers);
      AddItemsOrdered(AddContainers(inv, items[0].name, containers).value, items[1..]);
    }
  }

  function PlanOf(q: Request, items: seq<Item>): Result<Plan> {
    if !IsKubernetesName(q.namespace) || !IsGitSha(q.previousReleaseSha) then Err else
      var inv :- LiveImages(items);
      InventoryOrdered(items);
      var d :- CaptureDraft(inv, q);
      if !Complete(d, q) || !DistinctNames(items) then Err else
        var states :- CaptureStates([], SortedSet(TargetResources(d.targets), Less), items, q.namespace);
        Ok(Plan(q.previousReleaseSha, d.targets, d.bootstraps, d.protecteds, states))
  }
}
