/** What a rollout is about to do: patches for existing workloads, creations for missing ones, and its checks. */
module RolloutPlanning {
  import opened Basics
  import opened JsonTrees
  import opened Images
  import opened Clusters
  import opened Inventories
  import opened Manifests
  import opened Plans

  // ---- patches for existing deployments ----

  datatype Patch = Patch(namespace: string, resource: string, strategy: Json, template: Json)

  datatype PatchDraft = PatchDraft(patches: seq<Patch>, observed: set<Workload>)

  /** The names and the images a workload's containers are patched with. */
  datatype PatchContext = PatchContext(targets: set<string>, live: seq<Json>, image: string)

  /** `live_images.get(name)`: the image of the last live container with that name. */
  function LiveImageOf(live: seq<Json>, name: string): Json {
    if live == [] then JNull
    else if Get(live[|live| - 1], "name") == JString(name) then Get(live[|live| - 1], "image")
    else LiveImageOf(live[..|live| - 1], name)
  }

  function PatchContainer(container: Json, c: PatchContext, seen: set<string>): Result<Json> {
    var name := Get(container, "name");
    if !container.JObject? || !name.JString? || name.text in seen then Err
    else if name.text in c.targets then Ok(WithImage(container, c.image))
    else
      var live, canonical := LiveImageOf(c.live, name.text), Get(container, "image");
      if live != JNull then
        if live.JString? && IsImageDigest(live.text) then Ok(WithImage(container, live.text)) else Err
      else if canonical.JString? && IsImageDigest(canonical.text) then Ok(container)
      else Err
  }

  function PatchContainers(acc: seq<Json>, seen: set<string>, containers: seq<Json>, c: PatchContext): Result<(seq<Json>, set<string>)>
    decreases |containers|
  {
    if containers == [] then Ok((acc, seen))
    else
      var patched :- PatchContainer(containers[0], c, seen);
      PatchContainers(acc + [patched], seen + {Get(containers[0], "name").text}, containers[1..], c)
  }

  /** Every live container is an object and appears in the manifest by name. */
  predicate LiveCovered(live: seq<Json>, names: set<string>) {
    forall i :: 0 <= i < |live| ==>
      live[i].JObject? && Get(live[i], "name").JString? && Get(live[i], "name").text in names
  }

  function PatchTemplate(template: Json, c: PatchContext): Result<Json>
    requires Containers(template).Some?
  {
    var patched :- PatchContainers([], {}, Containers(template).value, c);
    if LiveCovered(c.live, patched.1) then Ok(WithContainers(template, patched.0)) else Err
  }

  function StateNamespaces(states: seq<DeploymentState>, resource: string): set<string> {
    set i | 0 <= i < |states| && states[i].resource == resource :: states[i].namespace
  }

  /** The last state recorded for a workload, as a dictionary keeps it. */
  function StateAt(states: seq<DeploymentState>, w: Workload): Option<DeploymentState> {
    if states == [] then None
    else
      var last := states[|states| - 1];
      if Workload(last.namespace, last.resource) == w then Some(last) else StateAt(states[..|states| - 1], w)
  }

  function TargetNames(targets: seq<RollbackTarget>, w: Workload): set<string> {
    set i | 0 <= i < |targets| && Workload(targets[i].namespace, targets[i].resource) == w :: targets[i].container
  }

  /** The one element of a set that is known to have just one. */
  predicate IsOnly(namespaces: set<string>, namespace: string) {
    namespaces == {namespace}
  }

  function Only(namespaces: set<string>): Result<string> {
    if |namespaces| != 1 then Err
    else
      SingletonOnly(namespaces);
      var namespace :| IsOnly(namespaces, namespace);
      Ok(namespace)
  }

  lemma {:induction false} SingletonOnly(namespaces: set<string>)
    requires |namespaces| == 1
    ensures exists namespace :: IsOnly(namespaces, namespace)
    ensures forall a, b :: IsOnly(namespaces, a) && IsOnly(namespaces, b) ==> a == b
  {
    var x :| x in namespaces;
    assert |namespaces - {x}| == 0;
    assert IsOnly(namespaces, x);
    forall a, b | IsOnly(namespaces, a) && IsOnly(namespaces, b)
      ensures a == b
    {
      assert a in {b};
    }
  }

  predicate NamespaceAgrees(document: Json, namespace: string) {
    var declared := DocumentNamespace(document);
    declared == JNull || declared == JString(namespace)
  }

  /** The document's own strategy, or the captured one when it has none; an explicit null is refused. */
  function DocumentStrategy(document: Json, captured: Json): Json {
    var spec := Get(document, "spec");
    if spec.JObject? && "strategy" in spec.fields then spec.fields["strategy"] else captured
  }

  function PatchDocument(d: PatchDraft, document: Json, p: Plan, image: string): Result<PatchDraft> {
    var name := DocumentName(document);
    if !document.JObject? then Err
    else if !IsDeploymentDocument(document) then Ok(d)
    else if !Get(document, "metadata").JObject? || !name.JString? then Err
    else
      var namespaces := StateNamespaces(p.deploymentStates, Resource(name.text));
      if namespaces == {} then Ok(d)
      else
        var namespace :- Only(namespaces);
        var w := Workload(namespace, Resource(name.text));
        var state := StateAt(p.deploymentStates, w);
        if !NamespaceAgrees(document, namespace) || w in d.observed || DocumentContainers(document).None? || state.None? then Err
        else
          var live := Containers(state.value.template);
          if live.None? || live.value == [] || TargetNames(p.targets, w) == {} then Err
          else
            var template :- PatchTemplate(DocumentTemplate(document), PatchContext(TargetNames(p.targets, w), live.value, image));
            var strategy := DocumentStrategy(document, state.value.strategy);
            if !strategy.JObject? then Err
            else Ok(PatchDraft(d.patches + [Patch(namespace, Resource(name.text), strategy, template)], d.observed + {w}))
  }

  function PatchDocuments(d: PatchDraft, manifest: seq<Json>, p: Plan, image: string): Result<PatchDraft>
    decreases |manifest|
  {
    if manifest == [] then Ok(d)
    else
      var next :- PatchDocument(d, manifest[0], p, image);
      PatchDocuments(next, manifest[1..], p, image)
  }

  function SpecPatches(p: Plan, manifest: seq<Json>, image: string): Result<seq<Patch>> {
    if !IsImageDigest(image) then Err
    else if p.deploymentStates == [] then Ok([])
    else
      var d :- PatchDocuments(PatchDraft([], {}), manifest, p, image);
      if StateWorkloadSet(p.deploymentStates) <= d.observed then Ok(d.patches) else Err
  }

  /** `existing_deployment_spec_patches`. */
  method ExistingDeploymentSpecPatches(p: Plan, manifest: seq<Json>, image: string) returns (r: Result<seq<Patch>>)
    ensures r == SpecPatches(p, manifest, image)
  {
    if !IsImageDigest(image) {
      return Err;
    }
    if p.deploymentStates == [] {
      return Ok([]);
    }
    var d := PatchDraft([], {});
    for i := 0 to |manifest|
      invariant PatchDocuments(PatchDraft([], {}), manifest, p, image) == PatchDocuments(d, manifest[i..], p, image)
    {
      assert manifest[i..][0] == manifest[i] && manifest[i..][1..] == manifest[i + 1..];
      var next := PatchOneDocument(d, manifest[i], p, image);
      if next.Err? {
        return Err;
      }
      d := next.value;
    }
    return if StateWorkloadSet(p.deploymentStates) <= d.observed then Ok(d.patches) else Err;
  }

  /** The body of the document loop, with its own loop over the containers. */
  method PatchOneDocument(d: PatchDraft, document: Json, p: Plan, image: string) returns (r: Result<PatchDraft>)
    ensures r == PatchDocument(d, document, p, image)
  {
    var name := DocumentName(document);
    if !document.JObject? {
      return Err;
    }
    if !IsDeploymentDocument(document) {
      return Ok(d);
    }
    if !Get(document, "metadata").JObject? || !name.JString? {
      return Err;
    }
    var namespaces := StateNamespaces(p.deploymentStates, Resource(name.text));
    if namespaces == {} {
      return Ok(d);
    }
    var only := Only(namespaces);
    if only.Err? {
      return Err;
    }
    var w := Workload(only.value, Resource(name.text));
    var state := StateAt(p.deploymentStates, w);
    if !NamespaceAgrees(document, w.namespace) || w in d.observed || DocumentContainers(document).None? || state.None? {
      return Err;
    }
    var live, targets := Containers(state.value.template), TargetNames(p.targets, w);
    if live.None? || live.value == [] || targets == {} {
      return Err;
    }
    var containers, c := DocumentContainers(document).value, PatchContext(targets, live.value, image);
    var patched: seq<Json>, seen: set<string> := [], {};
    for i := 0 to |containers|
      invariant PatchContainers([], {}, containers, c) == PatchContainers(patched, seen, containers[i..], c)
    {
      assert containers[i..][0] == containers[i] && containers[i..][1..] == containers[i + 1..];
      var next := PatchContainer(containers[i], c, seen);
      if next.Err? {
        return Err;
      }
      patched, seen := patched + [next.value], seen + {Get(containers[i], "name").text};
    }
    var strategy := DocumentStrategy(document, state.value.strategy);
    if !LiveCovered(live.value, seen) || !strategy.JObject? {
      return Err;
    }
    var template := WithContainers(DocumentTemplate(document), patched);
    return Ok(PatchDraft(d.patches + [Patch(w.namespace, w.resource, strategy, template)], d.observed + {w}));
  }

  // ---- creations for missing deployments ----

  datatype RenderDraft = RenderDraft(rendered: seq<Creation>, observed: set<Place>)

  function BootstrapPlaceSet(targets: seq<BootstrapTarget>): set<Place> {
    set i | 0 <= i < |targets| :: Place(targets[i].namespace, targets[i].resource, targets[i].container)
  }

  function BootstrapNamespacesOf(targets: seq<BootstrapTarget>, resource: string): set<string> {
    set i | 0 <= i < |targets| && targets[i].resource == resource :: targets[i].namespace
  }

  function RenderContainer(container: Json, place: Workload, p: Plan, image: string): Result<(Json, set<Place>)> {
    var name, source := Get(container, "name"), Get(container, "image");
    if !container.JObject? then Err
    else if !name.JString? || Place(place.namespace, place.resource, name.text) !in BootstrapPlaceSet(p.bootstrapTargets) then
      Ok((container, {}))
    else if !source.JString? || ImageRepository(source.text).Err? || ImageRepository(source.text) != ImageRepository(image) then Err
    else Ok((WithImage(container, image), {Place(place.namespace, place.resource, name.text)}))
  }

  function RenderContainers(acc: seq<Json>, observed: set<Place>, containers: seq<Json>, place: Workload, p: Plan, image: string):
    Result<(seq<Json>, set<Place>)>
    decreases |containers|
  {
    if containers == [] then Ok((acc, observed))
    else
      var rendered :- RenderContainer(containers[0], place, p, image);
      RenderContainers(acc + [rendered.0], observed + rendered.1, containers[1..], place, p, image)
  }

  /** The API server gives a Deployment without a strategy an object of its own. */
  const DEFAULT_STRATEGY := JObject(map["type" := JString("RollingUpdate")])

  function RenderDocument(d: RenderDraft, document: Json, p: Plan, image: string): Result<RenderDraft> {
    var name := DocumentName(document);
    if !document.JObject? then Err
    else if !IsDeploymentDocument(document) then Ok(d)
    else if !Get(document, "metadata").JObject? || !name.JString? then Err
    else
      var namespaces := BootstrapNamespacesOf(p.bootstrapTargets, Resource(name.text));
      if namespaces == {} then Ok(d)
      else
        var namespace :- Only(namespaces);
        if !NamespaceAgrees(document, namespace) || DocumentContainers(document).None? then Err
        else
          var w := Workload(namespace, Resource(name.text));
          var rendered :- RenderContainers([], d.observed, DocumentContainers(document).value, w, p, image);
          var template := WithContainers(DocumentTemplate(document), rendered.0);
          var creation := Creation(Id(namespace, name.text), Deployment(DocumentStrategy(document, DEFAULT_STRATEGY), template));
          Ok(RenderDraft(d.rendered + [creation], rendered.1))
  }

  function RenderDocuments(d: RenderDraft, manifest: seq<Json>, p: Plan, image: string): Result<RenderDraft>
    decreases |manifest|
  {
    if manifest == [] then Ok(d)
    else
      var next :- RenderDocument(d, manifest[0], p, image);
      RenderDocuments(next, manifest[1..], p, image)
  }

  function CreationIds(creations: seq<Creation>): seq<Id> {
    seq(|creations|, i requires 0 <= i < |creations| => creations[i].id)
  }

  function RenderBootstrap(p: Plan, manifest: seq<Json>, image: string): Result<seq<Creation>> {
    if !IsImageDigest(image) then Err
    else if p.bootstrapTargets == [] then Ok([])
    else
      var d :- RenderDocuments(RenderDraft([], {}), manifest, p, image);
      if d.observed == BootstrapPlaceSet(p.bootstrapTargets) && NoDuplicates(CreationIds(d.rendered)) then Ok(d.rendered) else Err
  }

  /** `render_bootstrap_manifest`. */
  method RenderBootstrapManifest(p: Plan, manifest: seq<Json>, image: string) returns (r: Result<seq<Creation>>)
    ensures r == RenderBootstrap(p, manifest, image)
  {
    if !IsImageDigest(image) {
      return Err;
    }
    if p.bootstrapTargets == [] {
      return Ok([]);
    }
    var d := RenderDraft([], {});
    for i := 0 to |manifest|
      invariant RenderDocuments(RenderDraft([], {}), manifest, p, image) == RenderDocuments(d, manifest[i..], p, image)
    {
      assert manifest[i..][0] == manifest[i] && manifest[i..][1..] == manifest[i + 1..];
      var next := RenderOneDocument(d, manifest[i], p, image);
      if next.Err? {
        return Err;
      }
      d := next.value;
    }
    return if d.observed == BootstrapPlaceSet(p.bootstrapTargets) && NoDuplicates(CreationIds(d.rendered)) then Ok(d.rendered) else Err;
  }

  method RenderOneDocument(d: RenderDraft, document: Json, p: Plan, image: string) returns (r: Result<RenderDraft>)
    ensures r == RenderDocument(d, document, p, image)
  {
    var name := DocumentName(document);
    if !document.JObject? {
      return Err;
    }
    if !IsDeploymentDocument(document) {
      return Ok(d);
    }
    if !Get(document, "metadata").JObject? || !name.JString? {
      return Err;
    }
    var namespaces := BootstrapNamespacesOf(p.bootstrapTargets, Resource(name.text));
    if namespaces == {} {
      return Ok(d);
    }
    var only := Only(namespaces);
    if only.Err? || !NamespaceAgrees(document, only.value) || DocumentContainers(document).None? {
      return Err;
    }
    var w, containers := Workload(only.value, Resource(name.text)), DocumentContainers(document).value;
    var rendered: seq<Json>, observed := [], d.observed;
    for i := 0 to |containers|
      invariant RenderContainers([], d.observed, containers, w, p, image)
                == RenderContainers(rendered, observed, containers[i..], w, p, image)
    {
      assert containers[i..][0] == containers[i] && containers[i..][1..] == containers[i + 1..];
      var next := RenderContainer(containers[i], w, p, image);
      if next.Err? {
        return Err;
      }
      rendered, observed := rendered + [next.value.0], observed + next.value.1;
    }
    var template := WithContainers(DocumentTemplate(document), rendered);
    var creation := Creation(Id(only.value, name.text), Deployment(DocumentStrategy(document, DEFAULT_STRATEGY), template));
    return Ok(RenderDraft(d.rendered + [creation], observed));
  }

  // ---- the checks against a fresh inventory ----

  function TargetIdentOf(t: RollbackTarget): Ident {
    Ident(NameOf(t.resource), t.container)
  }

  function BootstrapIdentOf(t: BootstrapTarget): Ident {
    Ident(NameOf(t.resource), t.container)
  }

  function ProtectedIdentOf(t: ProtectedTarget): Ident {
    Ident(NameOf(t.resource), t.container)
  }

  predicate IsTarget(p: Plan, ident: Ident) {
    exists i :: 0 <= i < |p.targets| && TargetIdentOf(p.targets[i]) == ident
  }

  predicate IsBootstrap(p: Plan, ident: Ident) {
    exists i :: 0 <= i < |p.bootstrapTargets| && BootstrapIdentOf(p.bootstrapTargets[i]) == ident
  }

  predicate IsProtected(p: Plan, ident: Ident) {
    exists i :: 0 <= i < |p.protectedTargets| && ProtectedIdentOf(p.protectedTargets[i]) == ident
  }

  /** Protected containers show their captured image, and the repository runs nothing the plan does not know. */
  predicate RepositoryClosed(p: Plan, repository: string, images: map<Ident, string>) {
    && (forall ident :: ident in images ==> ImageRepository(images[ident]).Ok?)
    && (forall i :: 0 <= i < |p.protectedTargets| ==>
          ProtectedIdentOf(p.protectedTargets[i]) in images
          && images[ProtectedIdentOf(p.protectedTargets[i])] == p.protectedTargets[i].image)
    && (forall ident :: ident in images && ImageRepository(images[ident]).value == repository ==>
          IsTarget(p, ident) || IsBootstrap(p, ident) || IsProtected(p, ident))
  }

  predicate VerifyRepositoryRollout(p: Plan, image: string, images: map<Ident, string>, exact: bool) {
    && ImageRepository(image).Ok?
    && (forall i :: 0 <= i < |p.protectedTargets| ==> ImageRepository(p.protectedTargets[i].image) == ImageRepository(image))
    && RepositoryClosed(p, ImageRepository(image).value, images)
    && (forall i :: 0 <= i < |p.targets| ==>
          TargetIdentOf(p.targets[i]) in images && (exact ==> images[TargetIdentOf(p.targets[i])] == image))
    && (forall i :: 0 <= i < |p.bootstrapTargets| ==>
          BootstrapIdentOf(p.bootstrapTargets[i]) in images && (exact ==> images[BootstrapIdentOf(p.bootstrapTargets[i])] == image))
  }

  predicate VerifyPreRolloutState(p: Plan, image: string, images: map<Ident, string>) {
    && ImageRepository(image).Ok?
    && (forall i :: 0 <= i < |p.targets| ==> TargetIdentOf(p.targets[i]) in images)
    && (forall i :: 0 <= i < |p.bootstrapTargets| ==>
          forall ident :: ident in images ==> ident.deployment != NameOf(p.bootstrapTargets[i].resource))
    && RepositoryClosed(p, ImageRepository(image).value, images)
  }

  // ---- the same checks, stated on the cluster ----

  ghost predicate ClosedAt(p: Plan, repository: string, s: State, namespace: string) {
    && (forall ident :: ImageAt(s, namespace, ident).Some? ==> ImageRepository(ImageAt(s, namespace, ident).value).Ok?)
    && (forall i :: 0 <= i < |p.protectedTargets| ==>
          ImageAt(s, namespace, ProtectedIdentOf(p.protectedTargets[i])) == Some(p.protectedTargets[i].image))
    && (forall ident :: ImageAt(s, namespace, ident).Some? && ImageRepository(ImageAt(s, namespace, ident).value) == Ok(repository) ==>
          IsTarget(p, ident) || IsBootstrap(p, ident) || IsProtected(p, ident))
  }

  ghost predicate RolloutVerifiedAt(p: Plan, image: string, s: State, namespace: string, exact: bool) {
    && ImageRepository(image).Ok?
    && (forall i :: 0 <= i < |p.protectedTargets| ==> ImageRepository(p.protectedTargets[i].image) == ImageRepository(image))
    && ClosedAt(p, ImageRepository(image).value, s, namespace)
    && (forall i :: 0 <= i < |p.targets| ==>
          ImageAt(s, namespace, TargetIdentOf(p.targets[i])).Some?
          && (exact ==> ImageAt(s, namespace, TargetIdentOf(p.targets[i])) == Some(image)))
    && (forall i :: 0 <= i < |p.bootstrapTargets| ==>
          ImageAt(s, namespace, BootstrapIdentOf(p.bootstrapTargets[i])).Some?
          && (exact ==> ImageAt(s, namespace, BootstrapIdentOf(p.bootstrapTargets[i])) == Some(image)))
  }

  ghost predicate PreRolloutVerifiedAt(p: Plan, image: string, s: State, namespace: string) {
    && ImageRepository(image).Ok?
    && (forall i :: 0 <= i < |p.targets| ==> ImageAt(s, namespace, TargetIdentOf(p.targets[i])).Some?)
    && (forall i, container :: 0 <= i < |p.bootstrapTargets| ==>
          ImageAt(s, namespace, Ident(NameOf(p.bootstrapTargets[i].resource), container)).None?)
    && ClosedAt(p, ImageRepository(image).value, s, namespace)
  }

  lemma {:induction false} ClosedMeaning(p: Plan, repository: string, images: map<Ident, string>, s: State, namespace: string)
    requires Shows(images, s, namespace)
    ensures RepositoryClosed(p, repository, images) <==> ClosedAt(p, repository, s, namespace)
  {
    assert forall ident :: ident in images <==> ImageAt(s, namespace, ident).Some?;
  }

  /** The checks see the cluster, not the order or the form of the listing they were given. */
  lemma {:induction false} ChecksMeaning(p: Plan, image: string, images: map<Ident, string>, s: State, namespace: string)
    requires Shows(images, s, namespace)
    ensures forall exact :: VerifyRepositoryRollout(p, image, images, exact) <==> RolloutVerifiedAt(p, image, s, namespace, exact)
    ensures VerifyPreRolloutState(p, image, images) <==> PreRolloutVerifiedAt(p, image, s, namespace)
  {
    if ImageRepository(image).Ok? {
      ClosedMeaning(p, ImageRepository(image).value, images, s, namespace);
    }
    forall i | 0 <= i < |p.bootstrapTargets|
      ensures (forall ident :: ident in images ==> ident.deployment != NameOf(p.bootstrapTargets[i].resource)) <==>
              forall container :: ImageAt(s, namespace, Ident(NameOf(p.bootstrapTargets[i].resource), container)).None?
    {
      var name := NameOf(p.bootstrapTargets[i].resource);
      if container :| ImageAt(s, namespace, Ident(name, container)).Some? {
        assert Ident(name, container) in images;
      }
      if ident :| ident in images && ident.deployment == name {
        assert ident == Ident(name, ident.container);
      }
    }
  }
}
