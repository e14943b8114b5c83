/** Which manifests a rollout can work with: exactly what makes the patches and the creations computable. */
module Acceptance {
  import opened Basics
  import opened JsonTrees
  import opened Images
  import opened Clusters
  import opened Manifests
  import opened Plans
  import opened RolloutPlanning
  import opened PatchFacts
  import opened CreationFacts

  // ---- patches ----

  /** A target, or a sidecar whose image is pinned: the live one if it is live, the manifest's if it is new. */
  predicate PatchableContainer(container: Json, c: PatchContext) {
    var name := Get(container, "name");
    && container.JObject? && name.JString?
    && (name.text in c.targets || PinnedImageOf(container, LiveImageOf(c.live, name.text)))
  }

  predicate PinnedImageOf(container: Json, live: Json) {
    var image := if live != JNull then live else Get(container, "image");
    image.JString? && IsImageDigest(image.text)
  }

  predicate Patchable(seen: set<string>, containers: seq<Json>, c: PatchContext) {
    && (forall i :: 0 <= i < |containers| ==> PatchableContainer(containers[i], c) && Get(containers[i], "name").text !in seen)
    && DistinctContainers(containers)
  }

  function NamesOf(containers: seq<Json>): set<string> {
    if containers == [] then {}
    else (if Get(containers[0], "name").JString? then {Get(containers[0], "name").text} else {}) + NamesOf(containers[1..])
  }

  lemma {:induction false} PatchableStep(seen: set<string>, containers: seq<Json>, c: PatchContext)
    requires containers != [] && PatchableContainer(containers[0], c) && Get(containers[0], "name").text !in seen
    ensures Patchable(seen, containers, c) <==> Patchable(seen + {Get(containers[0], "name").text}, containers[1..], c)
  {
    var rest, name := containers[1..], Get(containers[0], "name").text;
    assert forall i :: 0 < i < |containers| ==> containers[i] == rest[i - 1];
    if Patchable(seen, containers, c) {
      forall i | 0 <= i < |rest|
        ensures PatchableContainer(rest[i], c) && Get(rest[i], "name").text !in seen + {name}
      {
        assert rest[i] == containers[i + 1] && Get(containers[0], "name") != Get(containers[i + 1], "name");
      }
    }
    if Patchable(seen + {name}, rest, c) {
      forall j | 0 < j < |containers|
        ensures PatchableContainer(containers[j], c) && Get(containers[j], "name").text !in seen
        ensures Get(containers[0], "name") != Get(containers[j], "name")
      {
        assert PatchableContainer(rest[j - 1], c) && Get(rest[j - 1], "name").text !in seen + {name};
      }
    }
  }

  lemma {:induction false} ContainersAccept(acc: seq<Json>, seen: set<string>, containers: seq<Json>, c: PatchContext)
    ensures PatchContainers(acc, seen, containers, c).Ok? <==> Patchable(seen, containers, c)
    ensures PatchContainers(acc, seen, containers, c).Ok? ==>
              PatchContainers(acc, seen, containers, c).value.1 == seen + NamesOf(containers)
    decreases |containers|
  {
    if containers != [] {
      var first := PatchContainer(containers[0], c, seen);
      assert first.Ok? <==> PatchableContainer(containers[0], c) && Get(containers[0], "name").text !in seen;
      if first.Ok? {
        PatchableStep(seen, containers, c);
        ContainersAccept(acc + [first.value], seen + {Get(containers[0], "name").text}, containers[1..], c);
      }
    }
  }

  /** Every live container is an object and appears in the manifest by name. */
  predicate LiveKept(live: seq<Json>, containers: seq<Json>) {
    forall i :: 0 <= i < |live| ==>
      live[i].JObject? && Get(live[i], "name").JString? && HasName(containers, Get(live[i], "name"))
  }

  lemma {:induction false} NamesOfMeaning(containers: seq<Json>, name: string)
    ensures name in NamesOf(containers) <==> HasName(containers, JString(name))
  {
    if containers != [] {
      NamesOfMeaning(containers[1..], name);
      HasNameCons(containers[0], containers[1..], JString(name));
      assert containers == [containers[0]] + containers[1..];
    }
  }

  lemma {:induction false} LiveKeptExactly(live: seq<Json>, containers: seq<Json>)
    ensures LiveCovered(live, NamesOf(containers)) <==> LiveKept(live, containers)
  {
    forall i | 0 <= i < |live| && live[i].JObject? && Get(live[i], "name").JString?
      ensures Get(live[i], "name").text in NamesOf(containers) <==> HasName(containers, Get(live[i], "name"))
    {
      NamesOfMeaning(containers, Get(live[i], "name").text);
    }
  }

  /** The workload a document is for. */
  function WorkloadNamed(document: Json, p: Plan): Workload
    requires IsPatchedDocument(document, p)
  {
    var resource := Resource(DocumentName(document).text);
    Workload(NamespaceOfState(p.deploymentStates, resource), resource)
  }

  predicate InNamespace(document: Json, namespace: string) {
    DocumentNamespace(document) == JNull || DocumentNamespace(document) == JString(namespace)
  }

  /** The strategy a document gives, or the captured one when it gives none, is an object. */
  predicate HasStrategyObject(document: Json, captured: Json) {
    var spec := Get(document, "spec");
    if spec.JObject? && "strategy" in spec.fields then spec.fields["strategy"].JObject? else captured.JObject?
  }

  predicate OwnsTarget(p: Plan, w: Workload) {
    exists i :: 0 <= i < |p.targets| && TargetWorkload(p.targets[i]) == w
  }

  lemma {:induction false} OwnsTargetExactly(p: Plan, w: Workload)
    ensures TargetNames(p.targets, w) != {} <==> OwnsTarget(p, w)
  {
    if i :| 0 <= i < |p.targets| && TargetWorkload(p.targets[i]) == w {
      assert p.targets[i].container in TargetNames(p.targets, w);
    }
  }

  /** A document that names a captured workload agrees with its namespace, keeps every live container, pins every
      sidecar, and gives an object for its strategy. */
  predicate PatchableDocument(document: Json, p: Plan, image: string) {
    && document.JObject?
    && (IsDeploymentDocument(document) ==> Get(document, "metadata").JObject? && DocumentName(document).JString?)
    && (IsPatchedDocument(document, p) ==>
          var w := WorkloadNamed(document, p);
          && OneStateNamespace(p.deploymentStates, w.resource)
          && InNamespace(document, w.namespace)
          && DocumentContainers(document).Some?
          && var state := StateAt(p.deploymentStates, w);
          && state.Some?
          && Containers(state.value.template).Some? && Containers(state.value.template).value != []
          && OwnsTarget(p, w)
          && HasStrategyObject(document, state.value.strategy)
          && var live := Containers(state.value.template).value;
          && Patchable({}, DocumentContainers(document).value, PatchContext(TargetNames(p.targets, w), live, image))
          && LiveKept(live, DocumentContainers(document).value))
  }

  /** A document for no captured workload is passed over. */
  lemma {:induction false} PatchSkips(d: PatchDraft, document: Json, p: Plan, image: string)
    requires !IsPatchedDocument(document, p)
    ensures PatchDocument(d, document, p, image).Ok? <==> PatchableDocument(document, p, image)
    ensures PatchDocument(d, document, p, image).Ok? ==> PatchDocument(d, document, p, image).value == d
  {
    if DocumentName(document).JString? {
      OnlyStateNamespace(p.deploymentStates, Resource(DocumentName(document).text));
    }
  }

  lemma {:induction false} PatchNamed(d: PatchDraft, document: Json, p: Plan, image: string)
    requires document.JObject? && IsPatchedDocument(document, p) && DocumentContainers(document).Some?
    ensures PatchDocument(d, document, p, image).Ok? <==>
              PatchableDocument(document, p, image) && WorkloadNamed(document, p) !in d.observed
    ensures PatchDocument(d, document, p, image).Ok? ==>
              PatchDocument(d, document, p, image).value.observed == d.observed + {WorkloadNamed(document, p)}
  {
    var w := WorkloadNamed(document, p);
    OnlyStateNamespace(p.deploymentStates, w.resource);
    OwnsTargetExactly(p, w);
    var state := StateAt(p.deploymentStates, w);
    if state.Some? && Containers(state.value.template).Some? {
      var c := PatchContext(TargetNames(p.targets, w), Containers(state.value.template).value, image);
      ContainersAccept([], {}, DocumentContainers(document).value, c);
      LiveKeptExactly(c.live, DocumentContainers(document).value);
      assert {} + NamesOf(DocumentContainers(document).value) == NamesOf(DocumentContainers(document).value);
    }
  }

  lemma {:induction false} DocumentAccepts(d: PatchDraft, document: Json, p: Plan, image: string)
    ensures PatchDocument(d, document, p, image).Ok? <==>
              && PatchableDocument(document, p, image)
              && (IsPatchedDocument(document, p) ==> WorkloadNamed(document, p) !in d.observed)
    ensures PatchDocument(d, document, p, image).Ok? ==>
              PatchDocument(d, document, p, image).value.observed
              == d.observed + (if IsPatchedDocument(document, p) then {WorkloadNamed(document, p)} else {})
  {
    if !IsPatchedDocument(document, p) {
      PatchSkips(d, document, p, image);
    } else if document.JObject? && DocumentContainers(document).Some? {
      PatchNamed(d, document, p, image);
    } else {
      OnlyStateNamespace(p.deploymentStates, Resource(DocumentName(document).text));
    }
  }

  /** The captured workloads the manifest names, document by document. */
  function WorkloadsNamed(manifest: seq<Json>, p: Plan): seq<Workload> {
    if manifest == [] then []
    else (if IsPatchedDocument(manifest[0], p) then [WorkloadNamed(manifest[0], p)] else []) + WorkloadsNamed(manifest[1..], p)
  }

  predicate AllPatchable(manifest: seq<Json>, p: Plan, image: string) {
    forall k :: 0 <= k < |manifest| ==> PatchableDocument(manifest[k], p, image)
  }

  predicate NoneOf(ws: seq<Workload>, observed: set<Workload>) {
    forall i :: 0 <= i < |ws| ==> ws[i] !in observed
  }

  lemma {:induction false} NamedOnce(w: Workload, rest: seq<Workload>, observed: set<Workload>)
    ensures NoDuplicates([w] + rest) && NoneOf([w] + rest, observed) <==>
              w !in observed && NoDuplicates(rest) && NoneOf(rest, observed + {w})
  {
    var all := [w] + rest;
    assert all[0] == w && forall i :: 0 <= i < |rest| ==> all[i + 1] == rest[i];
    if NoDuplicates(all) && NoneOf(all, observed) {
      forall i | 0 <= i < |rest|
        ensures rest[i] !in observed + {w}
      {
        assert all[0] != all[i + 1];
      }
      forall i, j | 0 <= i < j < |rest|
        ensures rest[i] != rest[j]
      {
        assert all[i + 1] != all[j + 1];
      }
    }
  }

  lemma {:induction false} DocumentsAccept(d: PatchDraft, manifest: seq<Json>, p: Plan, image: string)
    ensures PatchDocuments(d, manifest, p, image).Ok? <==>
              && AllPatchable(manifest, p, image)
              && NoDuplicates(WorkloadsNamed(manifest, p))
              && NoneOf(WorkloadsNamed(manifest, p), d.observed)
    ensures PatchDocuments(d, manifest, p, image).Ok? ==>
              PatchDocuments(d, manifest, p, image).value.observed == d.observed + set w | w in WorkloadsNamed(manifest, p)
    decreases |manifest|
  {
    if manifest != [] {
      var first, rest := PatchDocument(d, manifest[0], p, image), manifest[1..];
      DocumentAccepts(d, manifest[0], p, image);
      assert AllPatchable(manifest, p, image) <==> PatchableDocument(manifest[0], p, image) && AllPatchable(rest, p, image) by {
        assert forall k :: 0 < k < |manifest| ==> manifest[k] == rest[k - 1];
        assert forall k :: 0 <= k < |rest| ==> rest[k] == manifest[k + 1];
      }
      if IsPatchedDocument(manifest[0], p) {
        NamedOnce(WorkloadNamed(manifest[0], p), WorkloadsNamed(rest, p), d.observed);
      } else {
        assert WorkloadsNamed(manifest, p) == WorkloadsNamed(rest, p);
      }
      if first.Ok? {
        DocumentsAccept(first.value, rest, p, image);
      }
    }
  }

  /** The patches can be computed exactly when every document can be used and each captured workload has one document. */
  lemma {:induction false} SpecPatchesExactly(p: Plan, manifest: seq<Json>, image: string)
    ensures SpecPatches(p, manifest, image).Ok? <==>
              && IsImageDigest(image)
              && (p.deploymentStates != [] ==>
                    && AllPatchable(manifest, p, image)
                    && NoDuplicates(WorkloadsNamed(manifest, p))
                    && forall w :: w in StateWorkloadSet(p.deploymentStates) ==> w in WorkloadsNamed(manifest, p))
  {
    DocumentsAccept(PatchDraft([], {}), manifest, p, image);
    if PatchDocuments(PatchDraft([], {}), manifest, p, image).Ok? {
      var observed := PatchDocuments(PatchDraft([], {}), manifest, p, image).value.observed;
      assert forall w :: w in observed <==> w in WorkloadsNamed(manifest, p);
    }
  }

  // ---- creations ----

  predicate RenderableContainer(container: Json, w: Workload, p: Plan, image: string) {
    && container.JObject?
    && (IsBootstrapPlace(p, w, Get(container, "name")) ==>
          && Get(container, "image").JString?
          && ImageRepository(Get(container, "image").text).Ok?
          && ImageRepository(Get(container, "image").text) == ImageRepository(image))
  }

  predicate Renderable(containers: seq<Json>, w: Workload, p: Plan, image: string) {
    forall i :: 0 <= i < |containers| ==> RenderableContainer(containers[i], w, p, image)
  }

  lemma {:induction false} RenderContainersAccept(
    acc: seq<Json>, observed: set<Place>, containers: seq<Json>, w: Workload, p: Plan, image: string)
    ensures RenderContainers(acc, observed, containers, w, p, image).Ok? <==> Renderable(containers, w, p, image)
    decreases |containers|
  {
    if containers != [] {
      var first, rest := RenderContainer(containers[0], w, p, image), containers[1..];
      assert first.Ok? <==> RenderableContainer(containers[0], w, p, image);
      assert forall i :: 0 < i < |containers| ==> containers[i] == rest[i - 1];
      assert forall i :: 0 <= i < |rest| ==> rest[i] == containers[i + 1];
      if first.Ok? {
        RenderContainersAccept(acc + [first.value.0], observed + first.value.1, rest, w, p, image);
      }
    }
  }

  predicate IsRenderedDocument(document: Json, p: Plan) {
    && IsDeploymentDocument(document)
    && DocumentName(document).JString?
    && MissingNamedAt(p.bootstrapTargets, Resource(DocumentName(document).text))
  }

  predicate MissingNamedAt(targets: seq<BootstrapTarget>, resource: string) {
    exists i :: 0 <= i < |targets| && targets[i].resource == resource
  }

  /** The namespace of the first missing container in a workload of that name. */
  function NamespaceOfMissing(targets: seq<BootstrapTarget>, resource: string): string {
    if targets == [] then ""
    else if targets[0].resource == resource then targets[0].namespace
    else NamespaceOfMissing(targets[1..], resource)
  }

  predicate OneMissingNamespace(targets: seq<BootstrapTarget>, resource: string) {
    forall i :: 0 <= i < |targets| && targets[i].resource == resource ==> targets[i].namespace == NamespaceOfMissing(targets, resource)
  }

  lemma {:induction false} FirstMissingNamed(targets: seq<BootstrapTarget>, resource: string)
    requires MissingNamedAt(targets, resource)
    ensures NamespaceOfMissing(targets, resource) in BootstrapNamespacesOf(targets, resource)
  {
    if targets[0].resource != resource {
      var rest := targets[1..];
      var i :| 0 <= i < |targets| && targets[i].resource == resource;
      assert rest[i - 1].resource == resource;
      FirstMissingNamed(rest, resource);
      var j :| 0 <= j < |rest| && rest[j].resource == resource && rest[j].namespace == NamespaceOfMissing(rest, resource);
      assert targets[j + 1] == rest[j];
    }
  }

  /** The namespace to create in: there is one exactly when all missing containers of workloads of that name agree on it. */
  lemma {:induction false} OnlyMissingNamespace(targets: seq<BootstrapTarget>, resource: string)
    ensures BootstrapNamespacesOf(targets, resource) != {} <==> MissingNamedAt(targets, resource)
    ensures Only(BootstrapNamespacesOf(targets, resource)).Ok? <==>
              MissingNamedAt(targets, resource) && OneMissingNamespace(targets, resource)
    ensures Only(BootstrapNamespacesOf(targets, resource)).Ok? ==>
              Only(BootstrapNamespacesOf(targets, resource)).value == NamespaceOfMissing(targets, resource)
  {
    var namespaces := BootstrapNamespacesOf(targets, resource);
    OnlyMeaning(namespaces);
    if MissingNamedAt(targets, resource) {
      FirstMissingNamed(targets, resource);
      var namespace := NamespaceOfMissing(targets, resource);
      if OneMissingNamespace(targets, resource) {
        assert namespaces == {namespace};
      }
      if Only(namespaces).Ok? {
        forall i | 0 <= i < |targets| && targets[i].resource == resource
          ensures targets[i].namespace == namespace
        {
          assert targets[i].namespace in namespaces;
        }
      }
    }
  }

  function MissingNamed(document: Json, p: Plan): Workload
    requires IsRenderedDocument(document, p)
  {
    var resource := Resource(DocumentName(document).text);
    Workload(NamespaceOfMissing(p.bootstrapTargets, resource), resource)
  }

  /** A document for a missing workload agrees with its namespace and runs the release's repository where it must. */
  predicate RenderableDocument(document: Json, p: Plan, image: string) {
    && document.JObject?
    && (IsDeploymentDocument(document) ==> Get(document, "metadata").JObject? && DocumentName(document).JString?)
    && (IsRenderedDocument(document, p) ==>
          var w := MissingNamed(document, p);
          && OneMissingNamespace(p.bootstrapTargets, w.resource)
          && InNamespace(document, w.namespace)
          && DocumentContainers(document).Some?
          && Renderable(DocumentContainers(document).value, w, p, image))
  }

  function PlacesNamed(document: Json, p: Plan): set<Place> {
    if IsRenderedDocument(document, p) && DocumentContainers(document).Some?
    then PlacesIn(DocumentContainers(document).value, MissingNamed(document, p), p)
    else {}
  }

  function IdsNamed(document: Json, p: Plan): seq<Id> {
    if IsRenderedDocument(document, p) then [Id(MissingNamed(document, p).namespace, DocumentName(document).text)] else []
  }

  /** The draft has grown by these places and these workloads. */
  predicate Collects(d: RenderDraft, r: RenderDraft, places: set<Place>, ids: seq<Id>) {
    r.observed == d.observed + places && CreationIds(r.rendered) == CreationIds(d.rendered) + ids
  }

  lemma {:induction false} CollectsMore(d: RenderDraft, e: RenderDraft, f: RenderDraft, a: set<Place>, b: set<Place>, s: seq<Id>, t: seq<Id>)
    requires Collects(d, e, a, s) && Collects(e, f, b, t)
    ensures Collects(d, f, a + b, s + t)
  {
  }

  /** A document for no missing workload is passed over. */
  lemma {:induction false} RenderSkips(d: RenderDraft, document: Json, p: Plan, image: string)
    requires !IsRenderedDocument(document, p)
    ensures RenderDocument(d, document, p, image).Ok? <==> RenderableDocument(document, p, image)
    ensures RenderDocument(d, document, p, image).Ok? ==> RenderDocument(d, document, p, image).value == d
  {
    if DocumentName(document).JString? {
      OnlyMissingNamespace(p.bootstrapTargets, Resource(DocumentName(document).text));
    }
  }

  lemma {:induction false} RenderNamed(d: RenderDraft, document: Json, p: Plan, image: string)
    requires document.JObject? && IsRenderedDocument(document, p) && DocumentContainers(document).Some?
    ensures RenderDocument(d, document, p, image).Ok? <==> RenderableDocument(document, p, image)
    ensures RenderDocument(d, document, p, image).Ok? ==>
              Collects(d, RenderDocument(d, document, p, image).value, PlacesNamed(document, p), IdsNamed(document, p))
  {
    var w := MissingNamed(document, p);
    OnlyMissingNamespace(p.bootstrapTargets, w.resource);
    RenderContainersAccept([], d.observed, DocumentContainers(document).value, w, p, image);
    if RenderContainers([], d.observed, DocumentContainers(document).value, w, p, image).Ok? {
      RenderedContainers([], d.observed, DocumentContainers(document).value, w, p, image);
    }
  }

  lemma {:induction false} RenderDocumentAccepts(d: RenderDraft, document: Json, p: Plan, image: string)
    ensures RenderDocument(d, document, p, image).Ok? <==> RenderableDocument(document, p, image)
    ensures RenderDocument(d, document, p, image).Ok? ==>
              Collects(d, RenderDocument(d, document, p, image).value, PlacesNamed(document, p), IdsNamed(document, p))
  {
    if !IsRenderedDocument(document, p) {
      RenderSkips(d, document, p, image);
    } else if document.JObject? && DocumentContainers(document).Some? {
      RenderNamed(d, document, p, image);
    } else {
      OnlyMissingNamespace(p.bootstrapTargets, Resource(DocumentName(document).text));
    }
  }

  function AllPlacesNamed(manifest: seq<Json>, p: Plan): set<Place> {
    if manifest == [] then {} else PlacesNamed(manifest[0], p) + AllPlacesNamed(manifest[1..], p)
  }

  function AllIdsNamed(manifest: seq<Json>, p: Plan): seq<Id> {
    if manifest == [] then [] else IdsNamed(manifest[0], p) + AllIdsNamed(manifest[1..], p)
  }

  predicate AllRenderable(manifest: seq<Json>, p: Plan, image: string) {
    forall k :: 0 <= k < |manifest| ==> RenderableDocument(manifest[k], p, image)
  }

  lemma {:induction false} AllRenderableCons(manifest: seq<Json>, p: Plan, image: string)
    requires manifest != []
    ensures AllRenderable(manifest, p, image) <==> RenderableDocument(manifest[0], p, image) && AllRenderable(manifest[1..], p, image)
  {
    var rest := manifest[1..];
    assert forall k :: 0 < k < |manifest| ==> manifest[k] == rest[k - 1];
    assert forall k :: 0 <= k < |rest| ==> rest[k] == manifest[k + 1];
  }

  lemma {:induction false} RenderDocumentsAccept(d: RenderDraft, manifest: seq<Json>, p: Plan, image: string)
    ensures RenderDocuments(d, manifest, p, image).Ok? <==> AllRenderable(manifest, p, image)
    decreases |manifest|
  {
    if manifest != [] {
      var first := RenderDocument(d, manifest[0], p, image);
      RenderDocumentAccepts(d, manifest[0], p, image);
      AllRenderableCons(manifest, p, image);
      if first.Ok? {
        RenderDocumentsAccept(first.value, manifest[1..], p, image);
      }
    }
  }

  lemma {:induction false} RenderDocumentsCollect(d: RenderDraft, manifest: seq<Json>, p: Plan, image: string)
    requires RenderDocuments(d, manifest, p, image).Ok?
    ensures Collects(d, RenderDocuments(d, manifest, p, image).value, AllPlacesNamed(manifest, p), AllIdsNamed(manifest, p))
    decreases |manifest|
  {
    if manifest != [] {
      var next := RenderDocument(d, manifest[0], p, image).value;
      RenderDocumentAccepts(d, manifest[0], p, image);
      RenderDocumentsCollect(next, manifest[1..], p, image);
      CollectsMore(d, next, RenderDocuments(d, manifest, p, image).value, PlacesNamed(manifest[0], p), AllPlacesNamed(manifest[1..], p),
                   IdsNamed(manifest[0], p), AllIdsNamed(manifest[1..], p));
    }
  }

  /** The creations can be rendered exactly when every document can be used, every missing container has its place
      in one, and no missing workload has two. */
  lemma {:induction false} RenderBootstrapExactly(p: Plan, manifest: seq<Json>, image: string)
    ensures RenderBootstrap(p, manifest, image).Ok? <==>
              && IsImageDigest(image)
              && (p.bootstrapTargets != [] ==>
                    && AllRenderable(manifest, p, image)
                    && AllPlacesNamed(manifest, p) == BootstrapPlaceSet(p.bootstrapTargets)
                    && NoDuplicates(AllIdsNamed(manifest, p)))
  {
    RenderDocumentsAccept(RenderDraft([], {}), manifest, p, image);
    if AllRenderable(manifest, p, image) {
      RenderDocumentsCollect(RenderDraft([], {}), manifest, p, image);
    }
    assert {} + AllPlacesNamed(manifest, p) == AllPlacesNamed(manifest, p);
    assert CreationIds([]) + AllIdsNamed(manifest, p) == AllIdsNamed(manifest, p);
  }

  // ---- no document is passed over ----

  lemma {:induction false} OneRendered(d: RenderDraft, document: Json, p: Plan, image: string) returns (c: Creation)
    requires RenderDocument(d, document, p, image).Ok? && IsRenderedDocument(document, p)
    ensures RenderDocument(d, document, p, image).value.rendered == d.rendered + [c]
    ensures RenderedFrom(c, document, p, image)
  {
    OnlyMissingNamespace(p.bootstrapTargets, Resource(DocumentName(document).text));
    var next := RenderDocument(d, document, p, image).value;
    c := next.rendered[|d.rendered|];
    var w := Workload(c.id.namespace, Resource(c.id.name));
    OnlyMeaning(BootstrapNamespacesOf(p.bootstrapTargets, w.resource));
    RenderedContainers([], d.observed, DocumentContainers(document).value, w, p, image);
    var r := RenderContainers([], d.observed, DocumentContainers(document).value, w, p, image).value;
    assert r.0[0..] == r.0;
  }

  lemma {:induction false} RenderedGrows(d: RenderDraft, manifest: seq<Json>, p: Plan, image: string)
    requires RenderDocuments(d, manifest, p, image).Ok?
    ensures d.rendered <= RenderDocuments(d, manifest, p, image).value.rendered
    decreases |manifest|
  {
    if manifest != [] {
      RenderedGrows(RenderDocument(d, manifest[0], p, image).value, manifest[1..], p, image);
    }
  }

  lemma {:induction false} DocumentIn(d: RenderDraft, manifest: seq<Json>, p: Plan, image: string, k: nat) returns (i: nat)
    requires RenderDocuments(d, manifest, p, image).Ok? && k < |manifest| && IsRenderedDocument(manifest[k], p)
    ensures i < |RenderDocuments(d, manifest, p, image).value.rendered|
    ensures RenderedFrom(RenderDocuments(d, manifest, p, image).value.rendered[i], manifest[k], p, image)
    decreases |manifest|
  {
    var next := RenderDocument(d, manifest[0], p, image).value;
    if k == 0 {
      var c := OneRendered(d, manifest[0], p, image);
      RenderedGrows(next, manifest[1..], p, image);
      i := |d.rendered|;
    } else {
      i := DocumentIn(next, manifest[1..], p, image, k - 1);
    }
  }

  /** Every document that names a missing workload is created. */
  lemma {:induction false} DocumentCreated(p: Plan, manifest: seq<Json>, image: string, k: nat) returns (i: nat)
    requires RenderBootstrap(p, manifest, image).Ok? && p.bootstrapTargets != []
    requires k < |manifest| && IsRenderedDocument(manifest[k], p)
    ensures i < |RenderBootstrap(p, manifest, image).value|
    ensures RenderedFrom(RenderBootstrap(p, manifest, image).value[i], manifest[k], p, image)
  {
    i := DocumentIn(RenderDraft([], {}), manifest, p, image, k);
  }
}
