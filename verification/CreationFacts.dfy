/** What the rendered creations contain. */
module CreationFacts {
  import opened Basics
  import opened JsonTrees
  import opened Images
  import opened Clusters
  import opened Inventories
  import opened Manifests
  import opened Plans
  import opened RolloutPlanning
  import opened PatchFacts

  predicate IsBootstrapPlace(p: Plan, w: Workload, name: Json) {
    name.JString? && Place(w.namespace, w.resource, name.text) in BootstrapPlaceSet(p.bootstrapTargets)
  }

  /** Bootstrap containers get the release image in place of one of the same repository; the rest are as in the manifest. */
  predicate IsRendered(before: Json, after: Json, w: Workload, p: Plan, image: string) {
    && before.JObject? && after.JObject?
    && if IsBootstrapPlace(p, w, Get(before, "name")) then
         && after == WithImage(before, image)
         && Get(before, "image").JString?
         && ImageRepository(Get(before, "image").text).Ok?
         && ImageRepository(Get(before, "image").text) == ImageRepository(image)
       else after == before
  }

  ghost predicate ContainersRendered(before: seq<Json>, after: seq<Json>, w: Workload, p: Plan, image: string) {
    |after| == |before| && forall i :: 0 <= i < |before| ==> IsRendered(before[i], after[i], w, p, image)
  }

  function PlacesIn(containers: seq<Json>, w: Workload, p: Plan): set<Place> {
    set place | place in BootstrapPlaceSet(p.bootstrapTargets)
                && Workload(place.namespace, place.resource) == w && HasName(containers, JString(place.container))
  }

  lemma {:induction false} RenderedContainers(
    acc: seq<Json>, observed: set<Place>, containers: seq<Json>, w: Workload, p: Plan, image: string)
    requires RenderContainers(acc, observed, containers, w, p, image).Ok?
    ensures var r := RenderContainers(acc, observed, containers, w, p, image).value;
            && acc <= r.0
            && ContainersRendered(containers, r.0[|acc|..], w, p, image)
            && r.1 == observed + PlacesIn(containers, w, p)
    decreases |containers|
  {
    if containers != [] {
      var first, rest := RenderContainer(containers[0], w, p, image).value, containers[1..];
      RenderedContainers(acc + [first.0], observed + first.1, rest, w, p, image);
      var r := RenderContainers(acc, observed, containers, w, p, image).value;
      assert r.0[|acc|..] == [first.0] + r.0[|acc| + 1..];
      assert containers == [containers[0]] + rest;
      assert forall i :: 0 < i < |containers| ==> containers[i] == rest[i - 1];
      forall place | place in BootstrapPlaceSet(p.bootstrapTargets)
        ensures HasName(containers, JString(place.container)) <==>
                Get(containers[0], "name") == JString(place.container) || HasName(rest, JString(place.container))
      {
        HasNameCons(containers[0], rest, JString(place.container));
      }
      assert PlacesIn(containers, w, p) == first.1 + PlacesIn(rest, w, p);
    }
  }

  /** The creation is the document, under the namespace the plan gives it, with its bootstrap containers pinned. */
  ghost predicate RenderedFrom(c: Creation, document: Json, p: Plan, image: string) {
    && IsDeploymentDocument(document)
    && DocumentName(document) == JString(c.id.name)
    && c.id.namespace in BootstrapNamespacesOf(p.bootstrapTargets, Resource(c.id.name))
    && (DocumentNamespace(document) == JNull || DocumentNamespace(document) == JString(c.id.namespace))
    && DocumentContainers(document).Some?
    && StrategyOf(document, DEFAULT_STRATEGY, c.deployment.strategy)
    && Containers(c.deployment.template).Some? && SameOutside(DocumentTemplate(document), c.deployment.template)
    && ContainersRendered(DocumentContainers(document).value, Containers(c.deployment.template).value,
                          Workload(c.id.namespace, Resource(c.id.name)), p, image)
  }

  ghost predicate RenderedFromSome(c: Creation, manifest: seq<Json>, p: Plan, image: string) {
    exists k :: 0 <= k < |manifest| && RenderedFrom(c, manifest[k], p, image)
  }

  ghost predicate CreatesPlace(c: Creation, place: Place) {
    && c.id.namespace == place.namespace && Resource(c.id.name) == place.resource
    && Containers(c.deployment.template).Some?
    && HasName(Containers(c.deployment.template).value, JString(place.container))
  }

  ghost predicate CreatesSome(rendered: seq<Creation>, place: Place) {
    exists i :: 0 <= i < |rendered| && CreatesPlace(rendered[i], place)
  }

  /** Everything rendered comes from the manifest, and every place counted as observed is in something rendered. */
  ghost predicate DraftSound(d: RenderDraft, manifest: seq<Json>, p: Plan, image: string) {
    && (forall i :: 0 <= i < |d.rendered| ==> RenderedFromSome(d.rendered[i], manifest, p, image))
    && (forall place :: place in d.observed ==> CreatesSome(d.rendered, place))
  }

  lemma {:induction false} RenderedNames(before: seq<Json>, after: seq<Json>, w: Workload, p: Plan, image: string, name: Json)
    requires ContainersRendered(before, after, w, p, image)
    ensures HasName(before, name) <==> HasName(after, name)
  {
    assert forall i :: 0 <= i < |before| ==> IsRendered(before[i], after[i], w, p, image) && Get(after[i], "name") == Get(before[i], "name");
    if i :| 0 <= i < |before| && Get(before[i], "name") == name {
      assert Get(after[i], "name") == name;
    }
    if i :| 0 <= i < |after| && Get(after[i], "name") == name {
      assert Get(before[i], "name") == name;
    }
  }

  lemma {:induction false} DocumentRendered(d: RenderDraft, k: nat, manifest: seq<Json>, p: Plan, image: string)
    requires k < |manifest| && RenderDocument(d, manifest[k], p, image).Ok?
    requires DraftSound(d, manifest, p, image)
    ensures DraftSound(RenderDocument(d, manifest[k], p, image).value, manifest, p, image)
  {
    var document, next := manifest[k], RenderDocument(d, manifest[k], p, image).value;
    if next != d {
      var c := next.rendered[|d.rendered|];
      var w := Workload(c.id.namespace, Resource(c.id.name));
      OnlyMeaning(BootstrapNamespacesOf(p.bootstrapTargets, w.resource));
      RenderedContainers([], d.observed, DocumentContainers(document).value, w, p, image);
      var r := RenderContainers([], d.observed, DocumentContainers(document).value, w, p, image).value;
      assert r.0[0..] == r.0;
      assert RenderedFrom(c, document, p, image);
      forall place | place in next.observed
        ensures CreatesSome(next.rendered, place)
      {
        if place in d.observed {
          var i :| 0 <= i < |d.rendered| && CreatesPlace(d.rendered[i], place);
          assert next.rendered[i] == d.rendered[i];
        } else {
          RenderedNames(DocumentContainers(document).value, r.0, w, p, image, JString(place.container));
          assert CreatesPlace(next.rendered[|d.rendered|], place);
        }
      }
    }
  }

  lemma {:induction false} DocumentsRendered(d: RenderDraft, k: nat, manifest: seq<Json>, p: Plan, image: string)
    requires k <= |manifest| && RenderDocuments(d, manifest[k..], p, image).Ok?
    requires DraftSound(d, manifest, p, image)
    ensures DraftSound(RenderDocuments(d, manifest[k..], p, image).value, manifest, p, image)
    decreases |manifest| - k
  {
    if k < |manifest| {
      assert manifest[k..][0] == manifest[k] && manifest[k..][1..] == manifest[k + 1..];
      DocumentRendered(d, k, manifest, p, image);
      DocumentsRendered(RenderDocument(d, manifest[k], p, image).value, k + 1, manifest, p, image);
    }
  }

  /** The creations come from the manifest, no two under one name, and together they hold every bootstrap container. */
  lemma {:induction false} CreationsComplete(p: Plan, manifest: seq<Json>, image: string)
    requires RenderBootstrap(p, manifest, image).Ok?
    ensures var creations := RenderBootstrap(p, manifest, image).value;
            && NoDuplicates(CreationIds(creations))
            && (forall i :: 0 <= i < |creations| ==> RenderedFromSome(creations[i], manifest, p, image))
            && (forall t :: t in p.bootstrapTargets ==> CreatesSome(creations, Place(t.namespace, t.resource, t.container)))
  {
    if p.bootstrapTargets != [] {
      assert manifest[0..] == manifest;
      DocumentsRendered(RenderDraft([], {}), 0, manifest, p, image);
      var d := RenderDocuments(RenderDraft([], {}), manifest, p, image).value;
      forall t | t in p.bootstrapTargets
        ensures Place(t.namespace, t.resource, t.container) in d.observed
      {
        var i :| 0 <= i < |p.bootstrapTargets| && p.bootstrapTargets[i] == t;
        assert Place(t.namespace, t.resource, t.container) in BootstrapPlaceSet(p.bootstrapTargets);
      }
    }
  }
}
