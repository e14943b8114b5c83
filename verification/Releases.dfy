/** A release of a captured plan: capture and a reconciling rollout agree, so no check of the rollout trips. */
module Releases {
  import opened Basics
  import opened JsonTrees
  import opened Images
  import opened Clusters
  import opened Inventories
  import opened Manifests
  import opened Plans
  import opened Capture
  import opened CaptureFacts
  import opened RollbackSemantics
  import opened Rollback
  import opened RolloutPlanning
  import opened PatchFacts
  import opened CreationFacts
  import opened RolloutWaves
  import opened Acceptance
  import opened ImageWaves
  import opened Rollout
  import opened Interruption
  import opened Restoration
  import opened Protocol

  // ---- what the manifest says ----

  lemma {:induction false} SelectedImages(acc: seq<Ident>, deployment: string, containers: seq<Json>, repository: string)
    requires SelectContainers(acc, deployment, containers, ByRepository(repository)).Ok?
    ensures forall i :: 0 <= i < |containers| && Get(containers[i], "image").JString? ==>
              ImageRepository(Get(containers[i], "image").text).Ok?
    decreases |containers|
  {
    if containers != [] {
      var selected := SelectContainer(deployment, containers[0], ByRepository(repository)).value;
      SelectedImages(acc + selected, deployment, containers[1..], repository);
      assert forall i :: 0 < i < |containers| ==> containers[i] == containers[1..][i - 1];
    }
  }

  lemma {:induction false} SelectedDocuments(acc: seq<Ident>, manifest: seq<Json>, repository: string, k: nat)
    requires SelectDocuments(acc, manifest, ByRepository(repository)).Ok? && k < |manifest|
    requires IsDeploymentDocument(manifest[k])
    ensures DocumentContainers(manifest[k]).Some?
    ensures forall i :: 0 <= i < |DocumentContainers(manifest[k]).value| && Get(DocumentContainers(manifest[k]).value[i], "image").JString? ==>
              ImageRepository(Get(DocumentContainers(manifest[k]).value[i], "image").text).Ok?
    decreases |manifest|
  {
    var next := SelectDocument(acc, manifest[0], ByRepository(repository)).value;
    if k == 0 {
      SelectedImages(acc, DocumentName(manifest[0]).text, DocumentContainers(manifest[0]).value, repository);
    } else {
      SelectedDocuments(next, manifest[1..], repository, k - 1);
    }
  }

  /** Every image in a managed manifest has a repository, and the containers of the managed one are expected. */
  lemma {:induction false} DocumentImage(manifest: seq<Json>, expected: seq<Ident>, repository: string, k: nat, i: nat)
    requires ExpectedContainers(manifest, ByRepository(repository)) == Ok(expected) && k < |manifest|
    requires IsDeploymentDocument(manifest[k]) && DocumentName(manifest[k]).JString?
    requires DocumentContainers(manifest[k]).Some? && i < |DocumentContainers(manifest[k]).value|
    requires ReadableContainer(DocumentContainers(manifest[k]).value[i])
    ensures var c := DocumentContainers(manifest[k]).value[i];
            && ImageRepository(Get(c, "image").text).Ok?
            && (ImageRepository(Get(c, "image").text).value == repository ==>
                  Ident(DocumentName(manifest[k]).text, Get(c, "name").text) in expected)
  {
    SelectedDocuments([], manifest, repository, k);
    ExpectedContainersMeaning(manifest, ByRepository(repository));
    var c := DocumentContainers(manifest[k]).value[i];
    if ImageRepository(Get(c, "image").text).value == repository {
      var ident := Ident(DocumentName(manifest[k]).text, Get(c, "name").text);
      assert ManagesContainer(DocumentContainers(manifest[k]).value, ident.container, ByRepository(repository));
      assert ManagesIn(manifest[k], ident, ByRepository(repository));
      assert ManagesIdent(manifest, ident, ByRepository(repository));
    }
  }

  // ---- created workloads ----

  function BootstrapNames(p: Plan, w: Workload): set<string> {
    set place | place in BootstrapPlaceSet(p.bootstrapTargets) && Workload(place.namespace, place.resource) == w :: place.container
  }

  function BootstrapImages(p: Plan, w: Workload, image: string): (r: map<string, string>)
    ensures forall name :: name in r <==> Place(w.namespace, w.resource, name) in BootstrapPlaceSet(p.bootstrapTargets)
    ensures forall name :: name in r ==> r[name] == image
  {
    map name | name in BootstrapNames(p, w) :: image
  }

  lemma {:induction false} RenderedIsPinned(before: seq<Json>, after: seq<Json>, w: Workload, p: Plan, image: string)
    requires ContainersRendered(before, after, w, p, image)
    ensures after == Pin(before, BootstrapImages(p, w, image))
  {
    forall i | 0 <= i < |before|
      ensures after[i] == PinOne(before[i], BootstrapImages(p, w, image))
    {
      assert IsRendered(before[i], after[i], w, p, image);
    }
  }

  function ContainersOf(document: Json): seq<Json> {
    if DocumentContainers(document).Some? then DocumentContainers(document).value else []
  }

  /** The documents that creations are rendered from can be read back from the cluster. */
  predicate RenderedReadable(manifest: seq<Json>, p: Plan) {
    forall k :: 0 <= k < |manifest| && IsRenderedDocument(manifest[k], p) ==> ReadableContainers(ContainersOf(manifest[k]))
  }

  lemma {:induction false} RenderedNamed(c: Creation, document: Json, p: Plan, image: string)
    requires RenderedFrom(c, document, p, image)
    ensures IsRenderedDocument(document, p)
  {
    assert c.id.namespace in BootstrapNamespacesOf(p.bootstrapTargets, Resource(DocumentName(document).text));
  }

  lemma {:induction false} CreatedTemplate(c: Creation, document: Json, p: Plan, image: string, name: string)
    requires RenderedFrom(c, document, p, image) && ReadableContainers(ContainersOf(document))
    ensures ReadableTemplate(c.deployment.template)
    ensures TemplateImage(c.deployment.template, name)
            == if FindImage(ContainersOf(document), name).Some?
                  && name in BootstrapImages(p, Workload(c.id.namespace, Resource(c.id.name)), image)
               then Some(image) else FindImage(ContainersOf(document), name)
  {
    var w := Workload(c.id.namespace, Resource(c.id.name));
    RenderedIsPinned(ContainersOf(document), Containers(c.deployment.template).value, w, p, image);
    PinnedImage(ContainersOf(document), BootstrapImages(p, w, image), name);
    PinnedReadable(ContainersOf(document), BootstrapImages(p, w, image));
  }

  /** An image the release may leave running: it has a repository, and the managed one only where it is accounted for. */
  ghost predicate Known(p: Plan, repository: string, ident: Ident, image: Option<string>) {
    image.Some? ==>
      && ImageRepository(image.value).Ok?
      && (ImageRepository(image.value).value == repository ==> IsTarget(p, ident) || IsBootstrap(p, ident) || IsProtected(p, ident))
  }

  lemma {:induction false} AbsentIsBootstrap(p: Plan, q: Request, inv: Inventory, ident: Ident)
    requires Ordered(inv) && Partitions(p, inv, q) && ident in q.expected && ident !in inv.images
    ensures IsBootstrap(p, ident)
  {
    LiveAmongMeaning(q.expected, inv);
    var i :| 0 <= i < |AbsentAmong(q.expected, inv)| && AbsentAmong(q.expected, inv)[i] == ident;
    NameOfResource(ident.deployment);
    assert BootstrapIdentOf(p.bootstrapTargets[i]) == ident;
  }

  lemma {:induction false} FoundAt(containers: seq<Json>, name: string) returns (i: nat)
    requires ReadableContainers(containers) && FindImage(containers, name).Some?
    ensures i < |containers| && Get(containers[i], "name") == JString(name)
    ensures Get(containers[i], "image") == JString(FindImage(containers, name).value)
  {
    FoundContainer(containers, name);
    i :| 0 <= i < |containers| && containers[i].JObject? && Get(containers[i], "name") == JString(name);
    ImageOfContainer(containers, i);
    assert ReadableContainer(containers[i]);
  }

  lemma {:induction false} CreatedKnown(
    p: Plan, q: Request, inv: Inventory, repository: string, manifest: seq<Json>, image: string, c: Creation, name: string)
    requires Ordered(inv) && Partitions(p, inv, q)
    requires ExpectedContainers(manifest, ByRepository(repository)) == Ok(q.expected) && RenderedReadable(manifest, p)
    requires RenderedFromSome(c, manifest, p, image) && ImageRepository(image).Ok?
    requires Ident(c.id.name, name) !in inv.images
    ensures Known(p, repository, Ident(c.id.name, name), TemplateImage(c.deployment.template, name))
  {
    var k :| 0 <= k < |manifest| && RenderedFrom(c, manifest[k], p, image);
    RenderedNamed(c, manifest[k], p, image);
    CreatedTemplate(c, manifest[k], p, image, name);
    if FindImage(ContainersOf(manifest[k]), name).Some? {
      var i := FoundAt(ContainersOf(manifest[k]), name);
      DocumentImage(manifest, q.expected, repository, k, i);
      if Ident(c.id.name, name) in q.expected {
        AbsentIsBootstrap(p, q, inv, Ident(c.id.name, name));
      }
      assert IsRendered(ContainersOf(manifest[k])[i], Containers(c.deployment.template).value[i],
                        Workload(c.id.namespace, Resource(c.id.name)), p, image);
    }
  }

  // ---- untouched workloads ----

  lemma {:induction false} LiveKnown(p: Plan, q: Request, inv: Inventory, before: State, repository: string, ident: Ident)
    requires Records(p, q, inv, before) && Attests(q.verified) && q.repository == Some(repository)
    ensures Known(p, repository, ident, ImageAt(before, q.namespace, ident))
  {
    if ident in inv.images {
      var i :| 0 <= i < |inv.order| && inv.order[i] == ident;
      assert Protectable(inv.order[i], inv, q);
      if ident in q.expected {
        ExpectedKnown(p, q, inv, ident);
      } else if ImageRepository(inv.images[ident]).value == repository {
        OutsideIsProtected(p, q, inv, ident);
      }
    }
  }

  lemma {:induction false} ExpectedKnown(p: Plan, q: Request, inv: Inventory, ident: Ident)
    requires Ordered(inv) && Partitions(p, inv, q) && Attests(q.verified)
    requires ident in q.expected && ident in inv.images
    ensures ImageRepository(inv.images[ident]).Ok? && IsTarget(p, ident)
  {
    LiveAmongMeaning(q.expected, inv);
    var i :| 0 <= i < |LiveAmong(q.expected, inv)| && LiveAmong(q.expected, inv)[i] == ident;
    NameOfResource(ident.deployment);
    assert TargetIdentOf(p.targets[i]) == ident;
    if IsImageDigest(inv.images[ident]) {
      DigestRepository(inv.images[ident]);
    }
  }

  lemma {:induction false} OutsideIsProtected(p: Plan, q: Request, inv: Inventory, ident: Ident)
    requires Ordered(inv) && Partitions(p, inv, q) && q.repository.Some?
    requires ident !in q.expected && ident in inv.images && ImageRepository(inv.images[ident]) == Ok(q.repository.value)
    ensures IsProtected(p, ident)
  {
    OutsideAmongMeaning(inv.order, inv, q);
    var i :| 0 <= i < |OutsideOf(inv, q)| && OutsideOf(inv, q)[i] == ident;
    NameOfResource(ident.deployment);
    assert ProtectedIdentOf(p.protectedTargets[i]) == ident;
  }

  // ---- patched workloads ----

  lemma {:induction false} LiveImageIsFound(live: seq<Json>, name: string)
    requires ReadableContainers(live)
    ensures LiveImageOf(live, name) == if FindImage(live, name).Some? then JString(FindImage(live, name).value) else JNull
  {
    if live != [] {
      var k := |live| - 1;
      var init := live[..k];
      assert ReadableContainers(init) && live == init + [live[k]];
      LiveImageIsFound(init, name);
      FindImageSnoc(init, live[k], name);
      assert ReadableContainer(live[k]);
      if Get(live[k], "name") == JString(name) {
        ImageOfContainer(live, k);
      }
    }
  }

  lemma {:induction false} FindImageSnoc(init: seq<Json>, last: Json, name: string)
    requires ReadableContainers(init + [last])
    ensures Get(last, "name") != JString(name) ==> FindImage(init + [last], name) == FindImage(init, name)
  {
    if init != [] {
      assert (init + [last])[1..] == init[1..] + [last];
      assert ReadableContainers((init + [last])[1..]);
      FindImageSnoc(init[1..], last, name);
    }
  }

  lemma {:induction false} PatchedReadable(before: Json, after: Json, c: PatchContext)
    requires TemplatePatched(before, after, c)
    ensures ReadableTemplate(after)
  {
    var a, b := Containers(before).value, Containers(after).value;
    forall i | 0 <= i < |b|
      ensures ReadableContainer(b[i]) && Get(b[i], "name") == Get(a[i], "name")
    {
      assert IsPatched(a[i], b[i], c);
    }
  }

  lemma {:induction false} LiveStaysNamed(before: Json, after: Json, c: PatchContext, name: string)
    requires TemplatePatched(before, after, c) && ReadableContainers(c.live) && ReadableTemplate(after)
    ensures FindImage(c.live, name).Some? ==> TemplateImage(after, name).Some?
  {
    if FindImage(c.live, name).Some? {
      var a, b := Containers(before).value, Containers(after).value;
      var j := FoundAt(c.live, name);
      var i :| 0 <= i < |a| && Get(a[i], "name") == Get(c.live[j], "name");
      assert IsPatched(a[i], b[i], c);
      ImageOfContainer(b, i);
    }
  }

  /** The image a patched template gives a name: the release's for a target, its own for what was live, and otherwise
      a pinned image of the manifest. */
  lemma {:induction false} PatchedImage(before: Json, after: Json, c: PatchContext, name: string)
    requires TemplatePatched(before, after, c) && ReadableContainers(c.live)
    ensures FindImage(c.live, name).Some? ==> TemplateImage(after, name).Some?
    ensures TemplateImage(after, name).Some? ==>
              if name in c.targets then TemplateImage(after, name) == Some(c.image)
              else if FindImage(c.live, name).Some? then TemplateImage(after, name) == FindImage(c.live, name)
              else FromManifest(Containers(before).value, name, TemplateImage(after, name).value)
  {
    var a, b := Containers(before).value, Containers(after).value;
    PatchedReadable(before, after, c);
    LiveImageIsFound(c.live, name);
    LiveStaysNamed(before, after, c, name);
    if TemplateImage(after, name).Some? {
      var i := FoundAt(b, name);
      assert IsPatched(a[i], b[i], c);
    }
  }

  ghost predicate FromManifest(containers: seq<Json>, name: string, image: string) {
    && IsImageDigest(image)
    && exists i :: 0 <= i < |containers| && Get(containers[i], "name") == JString(name) && Get(containers[i], "image") == JString(image)
  }

  lemma {:induction false} PatchSource(p: Plan, o: Options, i: nat) returns (k: nat)
    requires o.reconcile && PlannedPatches(p, o).Ok? && i < |PlannedPatches(p, o).value|
    ensures o.manifest.Some? && k < |o.manifest.value| && IsDeploymentDocument(o.manifest.value[k])
    ensures PatchFrom(PlannedPatches(p, o).value[i], o.manifest.value[k], p, o.image)
  {
    PatchesComputed(p, o.manifest.value, o.image);
    var patch := PlannedPatches(p, o).value[i];
    k :| 0 <= k < |o.manifest.value| && MakesPatch(p, o.image)(o.manifest.value[k], patch);
  }

  /** The patch was made over the workload as it is in this cluster. */
  ghost predicate PatchedOver(p: Plan, image: string, before: State, patch: Patch, document: Json) {
    && PatchId(patch) in before
    && Containers(before[PatchId(patch)].template).Some?
    && TemplatePatched(
         DocumentTemplate(document), patch.template,
         PatchContext(TargetNames(p.targets, PatchWorkload(patch)), Containers(before[PatchId(patch)].template).value, image))
  }

  lemma {:induction false} PatchOverCaptured(p: Plan, image: string, before: State, patch: Patch, document: Json)
    requires StatesFit(p, before) && PatchFrom(patch, document, p, image)
    ensures PatchedOver(p, image, before, patch, document)
  {
    var i := StateAtFound(p.deploymentStates, PatchWorkload(patch));
    assert StateId(p.deploymentStates[i]) == PatchId(patch);
  }

  lemma {:induction false} TargetNamed(p: Plan, w: Workload, name: string)
    requires WellFormed(p) && StartsWith(w.resource, DEPLOYMENT_PREFIX)
    requires forall i :: 0 <= i < |p.targets| ==> p.targets[i].namespace == w.namespace
    ensures name in TargetNames(p.targets, w) <==> IsTarget(p, Ident(NameOf(w.resource), name))
  {
    if i :| 0 <= i < |p.targets| && TargetIdentOf(p.targets[i]) == Ident(NameOf(w.resource), name) {
      assert ValidTarget(p.targets[i]);
      ResourceOfName(p.targets[i].resource);
      ResourceOfName(w.resource);
    }
  }

  lemma {:induction false} ManifestExpected(
    manifest: seq<Json>, expected: seq<Ident>, repository: string, k: nat, name: string, image: string)
    requires ExpectedContainers(manifest, ByRepository(repository)) == Ok(expected)
    requires k < |manifest| && IsDeploymentDocument(manifest[k]) && DocumentName(manifest[k]).JString?
    requires FromManifest(ContainersOf(manifest[k]), name, image) && ImageRepository(image) == Ok(repository)
    ensures Ident(DocumentName(manifest[k]).text, name) in expected
  {
    ExpectedContainersMeaning(manifest, ByRepository(repository));
    var ident := Ident(DocumentName(manifest[k]).text, name);
    assert ManagesContainer(ContainersOf(manifest[k]), name, ByRepository(repository));
    assert ManagesIn(manifest[k], ident, ByRepository(repository));
    assert ManagesIdent(manifest, ident, ByRepository(repository));
  }

  lemma {:induction false} NotExpected(q: Request, inv: Inventory, ident: Ident)
    requires forall i :: 0 <= i < |q.expected| ==> Capturable(q.expected[i], inv, q)
    requires ident !in inv.images && IsLiveDeployment(inv, ident.deployment)
    ensures ident !in q.expected
  {
  }

  lemma {:induction false} ManifestImageKnown(
    p: Plan, q: Request, inv: Inventory, repository: string, manifest: seq<Json>, k: nat, name: string, image: string)
    requires Ordered(inv) && Partitions(p, inv, q)
    requires ExpectedContainers(manifest, ByRepository(repository)) == Ok(q.expected)
    requires k < |manifest| && IsDeploymentDocument(manifest[k]) && DocumentName(manifest[k]).JString?
    requires FromManifest(ContainersOf(manifest[k]), name, image)
    requires Ident(DocumentName(manifest[k]).text, name) !in inv.images
    requires IsLiveDeployment(inv, DocumentName(manifest[k]).text)
    ensures Known(p, repository, Ident(DocumentName(manifest[k]).text, name), Some(image))
  {
    DigestRepository(image);
    NotExpected(q, inv, Ident(DocumentName(manifest[k]).text, name));
    if ImageRepository(image).value == repository {
      ManifestExpected(manifest, q.expected, repository, k, name, image);
    }
  }

  /** What the rollout knows of a name in a patched workload. */
  ghost predicate PatchAccounts(p: Plan, repository: string, image: string, before: State, patch: Patch, name: string) {
    var ident := Ident(NameOf(patch.resource), name);
    && Known(p, repository, ident, TemplateImage(patch.template, name))
    && (ImageAt(before, patch.namespace, ident).Some? ==>
          TemplateImage(patch.template, name) == if IsTarget(p, ident) then Some(image) else ImageAt(before, patch.namespace, ident))
  }

  lemma {:induction false} PatchKnown(
    p: Plan, q: Request, inv: Inventory, before: State, repository: string, manifest: seq<Json>, image: string,
    patch: Patch, k: nat, name: string)
    requires Records(p, q, inv, before) && WellFormed(p) && Attests(q.verified) && q.repository == Some(repository)
    requires ExpectedContainers(manifest, ByRepository(repository)) == Ok(q.expected)
    requires k < |manifest| && IsDeploymentDocument(manifest[k]) && DocumentName(manifest[k]) == JString(NameOf(patch.resource))
    requires patch.namespace == q.namespace && StartsWith(patch.resource, DEPLOYMENT_PREFIX)
    requires PatchedOver(p, image, before, patch, manifest[k]) && ImageRepository(image).Ok?
    requires TargetNames(p.targets, PatchWorkload(patch)) != {}
    requires DocumentContainers(manifest[k]).Some?
    ensures PatchAccounts(p, repository, image, before, patch, name)
  {
    var id := PatchId(patch);
    var ident := Ident(id.name, name);
    var live := Containers(before[id].template).value;
    RecordedNamespaces(p, q, inv);
    TargetNamed(p, PatchWorkload(patch), name);
    assert ReadableTemplate(before[id].template);
    PatchedImage(DocumentTemplate(manifest[k]), patch.template, PatchContext(TargetNames(p.targets, PatchWorkload(patch)), live, image), name);
    LiveKnown(p, q, inv, before, repository, ident);
    if TemplateImage(patch.template, name).Some? && FindImage(live, name).None? && !IsTarget(p, ident) {
      TargetLiveDeployment(p, q, inv, before, PatchWorkload(patch));
      ManifestImageKnown(p, q, inv, repository, manifest, k, name, TemplateImage(patch.template, name).value);
    }
  }

  lemma {:induction false} TargetLiveDeployment(p: Plan, q: Request, inv: Inventory, before: State, w: Workload)
    requires Records(p, q, inv, before) && TargetNames(p.targets, w) != {}
    ensures IsLiveDeployment(inv, NameOf(w.resource))
  {
    var name :| name in TargetNames(p.targets, w);
    var i :| 0 <= i < |p.targets| && TargetWorkload(p.targets[i]) == w && p.targets[i].container == name;
    var ident := RecordedTarget(p, q, inv, before, i);
    assert ident in inv.images && ident.deployment == NameOf(w.resource);
  }

  // ---- the cluster on the way ----

  /** Every container is known, those the plan protects are as before, and those it rolls out are there. */
  ghost predicate Accounted(p: Plan, repository: string, image: string, before: State, s: State, namespace: string, exact: bool) {
    && (forall ident :: Known(p, repository, ident, ImageAt(s, namespace, ident)))
    && (forall i :: 0 <= i < |p.protectedTargets| ==>
          var ident := ProtectedIdentOf(p.protectedTargets[i]);
          ImageAt(s, namespace, ident) == ImageAt(before, namespace, ident))
    && (forall i :: 0 <= i < |p.targets| ==>
          var ident := TargetIdentOf(p.targets[i]);
          ImageAt(s, namespace, ident).Some? && (exact ==> ImageAt(s, namespace, ident) == Some(image)))
    && (forall i :: 0 <= i < |p.bootstrapTargets| ==>
          ImageAt(s, namespace, BootstrapIdentOf(p.bootstrapTargets[i])) == Some(image))
  }

  lemma {:induction false} AccountedVerified(
    p: Plan, q: Request, inv: Inventory, before: State, image: string, s: State, exact: bool)
    requires Records(p, q, inv, before) && q.repository.Some? && ImageRepository(image) == Ok(q.repository.value)
    requires ProtectedsLive(p, before)
    requires Accounted(p, q.repository.value, image, before, s, q.namespace, exact)
    ensures RolloutVerifiedAt(p, image, s, q.namespace, exact)
  {
    forall i | 0 <= i < |p.protectedTargets|
      ensures ImageAt(before, q.namespace, ProtectedIdentOf(p.protectedTargets[i])) == Some(p.protectedTargets[i].image)
      ensures ImageRepository(p.protectedTargets[i].image) == Ok(q.repository.value)
    {
      var ident := RecordedProtected(p, q, inv, before, i);
      OutsideAmongMeaning(inv.order, inv, q);
      assert ident in OutsideOf(inv, q);
      assert ProtectedLive(p.protectedTargets[i], before);
      assert p.protectedTargets[i].namespace == q.namespace;
    }
  }

  /** `t` is `s` with these workloads added and nothing else changed. */
  ghost predicate Extends(s: State, creations: seq<Creation>, t: State) {
    && (forall id :: id in s ==> id in t && t[id] == s[id])
    && (forall i :: 0 <= i < |creations| ==> creations[i].id !in s && creations[i].id in t && t[creations[i].id] == creations[i].deployment)
    && (forall id :: id in t && id !in s ==> exists i :: 0 <= i < |creations| && creations[i].id == id)
  }

  lemma {:induction false} CreationExtends(s: State, creations: seq<Creation>)
    requires Accepts(s, Create(creations))
    ensures Extends(s, creations, CreateAll(s, creations))
  {
    AcceptedCreationsDistinct(s, creations);
    CreateAllMeaning(s, creations);
    forall id | id in CreateAll(s, creations) && id !in s
      ensures exists i :: 0 <= i < |creations| && creations[i].id == id
    {
      var i :| 0 <= i < |creations| && CreationIds(creations)[i] == id;
    }
  }

  ghost predicate FromManifestAll(creations: seq<Creation>, manifest: seq<Json>, p: Plan, image: string) {
    && (forall i :: 0 <= i < |creations| ==> RenderedFromSome(creations[i], manifest, p, image))
    && (forall t :: t in p.bootstrapTargets ==> CreatesSome(creations, Place(t.namespace, t.resource, t.container)))
  }

  lemma {:induction false} ExtendedReadable(
    p: Plan, before: State, creations: seq<Creation>, t: State, manifest: seq<Json>, image: string, namespace: string)
    requires Readable(before, namespace) && Extends(before, creations, t)
    requires FromManifestAll(creations, manifest, p, image) && RenderedReadable(manifest, p)
    ensures Readable(t, namespace)
  {
    forall id | id in t && id.namespace == namespace
      ensures ReadableTemplate(t[id].template)
    {
      if id !in before {
        var i :| 0 <= i < |creations| && creations[i].id == id;
        assert RenderedFromSome(creations[i], manifest, p, image);
        var k :| 0 <= k < |manifest| && RenderedFrom(creations[i], manifest[k], p, image);
        RenderedNamed(creations[i], manifest[k], p, image);
        CreatedTemplate(creations[i], manifest[k], p, image, "");
      }
    }
  }

  lemma {:induction false} CreatedBootstrap(
    p: Plan, creations: seq<Creation>, manifest: seq<Json>, image: string, j: nat) returns (i: nat)
    requires WellFormed(p) && FromManifestAll(creations, manifest, p, image) && RenderedReadable(manifest, p)
    requires j < |p.bootstrapTargets|
    ensures i < |creations| && creations[i].id == BootstrapSlot(p.bootstrapTargets[j]).id
    ensures TemplateImage(creations[i].deployment.template, p.bootstrapTargets[j].container) == Some(image)
  {
    var b := p.bootstrapTargets[j];
    var place := Place(b.namespace, b.resource, b.container);
    assert b in p.bootstrapTargets && place in BootstrapPlaceSet(p.bootstrapTargets);
    i :| 0 <= i < |creations| && CreatesPlace(creations[i], place);
    NameOfResource(creations[i].id.name);
    assert RenderedFromSome(creations[i], manifest, p, image);
    var k :| 0 <= k < |manifest| && RenderedFrom(creations[i], manifest[k], p, image);
    RenderedNamed(creations[i], manifest[k], p, image);
    CreatedTemplate(creations[i], manifest[k], p, image, b.container);
    NamedHasImage(Containers(creations[i].deployment.template).value, b.container);
  }

  lemma {:induction false} NamedHasImage(containers: seq<Json>, name: string)
    requires ReadableContainers(containers) && HasName(containers, JString(name))
    ensures FindImage(containers, name).Some?
  {
    var i :| 0 <= i < |containers| && Get(containers[i], "name") == JString(name);
    ImageOfContainer(containers, i);
  }

  lemma {:induction false} ExtendedKnown(
    p: Plan, q: Request, inv: Inventory, before: State, creations: seq<Creation>, t: State, manifest: seq<Json>, image: string, ident: Ident)
    requires Records(p, q, inv, before) && Attests(q.verified) && q.repository.Some? && ImageRepository(image).Ok?
    requires ExpectedContainers(manifest, ByRepository(q.repository.value)) == Ok(q.expected) && RenderedReadable(manifest, p)
    requires Extends(before, creations, t) && FromManifestAll(creations, manifest, p, image)
    ensures Known(p, q.repository.value, ident, ImageAt(t, q.namespace, ident))
    ensures ImageAt(before, q.namespace, ident).Some? ==> ImageAt(t, q.namespace, ident) == ImageAt(before, q.namespace, ident)
  {
    var id := Id(q.namespace, ident.deployment);
    if id in before {
      LiveKnown(p, q, inv, before, q.repository.value, ident);
    } else if id in t {
      var i :| 0 <= i < |creations| && creations[i].id == id;
      assert ImageAt(before, q.namespace, ident).None?;
      CreatedKnown(p, q, inv, q.repository.value, manifest, image, creations[i], ident.container);
    }
  }

  lemma {:induction false} ExtendedAccounted(
    p: Plan, q: Request, inv: Inventory, before: State, creations: seq<Creation>, t: State, manifest: seq<Json>, image: string)
    requires Records(p, q, inv, before) && WellFormed(p) && Attests(q.verified) && q.repository.Some? && ImageRepository(image).Ok?
    requires ExpectedContainers(manifest, ByRepository(q.repository.value)) == Ok(q.expected) && RenderedReadable(manifest, p)
    requires Extends(before, creations, t) && FromManifestAll(creations, manifest, p, image)
    ensures Accounted(p, q.repository.value, image, before, t, q.namespace, false)
  {
    forall ident
      ensures Known(p, q.repository.value, ident, ImageAt(t, q.namespace, ident))
      ensures ImageAt(before, q.namespace, ident).Some? ==> ImageAt(t, q.namespace, ident) == ImageAt(before, q.namespace, ident)
    {
      ExtendedKnown(p, q, inv, before, creations, t, manifest, image, ident);
    }
    forall i | 0 <= i < |p.protectedTargets|
      ensures ImageAt(before, q.namespace, ProtectedIdentOf(p.protectedTargets[i])).Some?
    {
      var ident := RecordedProtected(p, q, inv, before, i);
    }
    forall i | 0 <= i < |p.targets|
      ensures ImageAt(before, q.namespace, TargetIdentOf(p.targets[i])).Some?
    {
      var ident := RecordedTarget(p, q, inv, before, i);
    }
    RecordedNamespaces(p, q, inv);
    forall j | 0 <= j < |p.bootstrapTargets|
      ensures ImageAt(t, q.namespace, BootstrapIdentOf(p.bootstrapTargets[j])) == Some(image)
    {
      var i := CreatedBootstrap(p, creations, manifest, image, j);
    }
  }

  /** The patches cover the targets of this cluster and account for every container they touch. */
  ghost predicate PatchesAccount(p: Plan, repository: string, image: string, before: State, patches: seq<Patch>, namespace: string) {
    && (forall i :: 0 <= i < |patches| ==> patches[i].namespace == namespace && PatchId(patches[i]) in before)
    && (forall i, name :: 0 <= i < |patches| ==> PatchAccounts(p, repository, image, before, patches[i], name))
    && (forall j :: 0 <= j < |p.targets| ==> IdOf(TargetWorkload(p.targets[j])) in PatchIds(patches))
  }

  lemma {:induction false} PatchedAt(t: State, patches: seq<Patch>, u: State, namespace: string, ident: Ident) returns (i: nat)
    requires PatchesApplied(t, patches, u)
    ensures i < |patches| ==> PatchId(patches[i]) == Id(namespace, ident.deployment)
                              && ImageAt(u, namespace, ident) == TemplateImage(patches[i].template, ident.container)
    ensures i >= |patches| ==> Id(namespace, ident.deployment) !in PatchIds(patches) && ImageAt(u, namespace, ident) == ImageAt(t, namespace, ident)
  {
    var id := Id(namespace, ident.deployment);
    if id in PatchIds(patches) {
      i :| 0 <= i < |patches| && PatchIds(patches)[i] == id;
      assert Holding(u, patches[i]);
    } else {
      i := |patches|;
    }
  }

  lemma {:induction false} PatchedAccounted(
    p: Plan, repository: string, image: string, before: State, t: State, patches: seq<Patch>, u: State, namespace: string)
    requires Accounted(p, repository, image, before, t, namespace, false)
    requires PatchesApplied(t, patches, u) && PatchesAccount(p, repository, image, before, patches, namespace)
    requires forall i :: 0 <= i < |p.protectedTargets| ==>
               ImageAt(before, namespace, ProtectedIdentOf(p.protectedTargets[i])).Some? && !IsTarget(p, ProtectedIdentOf(p.protectedTargets[i]))
    requires forall i :: 0 <= i < |p.targets| ==>
               p.targets[i].namespace == namespace && ImageAt(before, namespace, TargetIdentOf(p.targets[i])).Some?
    requires forall i :: 0 <= i < |p.bootstrapTargets| ==>
               p.bootstrapTargets[i].namespace == namespace && BootstrapSlot(p.bootstrapTargets[i]).id !in before
    ensures Accounted(p, repository, image, before, u, namespace, true)
  {
    forall ident
      ensures Known(p, repository, ident, ImageAt(u, namespace, ident))
    {
      var i := PatchedAt(t, patches, u, namespace, ident);
      if i < |patches| {
        assert PatchAccounts(p, repository, image, before, patches[i], ident.container);
      }
    }
    forall j | 0 <= j < |p.protectedTargets|
      ensures ImageAt(u, namespace, ProtectedIdentOf(p.protectedTargets[j])) == ImageAt(before, namespace, ProtectedIdentOf(p.protectedTargets[j]))
    {
      var ident := ProtectedIdentOf(p.protectedTargets[j]);
      var i := PatchedAt(t, patches, u, namespace, ident);
      if i < |patches| {
        assert PatchAccounts(p, repository, image, before, patches[i], ident.container);
      }
    }
    forall j | 0 <= j < |p.targets|
      ensures ImageAt(u, namespace, TargetIdentOf(p.targets[j])) == Some(image)
    {
      var ident := TargetIdentOf(p.targets[j]);
      var i := PatchedAt(t, patches, u, namespace, ident);
      assert IdOf(TargetWorkload(p.targets[j])) in PatchIds(patches);
      assert IsTarget(p, ident) && PatchAccounts(p, repository, image, before, patches[i], ident.container);
    }
    forall j | 0 <= j < |p.bootstrapTargets|
      ensures ImageAt(u, namespace, BootstrapIdentOf(p.bootstrapTargets[j])) == Some(image)
    {
      var i := PatchedAt(t, patches, u, namespace, BootstrapIdentOf(p.bootstrapTargets[j]));
    }
  }

  lemma {:induction false} PatchedStaysReadable(
    p: Plan, o: Options, before: State, t: State, patches: seq<Patch>, u: State, namespace: string)
    requires o.reconcile && PlannedPatches(p, o) == Ok(patches) && StatesFit(p, before)
    requires Readable(t, namespace) && PatchesApplied(t, patches, u)
    ensures Readable(u, namespace)
  {
    forall id | id in u && id.namespace == namespace
      ensures ReadableTemplate(u[id].template)
    {
      if id in PatchIds(patches) {
        var i :| 0 <= i < |patches| && PatchIds(patches)[i] == id;
        assert Holding(u, patches[i]);
        var k := PatchSource(p, o, i);
        PatchOverCaptured(p, o.image, before, patches[i], o.manifest.value[k]);
        PatchedReadable(DocumentTemplate(o.manifest.value[k]), patches[i].template, PatchContextOf(p, patches[i], o.image));
      } else {
        assert u[id] == t[id];
      }
    }
  }

  /** The manifest and the repository the plan was captured with. */
  ghost predicate SameManifest(q: Request, o: Options) {
    && q.repository.Some? && ImageRepository(o.image) == Ok(q.repository.value)
    && o.manifest.Some? && ExpectedContainers(o.manifest.value, ByRepository(q.repository.value)) == Ok(q.expected)
  }

  ghost predicate SameRelease(p: Plan, q: Request, o: Options) {
    OptionsValid(p, o) && o.reconcile && SameManifest(q, o)
  }

  lemma {:induction false} TargetsPatched(p: Plan, o: Options)
    requires Loadable(p) && o.reconcile && o.manifest.Some? && PlannedPatches(p, o).Ok?
    ensures forall j :: 0 <= j < |p.targets| ==> IdOf(TargetWorkload(p.targets[j])) in PatchIds(PlannedPatches(p, o).value)
  {
    var patches := PlannedPatches(p, o).value;
    OnePatchPerState(p, o.manifest.value, o.image);
    forall j | 0 <= j < |p.targets|
      ensures IdOf(TargetWorkload(p.targets[j])) in PatchIds(patches)
    {
      assert TargetWorkloads(p.targets)[j] in TargetWorkloadSet(p.targets);
      assert TargetWorkload(p.targets[j]) in PatchWorkloadSet(patches);
      var i :| 0 <= i < |patches| && PatchWorkloads(patches)[i] == TargetWorkload(p.targets[j]);
      assert PatchIds(patches)[i] == IdOf(TargetWorkload(p.targets[j]));
    }
  }

  lemma {:induction false} ReleasePatchesAccount(p: Plan, q: Request, inv: Inventory, before: State, o: Options)
    requires Records(p, q, inv, before) && Loadable(p) && Attests(q.verified) && SameRelease(p, q, o)
    requires PlannedPatches(p, o).Ok?
    ensures PatchesAccount(p, q.repository.value, o.image, before, PlannedPatches(p, o).value, q.namespace)
  {
    var patches := PlannedPatches(p, o).value;
    forall i | 0 <= i < |patches|
      ensures patches[i].namespace == q.namespace && PatchId(patches[i]) in before
      ensures forall name :: PatchAccounts(p, q.repository.value, o.image, before, patches[i], name)
    {
      OnePatchAccounts(p, q, inv, before, o, i);
    }
    TargetsPatched(p, o);
  }

  lemma {:induction false} OnePatchAccounts(p: Plan, q: Request, inv: Inventory, before: State, o: Options, i: nat)
    requires Records(p, q, inv, before) && Loadable(p) && Attests(q.verified) && SameRelease(p, q, o)
    requires PlannedPatches(p, o).Ok? && i < |PlannedPatches(p, o).value|
    ensures var patch := PlannedPatches(p, o).value[i];
            && patch.namespace == q.namespace && PatchId(patch) in before
            && forall name :: PatchAccounts(p, q.repository.value, o.image, before, patch, name)
  {
    var patch := PlannedPatches(p, o).value[i];
    var k := PatchSource(p, o, i);
    var j := PatchAtTarget(p, o, i);
    RecordedNamespaces(p, q, inv);
    PatchOverCaptured(p, o.image, before, patch, o.manifest.value[k]);
    NameOfResource(DocumentName(o.manifest.value[k]).text);
    forall name
      ensures PatchAccounts(p, q.repository.value, o.image, before, patch, name)
    {
      PatchKnown(p, q, inv, before, q.repository.value, o.manifest.value, o.image, patch, k, name);
    }
  }
}
