/** The Deployment documents of a manifest and the containers a release manages in them. */
module Manifests {
  import opened Basics
  import opened JsonTrees
  import opened Images
  import opened Inventories

  /** A release manages the containers that use one exact image, or any image of one repository, or all of them. */
  datatype Managed = ByImage(image: string) | ByRepository(repository: string) | AllContainers

  predicate IsDeploymentDocument(document: Json) {
    Get(document, "kind") == JString("Deployment")
  }

  function DocumentName(document: Json): Json {
    Get(Get(document, "metadata"), "name")
  }

  function DocumentNamespace(document: Json): Json {
    Get(Get(document, "metadata"), "namespace")
  }

  function DocumentTemplate(document: Json): Json {
    Get(Get(document, "spec"), "template")
  }

  /** The non-empty container list of a document, if its shape is right. */
  function DocumentContainers(document: Json): Option<seq<Json>> {
    var containers := Containers(DocumentTemplate(document));
    if containers.Some? && containers.value != [] then containers else None
  }

  function SelectContainer(deployment: string, container: Json, managed: Managed): Result<seq<Ident>> {
    var name, image := Get(container, "name"), Get(container, "image");
    if !container.JObject? || !name.JString? || !IsKubernetesName(name.text) then
      Err
    else if managed.AllContainers? then
      Ok([Ident(deployment, name.text)])
    else if managed.ByImage? then
      Ok(if image == JString(managed.image) then [Ident(deployment, name.text)] else [])
    else if !image.JString? then
      Ok([])
    else
      var repository :- ImageRepository(image.text);
      Ok(if repository == managed.repository then [Ident(deployment, name.text)] else [])
  }

  function SelectContainers(acc: seq<Ident>, deployment: string, containers: seq<Json>, managed: Managed): Result<seq<Ident>>
    decreases |containers|
  {
    if containers == [] then Ok(acc)
    else
      var selected :- SelectContainer(deployment, containers[0], managed);
      SelectContainers(acc + selected, deployment, containers[1..], managed)
  }

  function SelectDocuments(acc: seq<Ident>, manifest: seq<Json>, managed: Managed): Result<seq<Ident>>
    decreases |manifest|
  {
    if manifest == [] then Ok(acc)
    else
      var next :- SelectDocument(acc, manifest[0], managed);
      SelectDocuments(next, manifest[1..], managed)
  }

  function SelectDocument(acc: seq<Ident>, document: Json, managed: Managed): Result<seq<Ident>> {
    if !document.JObject? then Err
    else if !IsDeploymentDocument(document) then Ok(acc)
    else
      var name, containers := DocumentName(document), DocumentContainers(document);
      if !name.JString? || !IsKubernetesName(name.text) || containers.None? then Err
      else SelectContainers(acc, name.text, containers.value, managed)
  }

  function ExpectedContainers(manifest: seq<Json>, managed: Managed): Result<seq<Ident>> {
    var expected :- SelectDocuments([], manifest, managed);
    if expected == [] || !NoDuplicates(expected) then Err else Ok(expected)
  }

  method ExpectedDeploymentContainers(manifest: seq<Json>, managed: Managed) returns (r: Result<seq<Ident>>)
    ensures r == ExpectedContainers(manifest, managed)
  {
    var expected: seq<Ident> := [];
    for i := 0 to |manifest|
      invariant SelectDocuments([], manifest, managed) == SelectDocuments(expected, manifest[i..], managed)
    {
      var document := manifest[i];
      assert manifest[i..][0] == document && manifest[i..][1..] == manifest[i + 1..];
      if !document.JObject? {
        return Err;
      }
      if !IsDeploymentDocument(document) {
        continue;
      }
      var name, containers := DocumentName(document), DocumentContainers(document);
      if !name.JString? || !IsKubernetesName(name.text) || containers.None? {
        return Err;
      }
      var cs := containers.value;
      ghost var before := expected;
      for k := 0 to |cs|
        invariant SelectContainers(before, name.text, cs, managed)
                  == SelectContainers(expected, name.text, cs[k..], managed)
      {
        assert cs[k..][0] == cs[k] && cs[k..][1..] == cs[k + 1..];
        var selected := SelectContainer(name.text, cs[k], managed);
        if selected.Err? {
          return Err;
        }
        expected := expected + selected.value;
      }
    }
    if expected == [] || !NoDuplicates(expected) {
      return Err;
    }
    return Ok(expected);
  }

  // ---- what the selection means ----

  predicate IsManaged(image: Json, managed: Managed) {
    match managed
    case ByImage(i) => image == JString(i)
    case ByRepository(r) => image.JString? && ImageRepository(image.text) == Ok(r)
    case AllContainers => true
  }

  predicate NamedContainers(containers: seq<Json>) {
    forall i :: 0 <= i < |containers| ==>
      && containers[i].JObject?
      && Get(containers[i], "name").JString?
      && IsKubernetesName(Get(containers[i], "name").text)
  }

  predicate ManagesContainer(containers: seq<Json>, name: string, managed: Managed) {
    exists i :: 0 <= i < |containers|
      && Get(containers[i], "name") == JString(name) && IsManaged(Get(containers[i], "image"), managed)
  }

  ghost predicate ManagesIdent(manifest: seq<Json>, ident: Ident, managed: Managed) {
    exists d :: 0 <= d < |manifest| && ManagesIn(manifest[d], ident, managed)
  }

  predicate ManagesIn(document: Json, ident: Ident, managed: Managed) {
    && IsDeploymentDocument(document)
    && DocumentName(document) == JString(ident.deployment)
    && DocumentContainers(document).Some?
    && ManagesContainer(DocumentContainers(document).value, ident.container, managed)
  }

  predicate NamedDocument(document: Json) {
    && document.JObject?
    && (IsDeploymentDocument(document) ==>
          && DocumentName(document).JString?
          && IsKubernetesName(DocumentName(document).text)
          && DocumentContainers(document).Some?
          && NamedContainers(DocumentContainers(document).value))
  }

  lemma {:induction false} SelectContainersMeaning(
    acc: seq<Ident>, deployment: string, containers: seq<Json>, managed: Managed)
    requires SelectContainers(acc, deployment, containers, managed).Ok?
    ensures NamedContainers(containers)
    ensures forall ident :: ident in SelectContainers(acc, deployment, containers, managed).value <==>
              ident in acc || (ident.deployment == deployment && ManagesContainer(containers, ident.container, managed))
    decreases |containers|
  {
    if containers != [] {
      var rest := containers[1..];
      SelectContainersMeaning(acc + SelectContainer(deployment, containers[0], managed).value, deployment, rest, managed);
      assert forall i :: 0 < i < |containers| ==> containers[i] == rest[i - 1];
      forall ident: Ident
        ensures ManagesContainer(containers, ident.container, managed) <==>
                (Get(containers[0], "name") == JString(ident.container) && IsManaged(Get(containers[0], "image"), managed))
                || ManagesContainer(rest, ident.container, managed)
      {
        if i :| 0 <= i < |rest|
                && Get(rest[i], "name") == JString(ident.container) && IsManaged(Get(rest[i], "image"), managed) {
          assert containers[i + 1] == rest[i];
        }
      }
    }
  }

  lemma {:induction false} SelectDocumentMeaning(acc: seq<Ident>, document: Json, managed: Managed)
    requires SelectDocument(acc, document, managed).Ok?
    ensures NamedDocument(document)
    ensures forall ident :: ident in SelectDocument(acc, document, managed).value <==>
              ident in acc || ManagesIn(document, ident, managed)
  {
    if IsDeploymentDocument(document) {
      SelectContainersMeaning(acc, DocumentName(document).text, DocumentContainers(document).value, managed);
    }
  }

  lemma {:induction false} SelectDocumentsMeaning(acc: seq<Ident>, manifest: seq<Json>, managed: Managed)
    requires SelectDocuments(acc, manifest, managed).Ok?
    ensures forall d :: 0 <= d < |manifest| ==> NamedDocument(manifest[d])
    ensures forall ident :: ident in SelectDocuments(acc, manifest, managed).value <==>
              ident in acc || ManagesIdent(manifest, ident, managed)
    decreases |manifest|
  {
    if manifest != [] {
      var rest := manifest[1..];
      SelectDocumentMeaning(acc, manifest[0], managed);
      SelectDocumentsMeaning(SelectDocument(acc, manifest[0], managed).value, rest, managed);
      assert forall d :: 0 < d < |manifest| ==> manifest[d] == rest[d - 1];
      forall ident: Ident
        ensures ManagesIdent(manifest, ident, managed) <==>
                ManagesIn(manifest[0], ident, managed) || ManagesIdent(rest, ident, managed)
      {
        if d :| 0 <= d < |rest| && ManagesIn(rest[d], ident, managed) {
          assert manifest[d + 1] == rest[d];
        }
      }
    }
  }

  // ---- which manifests are accepted, and the list in its order ----

  /** A container with a Kubernetes name; one repository's manifest also has no image without a repository. */
  predicate SelectableContainer(container: Json, managed: Managed) {
    && container.JObject? && Get(container, "name").JString? && IsKubernetesName(Get(container, "name").text)
    && (managed.ByRepository? && Get(container, "image").JString? ==> ImageRepository(Get(container, "image").text).Ok?)
  }

  predicate SelectableContainers(containers: seq<Json>, managed: Managed) {
    forall i :: 0 <= i < |containers| ==> SelectableContainer(containers[i], managed)
  }

  predicate SelectableDocument(document: Json, managed: Managed) {
    NamedDocument(document) && (IsDeploymentDocument(document) ==> SelectableContainers(DocumentContainers(document).value, managed))
  }

  predicate Selectable(manifest: seq<Json>, managed: Managed) {
    forall d :: 0 <= d < |manifest| ==> SelectableDocument(manifest[d], managed)
  }

  /** The managed containers of a workload, from the first to the last. */
  function ManagedNames(deployment: string, containers: seq<Json>, managed: Managed): seq<Ident>
    requires SelectableContainers(containers, managed)
  {
    if containers == [] then []
    else
      ManagedName(deployment, containers[0], managed) + ManagedNames(deployment, containers[1..], managed)
  }

  function ManagedIdents(manifest: seq<Json>, managed: Managed): seq<Ident>
    requires Selectable(manifest, managed)
  {
    if manifest == [] then []
    else
      (if IsDeploymentDocument(manifest[0])
       then ManagedNames(DocumentName(manifest[0]).text, DocumentContainers(manifest[0]).value, managed) else [])
      + ManagedIdents(manifest[1..], managed)
  }

  function ManagedName(deployment: string, container: Json, managed: Managed): seq<Ident>
    requires SelectableContainer(container, managed)
  {
    if IsManaged(Get(container, "image"), managed) then [Ident(deployment, Get(container, "name").text)] else []
  }

  lemma {:induction false} SelectOne(deployment: string, container: Json, managed: Managed)
    ensures SelectContainer(deployment, container, managed)
            == if SelectableContainer(container, managed) then Ok(ManagedName(deployment, container, managed)) else Err
  {
  }

  lemma {:induction false} SelectableCons(containers: seq<Json>, managed: Managed)
    requires containers != []
    ensures SelectableContainers(containers, managed) <==>
              SelectableContainer(containers[0], managed) && SelectableContainers(containers[1..], managed)
  {
    var rest := containers[1..];
    assert forall i :: 0 < i < |containers| ==> containers[i] == rest[i - 1];
    assert forall i :: 0 <= i < |rest| ==> rest[i] == containers[i + 1];
  }

  lemma {:induction false} SelectContainersExactly(acc: seq<Ident>, deployment: string, containers: seq<Json>, managed: Managed)
    ensures SelectContainers(acc, deployment, containers, managed)
            == if SelectableContainers(containers, managed) then Ok(acc + ManagedNames(deployment, containers, managed)) else Err
    decreases |containers|
  {
    if containers == [] {
      assert acc + [] == acc;
    } else {
      SelectOne(deployment, containers[0], managed);
      SelectableCons(containers, managed);
      if SelectableContainer(containers[0], managed) {
        var first := ManagedName(deployment, containers[0], managed);
        SelectContainersExactly(acc + first, deployment, containers[1..], managed);
        if SelectableContainers(containers, managed) {
          var rest := ManagedNames(deployment, containers[1..], managed);
          assert acc + first + rest == acc + (first + rest);
        }
      }
    }
  }

  lemma {:induction false} SelectDocumentsExactly(acc: seq<Ident>, manifest: seq<Json>, managed: Managed)
    ensures SelectDocuments(acc, manifest, managed)
            == if Selectable(manifest, managed) then Ok(acc + ManagedIdents(manifest, managed)) else Err
    decreases |manifest|
  {
    if manifest == [] {
      assert acc + [] == acc;
    } else {
      var document, rest := manifest[0], manifest[1..];
      assert forall i :: 0 < i < |manifest| ==> manifest[i] == rest[i - 1];
      assert forall i :: 0 <= i < |rest| ==> rest[i] == manifest[i + 1];
      SelectDocumentExactly(acc, document, managed);
      if SelectableDocument(document, managed) {
        var next := SelectDocument(acc, document, managed).value;
        SelectDocumentsExactly(next, rest, managed);
        if Selectable(rest, managed) {
          assert next + ManagedIdents(rest, managed) == acc + ManagedIdents(manifest, managed);
        }
      }
    }
  }

  lemma {:induction false} SelectDocumentExactly(acc: seq<Ident>, document: Json, managed: Managed)
    ensures SelectDocument(acc, document, managed)
            == if !SelectableDocument(document, managed) then Err
               else if IsDeploymentDocument(document)
               then Ok(acc + ManagedNames(DocumentName(document).text, DocumentContainers(document).value, managed))
               else Ok(acc)
  {
    if document.JObject? && IsDeploymentDocument(document) && DocumentName(document).JString? && DocumentContainers(document).Some? {
      SelectContainersExactly(acc, DocumentName(document).text, DocumentContainers(document).value, managed);
      if SelectableContainers(DocumentContainers(document).value, managed) {
        forall i | 0 <= i < |DocumentContainers(document).value|
          ensures IsKubernetesName(Get(DocumentContainers(document).value[i], "name").text)
        {
          assert SelectableContainer(DocumentContainers(document).value[i], managed);
        }
      }
    }
  }

  /** A manifest is accepted exactly when every document can be used, something is managed, and nothing twice; the
      expected list is then the managed containers in the order of the manifest. */
  lemma {:induction false} ExpectedExactly(manifest: seq<Json>, managed: Managed)
    ensures ExpectedContainers(manifest, managed)
            == if Selectable(manifest, managed) && ManagedIdents(manifest, managed) != []
                  && NoDuplicates(ManagedIdents(manifest, managed))
               then Ok(ManagedIdents(manifest, managed)) else Err
  {
    SelectDocumentsExactly([], manifest, managed);
    if Selectable(manifest, managed) {
      assert [] + ManagedIdents(manifest, managed) == ManagedIdents(manifest, managed);
    }
  }

  /** The parts of a document stand where Kubernetes puts them. */
  lemma {:induction false} DocumentParts(
    kind: string, metadata: map<string, Json>, spec: map<string, Json>, podSpec: map<string, Json>, template: map<string, Json>)
    requires "template" in spec && spec["template"] == JObject(template) && "spec" in template && template["spec"] == JObject(podSpec)
    requires "containers" in podSpec && podSpec["containers"].JList? && podSpec["containers"].items != []
    ensures var document := JObject(map["kind" := JString(kind), "metadata" := JObject(metadata), "spec" := JObject(spec)]);
            && (IsDeploymentDocument(document) <==> kind == "Deployment")
            && ("name" in metadata ==> DocumentName(document) == metadata["name"])
            && DocumentNamespace(document) == (if "namespace" in metadata then metadata["namespace"] else JNull)
            && DocumentTemplate(document) == JObject(template)
            && DocumentContainers(document) == Some(podSpec["containers"].items)
  {
  }

  /** The expected list has no duplicates and names exactly the managed containers of the manifest. */
  lemma {:induction false} ExpectedContainersMeaning(manifest: seq<Json>, managed: Managed)
    requires ExpectedContainers(manifest, managed).Ok?
    ensures forall d :: 0 <= d < |manifest| ==> NamedDocument(manifest[d])
    ensures var expected := ExpectedContainers(manifest, managed).value;
            && expected != [] && NoDuplicates(expected)
            && forall ident :: ident in expected <==> ManagesIdent(manifest, ident, managed)
  {
    SelectDocumentsMeaning([], manifest, managed);
  }
}
