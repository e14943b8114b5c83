/** What the computed patches and creations contain, document by document. */
module PatchFacts {
  import opened Basics
  import opened JsonTrees
  import opened Images
  import opened Clusters
  import opened Inventories
  import opened Manifests
  import opened Plans
  import opened RolloutPlanning

  // ---- one container, one template ----

  /** The container as the manifest has it, but for its image: the release's, its own live one, or the manifest's. */
  ghost predicate IsPatched(before: Json, after: Json, c: PatchContext) {
    var name := Get(before, "name");
    && name.JString?
    && SameBut(before, after, "image")
    && Get(after, "image").JString? && IsImageDigest(Get(after, "image").text)
    && Get(after, "image")
       == if name.text in c.targets then JString(c.image)
          else if LiveImageOf(c.live, name.text) != JNull then LiveImageOf(c.live, name.text)
          else Get(before, "image")
  }

  predicate HasName(containers: seq<Json>, name: Json) {
    exists i :: 0 <= i < |containers| && Get(containers[i], "name") == name
  }

  predicate DistinctContainers(containers: seq<Json>) {
    forall i, j :: 0 <= i < j < |containers| ==> Get(containers[i], "name") != Get(containers[j], "name")
  }

  ghost predicate PatchesContainers(seen: set<string>, containers: seq<Json>, after: seq<Json>, names: set<string>, c: PatchContext) {
    && |after| == |containers|
    && (forall i :: 0 <= i < |containers| ==> IsPatched(containers[i], after[i], c))
    && (forall i :: 0 <= i < |containers| ==> Get(containers[i], "name").text !in seen)
    && DistinctContainers(containers)
    && (forall name :: name in names <==> name in seen || HasName(containers, JString(name)))
  }

  lemma {:induction false} ContainersPatched(acc: seq<Json>, seen: set<string>, containers: seq<Json>, c: PatchContext)
    requires PatchContainers(acc, seen, containers, c).Ok? && IsImageDigest(c.image)
    ensures var r := PatchContainers(acc, seen, containers, c).value;
            acc <= r.0 && PatchesContainers(seen, containers, r.0[|acc|..], r.1, c)
    decreases |containers|
  {
    if containers != [] {
      var first, rest := PatchContainer(containers[0], c, seen).value, containers[1..];
      var name := Get(containers[0], "name").text;
      ContainersPatched(acc + [first], seen + {name}, rest, c);
      var r := PatchContainers(acc, seen, containers, c).value;
      assert r.0[|acc|..] == [first] + r.0[|acc| + 1..];
      ContainersStep(seen, containers, r.0[|acc| + 1..], r.1, c, first);
    }
  }

  lemma {:induction false} ContainersStep(
    seen: set<string>, containers: seq<Json>, others: seq<Json>, names: set<string>, c: PatchContext, first: Json)
    requires containers != [] && IsPatched(containers[0], first, c)
    requires Get(containers[0], "name").text !in seen
    requires PatchesContainers(seen + {Get(containers[0], "name").text}, containers[1..], others, names, c)
    ensures PatchesContainers(seen, containers, [first] + others, names, c)
  {
    var rest := containers[1..];
    assert containers == [containers[0]] + rest;
    forall name
      ensures HasName(containers, JString(name)) <==> Get(containers[0], "name") == JString(name) || HasName(rest, JString(name))
    {
      HasNameCons(containers[0], rest, JString(name));
    }
    assert forall i :: 0 < i < |containers| ==> containers[i] == rest[i - 1];
    forall j | 0 < j < |containers|
      ensures Get(containers[0], "name") != Get(containers[j], "name")
    {
      assert Get(rest[j - 1], "name").text != Get(containers[0], "name").text;
    }
  }

  lemma {:induction false} HasNameCons(c: Json, rest: seq<Json>, name: Json)
    ensures HasName([c] + rest, name) <==> Get(c, "name") == name || HasName(rest, name)
  {
    var all := [c] + rest;
    if i :| 0 <= i < |rest| && Get(rest[i], "name") == name {
      assert all[i + 1] == rest[i];
    }
    if Get(c, "name") == name {
      assert all[0] == c;
    }
    if i :| 0 <= i < |all| && Get(all[i], "name") == name {
      assert i > 0 ==> rest[i - 1] == all[i];
    }
  }

  /** A patched template is the manifest's: its containers in order, with every live container by name among them, and
      outside of them nothing changed. */
  ghost predicate TemplatePatched(before: Json, after: Json, c: PatchContext) {
    && Containers(before).Some? && Containers(after).Some? && SameOutside(before, after)
    && |Containers(after).value| == |Containers(before).value|
    && (forall i :: 0 <= i < |Containers(after).value| ==> IsPatched(Containers(before).value[i], Containers(after).value[i], c))
    && DistinctContainers(Containers(before).value)
    && (forall i :: 0 <= i < |c.live| ==>
          c.live[i].JObject? && Get(c.live[i], "name").JString? && HasName(Containers(before).value, Get(c.live[i], "name")))
  }

  lemma {:induction false} TemplatePatchedFrom(before: Json, c: PatchContext)
    requires Containers(before).Some? && PatchTemplate(before, c).Ok? && IsImageDigest(c.image)
    ensures TemplatePatched(before, PatchTemplate(before, c).value, c)
  {
    ContainersPatched([], {}, Containers(before).value, c);
    var r := PatchContainers([], {}, Containers(before).value, c).value;
    assert r.0[0..] == r.0;
  }

  // ---- one patch per captured state ----

  predicate IsPatchedDocument(document: Json, p: Plan) {
    && IsDeploymentDocument(document)
    && DocumentName(document).JString?
    && StateNamed(p.deploymentStates, Resource(DocumentName(document).text))
  }

  predicate StateNamed(states: seq<DeploymentState>, resource: string) {
    exists i :: 0 <= i < |states| && states[i].resource == resource
  }

  /** The namespace of the first state of that name. */
  function NamespaceOfState(states: seq<DeploymentState>, resource: string): string {
    if states == [] then "" else if states[0].resource == resource then states[0].namespace else NamespaceOfState(states[1..], resource)
  }

  predicate OneStateNamespace(states: seq<DeploymentState>, resource: string) {
    forall i :: 0 <= i < |states| && states[i].resource == resource ==> states[i].namespace == NamespaceOfState(states, resource)
  }

  lemma {:induction false} FirstStateNamed(states: seq<DeploymentState>, resource: string)
    requires StateNamed(states, resource)
    ensures NamespaceOfState(states, resource) in StateNamespaces(states, resource)
  {
    if states[0].resource != resource {
      var rest := states[1..];
      var i :| 0 <= i < |states| && states[i].resource == resource;
      assert rest[i - 1].resource == resource;
      FirstStateNamed(rest, resource);
      var j :| 0 <= j < |rest| && rest[j].resource == resource && rest[j].namespace == NamespaceOfState(rest, resource);
      assert states[j + 1] == rest[j];
    }
  }

  /** The namespace to patch in: there is one exactly when all captured workloads of that name agree on it. */
  lemma {:induction false} OnlyStateNamespace(states: seq<DeploymentState>, resource: string)
    ensures StateNamespaces(states, resource) != {} <==> StateNamed(states, resource)
    ensures Only(StateNamespaces(states, resource)).Ok? <==> StateNamed(states, resource) && OneStateNamespace(states, resource)
    ensures Only(StateNamespaces(states, resource)).Ok? ==>
              Only(StateNamespaces(states, resource)).value == NamespaceOfState(states, resource)
  {
    var namespaces := StateNamespaces(states, resource);
    OnlyMeaning(namespaces);
    if StateNamed(states, resource) {
      FirstStateNamed(states, resource);
      var namespace := NamespaceOfState(states, resource);
      if OneStateNamespace(states, resource) {
        assert namespaces == {namespace};
      }
      if Only(namespaces).Ok? {
        forall i | 0 <= i < |states| && states[i].resource == resource
          ensures states[i].namespace == namespace
        {
          assert states[i].namespace in namespaces;
        }
      }
    }
  }

  function PatchWorkload(patch: Patch): Workload {
    Workload(patch.namespace, patch.resource)
  }

  /** The strategy is the document's own or, where it has none, the other one; a null counts as one. */
  predicate StrategyOf(document: Json, otherwise: Json, strategy: Json) {
    var spec := Get(document, "spec");
    && (spec.JObject? && "strategy" in spec.fields ==> strategy == spec.fields["strategy"])
    && (!spec.JObject? || "strategy" !in spec.fields ==> strategy == otherwise)
  }

  /** The patch comes from this document and the state captured for the workload. */
  ghost predicate PatchFrom(patch: Patch, document: Json, p: Plan, image: string) {
    && DocumentName(document).JString? && patch.resource == Resource(DocumentName(document).text)
    && (DocumentNamespace(document) == JNull || DocumentNamespace(document) == JString(patch.namespace))
    && DocumentContainers(document).Some?
    && PatchWorkload(patch) in StateWorkloadSet(p.deploymentStates)
    && StateAt(p.deploymentStates, PatchWorkload(patch)).Some?
    && patch.strategy.JObject? && StrategyOf(document, StateAt(p.deploymentStates, PatchWorkload(patch)).value.strategy, patch.strategy)
    && Containers(StateAt(p.deploymentStates, PatchWorkload(patch)).value.template).Some?
    && TargetNames(p.targets, PatchWorkload(patch)) != {}
    && TemplatePatched(DocumentTemplate(document), patch.template, PatchContextOf(p, patch, image))
  }

  function PatchContextOf(p: Plan, patch: Patch, image: string): PatchContext
    requires StateAt(p.deploymentStates, PatchWorkload(patch)).Some?
    requires Containers(StateAt(p.deploymentStates, PatchWorkload(patch)).value.template).Some?
  {
    PatchContext(
      TargetNames(p.targets, PatchWorkload(patch)),
      Containers(StateAt(p.deploymentStates, PatchWorkload(patch)).value.template).value,
      image)
  }

  lemma {:induction false} StateAtExists(states: seq<DeploymentState>, w: Workload)
    ensures StateAt(states, w).Some? <==> w in StateWorkloads(states)
  {
    if states != [] {
      var init, last := states[..|states| - 1], states[|states| - 1];
      StateAtExists(init, w);
      StateWorkloadsSnoc(init, last);
      assert states == init + [last];
    }
  }

  lemma {:induction false} StateWorkloadsSnoc(init: seq<DeploymentState>, last: DeploymentState)
    ensures StateWorkloads(init + [last]) == StateWorkloads(init) + [Workload(last.namespace, last.resource)]
  {
  }

  lemma {:induction false} StateAtFound(states: seq<DeploymentState>, w: Workload) returns (i: nat)
    requires StateAt(states, w).Some?
    ensures i < |states| && StateAt(states, w) == Some(states[i]) && StateWorkloads(states)[i] == w
  {
    i := |states| - 1;
    if StateWorkloads(states)[i] != w {
      i := StateAtFound(states[..|states| - 1], w);
    }
  }

  lemma {:induction false} OnlyMeaning(namespaces: set<string>)
    ensures Only(namespaces).Ok? ==> namespaces == {Only(namespaces).value}
    ensures Only(namespaces).Ok? <==> |namespaces| == 1
  {
    if Only(namespaces).Ok? {
      assert IsOnly(namespaces, Only(namespaces).value);
    }
  }

  lemma {:induction false} DocumentPatched(d: PatchDraft, document: Json, p: Plan, image: string) returns (patch: Option<Patch>)
    requires PatchDocument(d, document, p, image).Ok? && IsImageDigest(image)
    ensures document.JObject? && (IsDeploymentDocument(document) ==> DocumentName(document).JString?)
    ensures patch.Some? <==> IsPatchedDocument(document, p)
    ensures patch.None? ==> PatchDocument(d, document, p, image).value == d
    ensures patch.Some? ==>
              && PatchDocument(d, document, p, image).value
                 == PatchDraft(d.patches + [patch.value], d.observed + {PatchWorkload(patch.value)})
              && PatchWorkload(patch.value) !in d.observed
              && PatchFrom(patch.value, document, p, image)
  {
    if document.JObject? && DocumentName(document).JString? {
      OnlyStateNamespace(p.deploymentStates, Resource(DocumentName(document).text));
    }
    if !IsPatchedDocument(document, p) {
      return None;
    }
    var r := PatchDocument(d, document, p, image).value;
    patch := Some(r.patches[|r.patches| - 1]);
    var w := PatchWorkload(patch.value);
    OnlyMeaning(StateNamespaces(p.deploymentStates, w.resource));
    StateAtExists(p.deploymentStates, w);
    TemplatePatchedFrom(DocumentTemplate(document), PatchContextOf(p, patch.value, image));
  }

  function PatchWorkloads(patches: seq<Patch>): (r: seq<Workload>)
    ensures |r| == |patches| && forall i :: 0 <= i < |r| ==> r[i] == PatchWorkload(patches[i])
  {
    seq(|patches|, i requires 0 <= i < |patches| => PatchWorkload(patches[i]))
  }

  function PatchWorkloadSet(patches: seq<Patch>): set<Workload> {
    set w | w in PatchWorkloads(patches)
  }

  /** One patch for every document that matches, each made from some document, no workload twice. */
  ghost predicate OnePerDocument(
    added: seq<Patch>, observed: set<Workload>, manifest: seq<Json>, matches: Json -> bool, makes: (Json, Patch) -> bool)
  {
    && NoDuplicates(PatchWorkloads(added))
    && (forall i :: 0 <= i < |added| ==> PatchWorkload(added[i]) !in observed && MadeFromSome(added[i], manifest, makes))
    && (forall k :: 0 <= k < |manifest| && matches(manifest[k]) ==> MakesSome(manifest[k], added, makes))
  }

  ghost predicate MadeFromSome(patch: Patch, manifest: seq<Json>, makes: (Json, Patch) -> bool) {
    exists k :: 0 <= k < |manifest| && makes(manifest[k], patch)
  }

  ghost predicate MakesSome(document: Json, patches: seq<Patch>, makes: (Json, Patch) -> bool) {
    exists i :: 0 <= i < |patches| && makes(document, patches[i])
  }

  lemma {:induction false} SkippedDocument(
    added: seq<Patch>, observed: set<Workload>, document: Json, rest: seq<Json>, matches: Json -> bool, makes: (Json, Patch) -> bool)
    requires !matches(document) && OnePerDocument(added, observed, rest, matches, makes)
    ensures OnePerDocument(added, observed, [document] + rest, matches, makes)
  {
    var manifest := [document] + rest;
    assert forall k :: 0 < k < |manifest| ==> manifest[k] == rest[k - 1];
    forall i | 0 <= i < |added|
      ensures MadeFromSome(added[i], manifest, makes)
    {
      var k :| 0 <= k < |rest| && makes(rest[k], added[i]);
      assert manifest[k + 1] == rest[k];
    }
  }

  lemma {:induction false} MatchedDocument(
    patch: Patch, others: seq<Patch>, observed: set<Workload>, document: Json, rest: seq<Json>,
    matches: Json -> bool, makes: (Json, Patch) -> bool)
    requires makes(document, patch) && PatchWorkload(patch) !in observed
    requires OnePerDocument(others, observed + {PatchWorkload(patch)}, rest, matches, makes)
    ensures OnePerDocument([patch] + others, observed, [document] + rest, matches, makes)
  {
    var manifest, added := [document] + rest, [patch] + others;
    assert PatchWorkloads(added) == [PatchWorkload(patch)] + PatchWorkloads(others);
    assert manifest[0] == document && added[0] == patch;
    forall i | 0 <= i < |added|
      ensures PatchWorkload(added[i]) !in observed && MadeFromSome(added[i], manifest, makes)
    {
      if i > 0 {
        assert added[i] == others[i - 1];
        var k :| 0 <= k < |rest| && makes(rest[k], others[i - 1]);
        assert manifest[k + 1] == rest[k];
      }
    }
    forall k | 0 <= k < |manifest| && matches(manifest[k])
      ensures MakesSome(manifest[k], added, makes)
    {
      if k > 0 {
        assert manifest[k] == rest[k - 1];
        var i :| 0 <= i < |others| && makes(rest[k - 1], others[i]);
        assert added[i + 1] == others[i];
      }
    }
  }

  function MatchesState(p: Plan): Json -> bool {
    document => IsPatchedDocument(document, p)
  }

  ghost function MakesPatch(p: Plan, image: string): (Json, Patch) -> bool {
    (document, patch) => IsDeploymentDocument(document) && PatchFrom(patch, document, p, image)
  }

  predicate ReadableDocuments(manifest: seq<Json>) {
    forall k :: 0 <= k < |manifest| ==>
      manifest[k].JObject? && (IsDeploymentDocument(manifest[k]) ==> DocumentName(manifest[k]).JString?)
  }

  lemma {:induction false} DocumentsPatched(d: PatchDraft, manifest: seq<Json>, p: Plan, image: string) returns (added: seq<Patch>)
    requires PatchDocuments(d, manifest, p, image).Ok? && IsImageDigest(image)
    ensures PatchDocuments(d, manifest, p, image).value == PatchDraft(d.patches + added, d.observed + PatchWorkloadSet(added))
    ensures OnePerDocument(added, d.observed, manifest, MatchesState(p), MakesPatch(p, image))
    ensures ReadableDocuments(manifest)
    decreases |manifest|
  {
    if manifest == [] {
      added := [];
      assert d.patches + added == d.patches && PatchWorkloads(added) == [];
    } else {
      var next := PatchDocument(d, manifest[0], p, image).value;
      var patch := DocumentPatched(d, manifest[0], p, image);
      var others := DocumentsPatched(next, manifest[1..], p, image);
      added := if patch.Some? then [patch.value] + others else others;
      DocumentAdded(d, next, manifest, others, patch, MatchesState(p), MakesPatch(p, image));
    }
  }

  ghost predicate AddedTo(d: PatchDraft, added: seq<Patch>, next: PatchDraft, others: seq<Patch>) {
    d.patches + added == next.patches + others && d.observed + PatchWorkloadSet(added) == next.observed + PatchWorkloadSet(others)
  }

  lemma {:induction false} OneMoreAdded(d: PatchDraft, patch: Patch, others: seq<Patch>)
    ensures AddedTo(d, [patch] + others, PatchDraft(d.patches + [patch], d.observed + {PatchWorkload(patch)}), others)
  {
    assert PatchWorkloads([patch] + others) == [PatchWorkload(patch)] + PatchWorkloads(others);
  }

  lemma {:induction false} DocumentAdded(
    d: PatchDraft, next: PatchDraft, manifest: seq<Json>, others: seq<Patch>, patch: Option<Patch>,
    matches: Json -> bool, makes: (Json, Patch) -> bool)
    requires manifest != [] && (patch.Some? <==> matches(manifest[0]))
    requires patch.None? ==> next == d
    requires patch.Some? ==>
               && next == PatchDraft(d.patches + [patch.value], d.observed + {PatchWorkload(patch.value)})
               && PatchWorkload(patch.value) !in d.observed && makes(manifest[0], patch.value)
    requires OnePerDocument(others, next.observed, manifest[1..], matches, makes)
    ensures var added := if patch.Some? then [patch.value] + others else others;
            AddedTo(d, added, next, others) && OnePerDocument(added, d.observed, manifest, matches, makes)
  {
    assert manifest == [manifest[0]] + manifest[1..];
    if patch.Some? {
      MatchedDocument(patch.value, others, d.observed, manifest[0], manifest[1..], matches, makes);
      OneMoreAdded(d, patch.value, others);
    } else {
      SkippedDocument(others, d.observed, manifest[0], manifest[1..], matches, makes);
    }
  }

  /** Exactly one patch per captured state, each made from the one document that names the workload. */
  lemma {:induction false} OnePatchPerState(p: Plan, manifest: seq<Json>, image: string)
    requires NoDuplicates(StateWorkloads(p.deploymentStates)) && SpecPatches(p, manifest, image).Ok?
    ensures IsImageDigest(image)
    ensures var patches := SpecPatches(p, manifest, image).value;
            && |patches| == |p.deploymentStates|
            && PatchWorkloadSet(patches) == StateWorkloadSet(p.deploymentStates)
            && (p.deploymentStates != [] ==>
                  ReadableDocuments(manifest) && OnePerDocument(patches, {}, manifest, MatchesState(p), MakesPatch(p, image)))
  {
    var patches := SpecPatches(p, manifest, image).value;
    if p.deploymentStates != [] {
      PatchesComputed(p, manifest, image);
      PatchesOfStates(patches, {}, manifest, p, image);
    } else {
      assert PatchWorkloads(patches) == [] && StateWorkloads(p.deploymentStates) == [];
    }
    forall w: Workload
      ensures w in PatchWorkloads(patches) <==> w in StateWorkloads(p.deploymentStates)
    {
      assert w in PatchWorkloads(patches) <==> w in PatchWorkloadSet(patches);
      assert w in StateWorkloads(p.deploymentStates) <==> w in StateWorkloadSet(p.deploymentStates);
    }
    SameSizeLists(PatchWorkloads(patches), StateWorkloads(p.deploymentStates));
  }

  lemma {:induction false} PatchesComputed(p: Plan, manifest: seq<Json>, image: string)
    requires SpecPatches(p, manifest, image).Ok? && p.deploymentStates != []
    ensures var patches := SpecPatches(p, manifest, image).value;
            && StateWorkloadSet(p.deploymentStates) <= PatchWorkloadSet(patches)
            && ReadableDocuments(manifest)
            && OnePerDocument(patches, {}, manifest, MatchesState(p), MakesPatch(p, image))
  {
    var added := DocumentsPatched(PatchDraft([], {}), manifest, p, image);
    assert [] + added == added;
  }

  /** No workload is patched twice, whatever the plan. */
  lemma {:induction false} PatchesDistinct(p: Plan, manifest: seq<Json>, image: string)
    requires SpecPatches(p, manifest, image).Ok?
    ensures var patches := SpecPatches(p, manifest, image).value;
            && NoDuplicates(PatchWorkloads(patches))
            && forall i :: 0 <= i < |patches| ==> StartsWith(patches[i].resource, DEPLOYMENT_PREFIX)
  {
    var patches := SpecPatches(p, manifest, image).value;
    if p.deploymentStates != [] {
      PatchesComputed(p, manifest, image);
      forall i | 0 <= i < |patches|
        ensures StartsWith(patches[i].resource, DEPLOYMENT_PREFIX)
      {
        var k :| 0 <= k < |manifest| && MakesPatch(p, image)(manifest[k], patches[i]);
        assert PatchFrom(patches[i], manifest[k], p, image);
      }
    }
  }

  lemma {:induction false} SameSizeLists<T>(a: seq<T>, b: seq<T>)
    requires NoDuplicates(a) && NoDuplicates(b)
    requires forall x :: x in a <==> x in b
    ensures |a| == |b|
  {
    DistinctListSize(a);
    DistinctListSize(b);
    assert (set x | x in a) == (set x | x in b);
  }

  lemma {:induction false} PatchesOfStates(patches: seq<Patch>, observed: set<Workload>, manifest: seq<Json>, p: Plan, image: string)
    requires OnePerDocument(patches, observed, manifest, MatchesState(p), MakesPatch(p, image))
    ensures PatchWorkloadSet(patches) <= StateWorkloadSet(p.deploymentStates)
  {
    forall w | w in PatchWorkloads(patches)
      ensures w in StateWorkloadSet(p.deploymentStates)
    {
      var i :| 0 <= i < |patches| && PatchWorkloads(patches)[i] == w;
      var k :| 0 <= k < |manifest| && MakesPatch(p, image)(manifest[k], patches[i]);
      assert PatchFrom(patches[i], manifest[k], p, image);
    }
  }

  lemma {:induction false} DistinctListSize<T>(s: seq<T>)
    requires NoDuplicates(s)
    ensures |set x | x in s| == |s|
  {
    if s != [] {
      var init, last := s[..|s| - 1], s[|s| - 1];
      DistinctListSize(init);
      assert s == init + [last];
      assert (set x | x in s) == (set x | x in init) + {last};
    }
  }
}
