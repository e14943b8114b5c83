/** Reading a namespace's containers and images out of a listing of its Deployments. */
module Inventories {
  import opened Basics
  import opened JsonTrees
  import opened Clusters

  datatype Ident = Ident(deployment: string, container: string)

  /** A dictionary that remembers the order its keys were added in. */
  datatype Inventory = Inventory(order: seq<Ident>, images: map<Ident, string>)

  const EMPTY := Inventory([], map[])

  function AddContainer(inv: Inventory, deployment: string, container: Json): Result<Inventory> {
    var name, image := Get(container, "name"), Get(container, "image");
    if !container.JObject? || !name.JString? || !image.JString? || Ident(deployment, name.text) in inv.images then Err
    else
      var id := Ident(deployment, name.text);
      Ok(Inventory(inv.order + [id], inv.images[id := image.text]))
  }

  function AddContainers(inv: Inventory, deployment: string, containers: seq<Json>): Result<Inventory>
    decreases |containers|
  {
    if containers == [] then Ok(inv)
    else
      var next :- AddContainer(inv, deployment, containers[0]);
      AddContainers(next, deployment, containers[1..])
  }

  function AddItems(inv: Inventory, items: seq<Item>): Result<Inventory>
    decreases |items|
  {
    if items == [] then Ok(inv)
    else
      var containers := Containers(items[0].spec.template);
      if containers.None? then Err
      else
        var next :- AddContainers(inv, items[0].name, containers.value);
        AddItems(next, items[1..])
  }

  function LiveImages(items: seq<Item>): Result<Inventory> {
    AddItems(EMPTY, items)
  }

  method LiveDeploymentImages(items: seq<Item>) returns (r: Result<Inventory>)
    ensures r == LiveImages(items)
  {
    var inv := EMPTY;
    for i := 0 to |items|
      invariant LiveImages(items) == AddItems(inv, items[i..])
    {
      var containers := Containers(items[i].spec.template);
      if containers.None? {
        return Err;
      }
      var cs := containers.value;
      ghost var before := inv;
      for k := 0 to |cs|
        invariant AddContainers(before, items[i].name, cs) == AddContainers(inv, items[i].name, cs[k..])
      {
        assert cs[k..][0] == cs[k] && cs[k..][1..] == cs[k + 1..];
        var next := AddContainer(inv, items[i].name, cs[k]);
        if next.Err? {
          return Err;
        }
        inv := next.value;
      }
      assert items[i..][0] == items[i] && items[i..][1..] == items[i + 1..];
    }
    return Ok(inv);
  }

  // ---- what a listing shows, stated on the cluster itself ----

  /** The image of the first container with that name. */
  function FindImage(containers: seq<Json>, name: string): Option<string> {
    if containers == [] then None
    else if Get(containers[0], "name") == JString(name) then
      if Get(containers[0], "image").JString? then Some(Get(containers[0], "image").text) else None
    else FindImage(containers[1..], name)
  }

  predicate ReadableContainer(container: Json) {
    container.JObject? && Get(container, "name").JString? && Get(container, "image").JString?
  }

  /** Every container has a name and an image, and the names differ. */
  predicate ReadableContainers(containers: seq<Json>) {
    && (forall i :: 0 <= i < |containers| ==> ReadableContainer(containers[i]))
    && (forall i, j :: 0 <= i < j < |containers| ==> Get(containers[i], "name") != Get(containers[j], "name"))
  }

  predicate ReadableTemplate(template: Json) {
    Containers(template).Some? && ReadableContainers(Containers(template).value)
  }

  predicate Readable(s: State, namespace: string) {
    forall id :: id in s && id.namespace == namespace ==> ReadableTemplate(s[id].template)
  }

  function TemplateImage(template: Json, name: string): Option<string> {
    if Containers(template).Some? then FindImage(Containers(template).value, name) else None
  }

  function ImageAt(s: State, namespace: string, ident: Ident): Option<string> {
    var id := Id(namespace, ident.deployment);
    if id in s then TemplateImage(s[id].template, ident.container) else None
  }

  /** The dictionary shows the images of the namespace, all of them and no others. */
  ghost predicate Shows(images: map<Ident, string>, s: State, namespace: string) {
    forall ident ::
      && (ident in images <==> ImageAt(s, namespace, ident).Some?)
      && (ident in images ==> images[ident] == ImageAt(s, namespace, ident).value)
  }

  ghost predicate Ordered(inv: Inventory) {
    NoDuplicates(inv.order) && forall ident :: ident in inv.order <==> ident in inv.images
  }

  predicate FreshContainers(inv: Inventory, deployment: string, containers: seq<Json>) {
    && ReadableContainers(containers)
    && forall i :: 0 <= i < |containers| ==> Ident(deployment, Get(containers[i], "name").text) !in inv.images
  }

  lemma {:induction false} AddContainersAccepts(inv: Inventory, deployment: string, containers: seq<Json>)
    ensures AddContainers(inv, deployment, containers).Ok? <==> FreshContainers(inv, deployment, containers)
    decreases |containers|
  {
    if containers != [] {
      var c, rest := containers[0], containers[1..];
      assert containers == [c] + rest;
      var next := AddContainer(inv, deployment, c);
      if next.Ok? {
        AddContainersAccepts(next.value, deployment, rest);
        FreshStep(inv, next.value, deployment, c, rest);
      }
    }
  }

  lemma {:induction false} FreshStep(inv: Inventory, next: Inventory, deployment: string, c: Json, rest: seq<Json>)
    requires AddContainer(inv, deployment, c) == Ok(next)
    ensures FreshContainers(inv, deployment, [c] + rest) <==> FreshContainers(next, deployment, rest)
  {
    var all := [c] + rest;
    assert forall i :: 0 <= i < |rest| ==> rest[i] == all[i + 1];
    if FreshContainers(next, deployment, rest) {
      forall i, j | 0 <= i < j < |all|
        ensures Get(all[i], "name") != Get(all[j], "name")
      {
        assert all[j] == rest[j - 1];
      }
      forall i | 0 <= i < |all|
        ensures ReadableContainer(all[i]) && Ident(deployment, Get(all[i], "name").text) !in inv.images
      {
        if i > 0 {
          assert all[i] == rest[i - 1];
        }
      }
    }
    if FreshContainers(inv, deployment, all) {
      forall i | 0 <= i < |rest|
        ensures ReadableContainer(rest[i]) && Ident(deployment, Get(rest[i], "name").text) !in next.images
      {
        assert Get(all[0], "name") != Get(all[i + 1], "name");
      }
    }
  }

  /** Adding a workload's containers adds exactly their images. */
  ghost predicate AddsImages(before: map<Ident, string>, after: map<Ident, string>, deployment: string, containers: seq<Json>) {
    && (forall ident :: ident in before ==> ident in after && after[ident] == before[ident])
    && (forall ident :: ident in after && ident !in before ==>
          ident.deployment == deployment && FindImage(containers, ident.container) == Some(after[ident]))
    && (forall name :: FindImage(containers, name).Some? ==> Ident(deployment, name) in after)
  }

  lemma {:induction false} AddContainersAdds(inv: Inventory, deployment: string, containers: seq<Json>)
    requires Ordered(inv) && AddContainers(inv, deployment, containers).Ok?
    ensures Ordered(AddContainers(inv, deployment, containers).value)
    ensures AddsImages(inv.images, AddContainers(inv, deployment, containers).value.images, deployment, containers)
    decreases |containers|
  {
    if containers != [] {
      var next := AddContainer(inv, deployment, containers[0]).value;
      assert Ordered(next);
      AddContainersAdds(next, deployment, containers[1..]);
      var after := AddContainers(inv, deployment, containers).value;
      assert after == AddContainers(next, deployment, containers[1..]).value;
      var first := Ident(deployment, Get(containers[0], "name").text);
      assert first in next.images && after.images[first] == next.images[first];
    }
  }

  lemma {:induction false} ImageOfContainer(containers: seq<Json>, i: nat)
    requires ReadableContainers(containers) && i < |containers|
    ensures FindImage(containers, Get(containers[i], "name").text) == Some(Get(containers[i], "image").text)
  {
    if i > 0 {
      var rest := containers[1..];
      assert ReadableContainers(rest);
      ImageOfContainer(rest, i - 1);
    }
  }

  predicate DistinctNames(items: seq<Item>) {
    forall i, j :: 0 <= i < j < |items| ==> items[i].name != items[j].name
  }

  predicate NewNames(inv: Inventory, items: seq<Item>) {
    forall ident :: ident in inv.images ==> forall i :: 0 <= i < |items| ==> items[i].name != ident.deployment
  }

  predicate ReadableItems(items: seq<Item>) {
    forall i :: 0 <= i < |items| ==> ReadableTemplate(items[i].spec.template)
  }

  lemma {:induction false} AddItemStep(inv: Inventory, items: seq<Item>) returns (next: Result<Inventory>)
    requires Ordered(inv) && DistinctNames(items) && NewNames(inv, items) && items != []
    ensures ReadableTemplate(items[0].spec.template) <==> next.Ok?
    ensures next.Ok? ==>
              && AddItems(inv, items) == AddItems(next.value, items[1..])
              && Ordered(next.value) && NewNames(next.value, items[1..])
              && AddsImages(inv.images, next.value.images, items[0].name, Containers(items[0].spec.template).value)
    ensures next.Err? ==> AddItems(inv, items).Err?
  {
    var containers := Containers(items[0].spec.template);
    if containers.None? {
      next := Err;
    } else {
      next := AddContainers(inv, items[0].name, containers.value);
      AddContainersAccepts(inv, items[0].name, containers.value);
      if next.Ok? {
        AddContainersAdds(inv, items[0].name, containers.value);
      }
    }
  }

  lemma {:induction false} AddItemsAccepts(inv: Inventory, items: seq<Item>)
    requires Ordered(inv) && DistinctNames(items) && NewNames(inv, items)
    ensures AddItems(inv, items).Ok? <==> ReadableItems(items)
    decreases |items|
  {
    if items != [] {
      var next := AddItemStep(inv, items);
      assert forall i :: 0 < i < |items| ==> items[i] == items[1..][i - 1];
      if next.Ok? {
        AddItemsAccepts(next.value, items[1..]);
      }
    }
  }

  ghost predicate ShowsItems(before: map<Ident, string>, after: map<Ident, string>, items: seq<Item>) {
    && (forall ident :: ident in before ==> ident in after && after[ident] == before[ident])
    && (forall ident :: ident in after && ident !in before ==>
          exists i :: 0 <= i < |items| && items[i].name == ident.deployment
                      && TemplateImage(items[i].spec.template, ident.container) == Some(after[ident]))
    && (forall i, name :: 0 <= i < |items| && TemplateImage(items[i].spec.template, name).Some? ==>
          Ident(items[i].name, name) in after)
  }

  lemma {:induction false} AddItemsAdds(inv: Inventory, items: seq<Item>)
    requires Ordered(inv) && DistinctNames(items) && NewNames(inv, items)
    requires AddItems(inv, items).Ok?
    ensures Ordered(AddItems(inv, items).value)
    ensures ShowsItems(inv.images, AddItems(inv, items).value.images, items)
    decreases |items|
  {
    if items != [] {
      var next := AddItemStep(inv, items);
      AddItemsAdds(next.value, items[1..]);
      ShowsStep(inv.images, next.value.images, AddItems(inv, items).value.images, items);
    }
  }

  lemma {:induction false} ShowsStep(before: map<Ident, string>, next: map<Ident, string>, after: map<Ident, string>, items: seq<Item>)
    requires items != [] && Containers(items[0].spec.template).Some?
    requires AddsImages(before, next, items[0].name, Containers(items[0].spec.template).value)
    requires ShowsItems(next, after, items[1..])
    ensures ShowsItems(before, after, items)
  {
    var rest := items[1..];
    forall ident | ident in after && ident !in before
      ensures exists i :: 0 <= i < |items| && items[i].name == ident.deployment
                          && TemplateImage(items[i].spec.template, ident.container) == Some(after[ident])
    {
      if ident in next {
        assert items[0].name == ident.deployment;
      } else {
        var i :| 0 <= i < |rest| && rest[i].name == ident.deployment
                 && TemplateImage(rest[i].spec.template, ident.container) == Some(after[ident]);
        assert items[i + 1] == rest[i];
      }
    }
    forall i, name | 0 <= i < |items| && TemplateImage(items[i].spec.template, name).Some?
      ensures Ident(items[i].name, name) in after
    {
      if i > 0 {
        assert rest[i - 1] == items[i];
      }
    }
  }

  /** A listing can be read exactly when every template in the namespace can be, and then it shows the cluster. */
  lemma {:induction false} ListingShowsCluster(items: seq<Item>, s: State, namespace: string)
    requires IsListing(items, s, namespace)
    ensures LiveImages(items).Ok? <==> Readable(s, namespace)
    ensures LiveImages(items).Ok? ==>
              Ordered(LiveImages(items).value) && Shows(LiveImages(items).value.images, s, namespace)
  {
    AddItemsAccepts(EMPTY, items);
    ReadableListing(items, s, namespace);
    if LiveImages(items).Ok? {
      AddItemsAdds(EMPTY, items);
      var images := LiveImages(items).value.images;
      forall ident
        ensures ident in images <==> ImageAt(s, namespace, ident).Some?
        ensures ident in images ==> images[ident] == ImageAt(s, namespace, ident).value
      {
        ListedImage(items, images, s, namespace, ident);
      }
    }
  }

  lemma {:induction false} ReadableListing(items: seq<Item>, s: State, namespace: string)
    requires IsListing(items, s, namespace)
    ensures ReadableItems(items) <==> Readable(s, namespace)
  {
    if ReadableItems(items) {
      forall id | id in s && id.namespace == namespace
        ensures ReadableTemplate(s[id].template)
      {
        var i :| 0 <= i < |items| && items[i] == Item(id.name, s[id]);
      }
    }
  }

  lemma {:induction false} ListedImage(items: seq<Item>, images: map<Ident, string>, s: State, namespace: string, ident: Ident)
    requires IsListing(items, s, namespace) && ShowsItems(map[], images, items)
    ensures ident in images <==> ImageAt(s, namespace, ident).Some?
    ensures ident in images ==> images[ident] == ImageAt(s, namespace, ident).value
  {
    var id := Id(namespace, ident.deployment);
    if ident in images {
      var i :| 0 <= i < |items| && items[i].name == ident.deployment
               && TemplateImage(items[i].spec.template, ident.container) == Some(images[ident]);
      assert s[id] == items[i].spec;
    }
    if id in s && ImageAt(s, namespace, ident).Some? {
      var i :| 0 <= i < |items| && items[i] == Item(id.name, s[id]);
      assert TemplateImage(items[i].spec.template, ident.container).Some?;
      assert Ident(items[i].name, ident.container) == ident;
    }
  }

  // ---- the order of an inventory ----

  /** The containers of a workload in the order of its template. */
  function ContainerIdents(deployment: string, containers: seq<Json>): (r: seq<Ident>)
    ensures |r| == |containers|
    ensures forall i :: 0 <= i < |r| ==> r[i].deployment == deployment
  {
    seq(|containers|, i requires 0 <= i < |containers| =>
      Ident(deployment, if Get(containers[i], "name").JString? then Get(containers[i], "name").text else ""))
  }

  /** The containers of all items, from the first to the last. */
  function ItemIdents(items: seq<Item>): seq<Ident> {
    if items == [] then []
    else
      var containers := Containers(items[0].spec.template);
      (if containers.Some? then ContainerIdents(items[0].name, containers.value) else []) + ItemIdents(items[1..])
  }

  lemma {:induction false} ContainersInOrder(inv: Inventory, deployment: string, containers: seq<Json>)
    requires AddContainers(inv, deployment, containers).Ok?
    ensures AddContainers(inv, deployment, containers).value.order == inv.order + ContainerIdents(deployment, containers)
    decreases |containers|
  {
    if containers != [] {
      var next := AddContainer(inv, deployment, containers[0]).value;
      ContainersInOrder(next, deployment, containers[1..]);
      assert ContainerIdents(deployment, containers)
          == [Ident(deployment, Get(containers[0], "name").text)] + ContainerIdents(deployment, containers[1..]);
    }
  }

  lemma {:induction false} ItemsInOrder(inv: Inventory, items: seq<Item>)
    requires AddItems(inv, items).Ok?
    ensures AddItems(inv, items).value.order == inv.order + ItemIdents(items)
    decreases |items|
  {
    if items != [] {
      var containers := Containers(items[0].spec.template).value;
      var next := AddContainers(inv, items[0].name, containers).value;
      ContainersInOrder(inv, items[0].name, containers);
      ItemsInOrder(next, items[1..]);
      assert inv.order + ContainerIdents(items[0].name, containers) + ItemIdents(items[1..]) == inv.order + ItemIdents(items);
    }
  }

  /** An inventory keeps the order of the listing and, within a workload, of its template. */
  lemma {:induction false} InventoryInOrder(items: seq<Item>)
    requires LiveImages(items).Ok?
    ensures LiveImages(items).value.order == ItemIdents(items)
  {
    ItemsInOrder(EMPTY, items);
  }
}
