/** Failure types, JSON trees and the few sequence facts shared by the other modules. */
module Basics {

  datatype Option<+T> = None | Some(value: T)

  /** The outcome of a step that the scripts end either normally or by raising. */
  datatype Result<+T> = Ok(value: T) | Err {

    predicate IsFailure() {
      Err?
    }

    function PropagateFailure<U>(): Result<U>
      requires Err?
    {
      Err
    }

    function Extract(): T
      requires Ok?
    {
      value
    }
  }

  predicate NoDuplicates<T(==)>(s: seq<T>) {
    forall i, j :: 0 <= i < j < |s| ==> s[i] != s[j]
  }

  predicate StartsWith(s: string, prefix: string) {
    |prefix| <= |s| && s[..|prefix|] == prefix
  }

  function RemovePrefix(s: string, prefix: string): string {
    if StartsWith(s, prefix) then s[|prefix|..] else s
  }

  function Lower(s: string): string {
    seq(|s|, i requires 0 <= i < |s| => if 'A' <= s[i] <= 'Z' then s[i] - 'A' + 'a' else s[i])
  }

  /** Keeps the first occurrence of every element, as `dict.fromkeys` does. */
  function FirstOccurrences<T(==,!new)>(s: seq<T>): (r: seq<T>)
    ensures NoDuplicates(r)
    ensures forall x :: x in r <==> x in s
  {
    if s == [] then
      []
    else
      var rest := FirstOccurrences(s[..|s| - 1]);
      if s[|s| - 1] in rest then rest else rest + [s[|s| - 1]]
  }

  /** `kubectl` names a workload by kind and name. */
  const DEPLOYMENT_PREFIX := "deployment/"

  function Resource(name: string): string {
    DEPLOYMENT_PREFIX + name
  }

  function NameOf(resource: string): string {
    RemovePrefix(resource, DEPLOYMENT_PREFIX)
  }

  lemma {:induction false} NameOfResource(name: string)
    ensures NameOf(Resource(name)) == name
  {
    assert Resource(name)[..|DEPLOYMENT_PREFIX|] == DEPLOYMENT_PREFIX;
    assert Resource(name)[|DEPLOYMENT_PREFIX|..] == name;
  }

  lemma {:induction false} ResourceOfName(resource: string)
    requires StartsWith(resource, DEPLOYMENT_PREFIX)
    ensures Resource(NameOf(resource)) == resource
  {
  }
}

/** JSON values as the scripts hold them after parsing. */
module JsonTrees {
  import opened Basics

  datatype Json =
    | JNull
    | JBool(flag: bool)
    | JNumber(number: real)
    | JString(text: string)
    | JList(items: seq<Json>)
    | JObject(fields: map<string, Json>)

  /** `value.get(key)`: an absent key and an explicit null read the same. */
  function Get(value: Json, key: string): Json {
    if value.JObject? && key in value.fields then value.fields[key] else JNull
  }

  /** Two objects with the same keys and values, except perhaps under this key. */
  ghost predicate SameBut(a: Json, b: Json, key: string) {
    && a.JObject? && b.JObject?
    && forall other :: other != key ==>
         && (other in a.fields <==> other in b.fields)
         && (other in a.fields ==> a.fields[other] == b.fields[other])
  }

  /** `template.spec.containers`, when every step of the path is an object or list. */
  function Containers(template: Json): Option<seq<Json>> {
    var podSpec := Get(template, "spec");
    var containers := Get(podSpec, "containers");
    if podSpec.JObject? && containers.JList? then Some(containers.items) else None
  }

  /** Two templates that differ at most in their containers. */
  ghost predicate SameOutside(a: Json, b: Json) {
    SameBut(a, b, "spec") && SameBut(Get(a, "spec"), Get(b, "spec"), "containers")
  }

  function WithContainers(template: Json, containers: seq<Json>): (r: Json)
    requires Containers(template).Some?
    ensures Containers(r) == Some(containers)
    ensures SameOutside(template, r)
  {
    var podSpec := Get(template, "spec");
    JObject(template.fields["spec" := JObject(podSpec.fields["containers" := JList(containers)])])
  }

  lemma {:induction false} SameContainersSameTemplate(template: Json)
    requires Containers(template).Some?
    ensures WithContainers(template, Containers(template).value) == template
  {
    var podSpec := Get(template, "spec");
    assert podSpec.fields["containers" := JList(Containers(template).value)] == podSpec.fields;
    assert template.fields["spec" := podSpec] == template.fields;
  }

  function WithImage(container: Json, image: string): (r: Json)
    requires container.JObject?
    ensures SameBut(container, r, "image") && Get(r, "image") == JString(image)
    ensures Get(r, "name") == Get(container, "name")
  {
    JObject(container.fields["image" := JString(image)])
  }

  lemma {:induction false} SameImageSameContainer(container: Json)
    requires Get(container, "image").JString?
    ensures WithImage(container, Get(container, "image").text) == container
  {
    assert container.fields["image" := container.fields["image"]] == container.fields;
  }
}
