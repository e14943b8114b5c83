/** What a captured plan records, stated on the expected list and on the live cluster. */
module CaptureFacts {
  import opened Basics
  import opened JsonTrees
  import opened Images
  import opened Ordering
  import opened Clusters
  import opened Inventories
  import opened Plans
  import opened Capture

  // ---- the two passes ----

  predicate Capturable(ident: Ident, inv: Inventory, q: Request) {
    if ident in inv.images then Recordable(inv.images[ident], q)
    else forall live :: live in inv.images ==> live.deployment != ident.deployment
  }

  /** A live image is recorded when it is a digest, or attested. */
  predicate Recordable(image: string, q: Request) {
    IsImageDigest(image) || image in q.verified
  }

  /** What stands for a live image in the plan: the image itself, or the digest its tag is attested to have. */
  ghost predicate StandsFor(recorded: string, image: string, q: Request) {
    && (IsImageDigest(image) ==> recorded == image)
    && (!IsImageDigest(image) ==> image in q.verified && recorded == q.verified[image])
  }

  predicate Protectable(ident: Ident, inv: Inventory, q: Request)
    requires ident in inv.images && q.repository.Some?
  {
    var image := inv.images[ident];
    || ident in q.expected
    || (&& ImageRepository(image).Ok?
        && (ImageRepository(image).value == q.repository.value ==>
              Recordable(image, q) && (image in q.verified && !IsImageDigest(image) ==> q.verified[image] != "")))
  }

  /** The expected containers that are live, in the order expected; and those that are not. */
  function LiveAmong(idents: seq<Ident>, inv: Inventory): seq<Ident> {
    if idents == [] then []
    else (if idents[0] in inv.images then [idents[0]] else []) + LiveAmong(idents[1..], inv)
  }

  function AbsentAmong(idents: seq<Ident>, inv: Inventory): seq<Ident> {
    if idents == [] then []
    else (if idents[0] in inv.images then [] else [idents[0]]) + AbsentAmong(idents[1..], inv)
  }

  /** The live containers of the managed repository that are not expected, in live order. */
  function OutsideAmong(idents: seq<Ident>, inv: Inventory, q: Request): seq<Ident>
    requires q.repository.Some? && forall i :: 0 <= i < |idents| ==> idents[i] in inv.images
  {
    if idents == [] then []
    else
      (if idents[0] !in q.expected && ImageRepository(inv.images[idents[0]]) == Ok(q.repository.value) then [idents[0]] else [])
      + OutsideAmong(idents[1..], inv, q)
  }

  function TargetOf(ident: Ident, inv: Inventory, q: Request): RollbackTarget
    requires ident in inv.images && Recorded(inv.images[ident], q.verified).Some?
  {
    RollbackTarget(q.namespace, Resource(ident.deployment), ident.container, Recorded(inv.images[ident], q.verified).value)
  }

  function BootstrapOf(ident: Ident, q: Request): BootstrapTarget {
    BootstrapTarget(q.namespace, Resource(ident.deployment), ident.container, NOT_PRESENT)
  }

  function ProtectedOf(ident: Ident, inv: Inventory, q: Request): ProtectedTarget
    requires ident in inv.images && Recorded(inv.images[ident], q.verified).Some?
  {
    ProtectedTarget(
      q.namespace, Resource(ident.deployment), ident.container, Recorded(inv.images[ident], q.verified).value, OUTSIDE_SCOPE)
  }

  /** The i-th of `recorded` is made from the i-th of `idents`. */
  ghost predicate RecordsTargets(recorded: seq<RollbackTarget>, idents: seq<Ident>, inv: Inventory, q: Request) {
    && |recorded| == |idents|
    && forall i :: 0 <= i < |idents| ==>
         && idents[i] in inv.images
         && Recorded(inv.images[idents[i]], q.verified).Some?
         && recorded[i] == TargetOf(idents[i], inv, q)
  }

  ghost predicate RecordsBootstraps(recorded: seq<BootstrapTarget>, idents: seq<Ident>, q: Request) {
    |recorded| == |idents| && forall i :: 0 <= i < |idents| ==> recorded[i] == BootstrapOf(idents[i], q)
  }

  ghost predicate RecordsProtecteds(recorded: seq<ProtectedTarget>, idents: seq<Ident>, inv: Inventory, q: Request) {
    && |recorded| == |idents|
    && forall i :: 0 <= i < |idents| ==>
         && idents[i] in inv.images
         && Recorded(inv.images[idents[i]], q.verified).Some?
         && recorded[i] == ProtectedOf(idents[i], inv, q)
  }

  function TagsOf(idents: seq<Ident>, inv: Inventory): set<string> {
    set i | 0 <= i < |idents| && idents[i] in inv.images && !IsImageDigest(inv.images[idents[i]]) :: inv.images[idents[i]]
  }

  lemma {:induction false} TagsOfCons(ident: Ident, rest: seq<Ident>, inv: Inventory)
    requires ident in inv.images
    ensures TagsOf([ident] + rest, inv) == UsedTags(inv.images[ident]) + TagsOf(rest, inv)
  {
    var all := [ident] + rest;
    forall tag | tag in TagsOf(rest, inv)
      ensures tag in TagsOf(all, inv)
    {
      var i :| 0 <= i < |rest| && rest[i] in inv.images && !IsImageDigest(inv.images[rest[i]]) && tag == inv.images[rest[i]];
      assert all[i + 1] == rest[i];
    }
    forall tag | tag in TagsOf(all, inv)
      ensures tag in UsedTags(inv.images[ident]) + TagsOf(rest, inv)
    {
      var i :| 0 <= i < |all| && all[i] in inv.images && !IsImageDigest(inv.images[all[i]]) && tag == inv.images[all[i]];
      if i > 0 {
        assert rest[i - 1] == all[i];
      }
    }
    if !IsImageDigest(inv.images[ident]) {
      assert all[0] == ident;
    }
  }

  lemma {:induction false} ExpectedPassAccepts(d: Draft, idents: seq<Ident>, inv: Inventory, q: Request)
    ensures CaptureAllExpected(d, idents, inv, q).Ok? <==> forall i :: 0 <= i < |idents| ==> Capturable(idents[i], inv, q)
    decreases |idents|
  {
    if idents != [] {
      var rest := idents[1..];
      assert forall i :: 0 < i < |idents| ==> idents[i] == rest[i - 1];
      assert CaptureExpected(d, idents[0], inv, q).Ok? <==> Capturable(idents[0], inv, q);
      if Capturable(idents[0], inv, q) {
        ExpectedPassAccepts(CaptureExpected(d, idents[0], inv, q).value, rest, inv, q);
        assert forall i :: 0 <= i < |rest| ==> rest[i] == idents[i + 1];
      }
    }
  }

  ghost predicate ExpectedPassLeaves(d: Draft, r: Draft, idents: seq<Ident>, inv: Inventory, q: Request) {
    && d.targets <= r.targets
    && d.bootstraps <= r.bootstraps
    && r.protecteds == d.protecteds
    && RecordsTargets(r.targets[|d.targets|..], LiveAmong(idents, inv), inv, q)
    && RecordsBootstraps(r.bootstraps[|d.bootstraps|..], AbsentAmong(idents, inv), q)
    && r.used == d.used + TagsOf(LiveAmong(idents, inv), inv)
  }

  lemma {:induction false} ExpectedPass(d: Draft, idents: seq<Ident>, inv: Inventory, q: Request)
    requires CaptureAllExpected(d, idents, inv, q).Ok?
    ensures ExpectedPassLeaves(d, CaptureAllExpected(d, idents, inv, q).value, idents, inv, q)
    decreases |idents|
  {
    if idents != [] {
      var next := CaptureExpected(d, idents[0], inv, q).value;
      ExpectedPass(next, idents[1..], inv, q);
      var r := CaptureAllExpected(next, idents[1..], inv, q).value;
      if idents[0] in inv.images {
        ExpectedLive(d, next, r, idents, inv, q);
      } else {
        ExpectedAbsent(d, next, r, idents, inv, q);
      }
    }
  }

  lemma {:induction false} ExpectedLive(d: Draft, next: Draft, r: Draft, idents: seq<Ident>, inv: Inventory, q: Request)
    requires idents != [] && idents[0] in inv.images
    requires CaptureExpected(d, idents[0], inv, q) == Ok(next)
    requires ExpectedPassLeaves(next, r, idents[1..], inv, q)
    ensures ExpectedPassLeaves(d, r, idents, inv, q)
  {
    var ident, live := idents[0], LiveAmong(idents[1..], inv);
    TagsOfCons(ident, live, inv);
    assert r.targets[|d.targets|..] == [TargetOf(ident, inv, q)] + r.targets[|next.targets|..];
    assert LiveAmong(idents, inv) == [ident] + live;
    assert AbsentAmong(idents, inv) == AbsentAmong(idents[1..], inv);
  }

  lemma {:induction false} ExpectedAbsent(d: Draft, next: Draft, r: Draft, idents: seq<Ident>, inv: Inventory, q: Request)
    requires idents != [] && idents[0] !in inv.images
    requires CaptureExpected(d, idents[0], inv, q) == Ok(next)
    requires ExpectedPassLeaves(next, r, idents[1..], inv, q)
    ensures ExpectedPassLeaves(d, r, idents, inv, q)
  {
    assert r.bootstraps[|d.bootstraps|..] == [BootstrapOf(idents[0], q)] + r.bootstraps[|next.bootstraps|..];
    assert AbsentAmong(idents, inv) == [idents[0]] + AbsentAmong(idents[1..], inv);
    assert LiveAmong(idents, inv) == LiveAmong(idents[1..], inv);
  }

  predicate AllLive(idents: seq<Ident>, inv: Inventory) {
    forall i :: 0 <= i < |idents| ==> idents[i] in inv.images
  }

  lemma {:induction false} ProtectedPassAccepts(d: Draft, idents: seq<Ident>, inv: Inventory, q: Request)
    requires q.repository.Some? && AllLive(idents, inv)
    ensures CaptureAllProtected(d, idents, inv, q).Ok? <==> forall i :: 0 <= i < |idents| ==> Protectable(idents[i], inv, q)
    decreases |idents|
  {
    if idents != [] {
      var rest := idents[1..];
      assert forall i :: 0 < i < |idents| ==> idents[i] == rest[i - 1];
      assert CaptureProtected(d, idents[0], inv, q).Ok? <==> Protectable(idents[0], inv, q);
      if Protectable(idents[0], inv, q) {
        ProtectedPassAccepts(CaptureProtected(d, idents[0], inv, q).value, rest, inv, q);
        assert forall i :: 0 <= i < |rest| ==> rest[i] == idents[i + 1];
      }
    }
  }

  ghost predicate ProtectedPassLeaves(d: Draft, r: Draft, idents: seq<Ident>, inv: Inventory, q: Request)
    requires q.repository.Some? && AllLive(idents, inv)
  {
    && r.targets == d.targets
    && r.bootstraps == d.bootstraps
    && d.protecteds <= r.protecteds
    && RecordsProtecteds(r.protecteds[|d.protecteds|..], OutsideAmong(idents, inv, q), inv, q)
    && r.used == d.used + TagsOf(OutsideAmong(idents, inv, q), inv)
  }

  lemma {:induction false} ProtectedPass(d: Draft, idents: seq<Ident>, inv: Inventory, q: Request)
    requires q.repository.Some? && AllLive(idents, inv)
    requires CaptureAllProtected(d, idents, inv, q).Ok?
    ensures ProtectedPassLeaves(d, CaptureAllProtected(d, idents, inv, q).value, idents, inv, q)
    decreases |idents|
  {
    if idents != [] {
      var next := CaptureProtected(d, idents[0], inv, q).value;
      ProtectedPass(next, idents[1..], inv, q);
      var r := CaptureAllProtected(next, idents[1..], inv, q).value;
      ProtectedStep(d, next, r, idents, inv, q);
    }
  }

  lemma {:induction false} ProtectedStep(d: Draft, next: Draft, r: Draft, idents: seq<Ident>, inv: Inventory, q: Request)
    requires q.repository.Some? && AllLive(idents, inv) && idents != []
    requires CaptureProtected(d, idents[0], inv, q) == Ok(next)
    requires ProtectedPassLeaves(next, r, idents[1..], inv, q)
    ensures ProtectedPassLeaves(d, r, idents, inv, q)
  {
    if idents[0] !in q.expected && ImageRepository(inv.images[idents[0]]) == Ok(q.repository.value) {
      ProtectedOutside(d, next, r, idents, inv, q);
    } else {
      assert next == d;
      assert OutsideAmong(idents, inv, q) == OutsideAmong(idents[1..], inv, q);
    }
  }

  lemma {:induction false} ProtectedOutside(d: Draft, next: Draft, r: Draft, idents: seq<Ident>, inv: Inventory, q: Request)
    requires q.repository.Some? && AllLive(idents, inv) && idents != []
    requires idents[0] !in q.expected && ImageRepository(inv.images[idents[0]]) == Ok(q.repository.value)
    requires CaptureProtected(d, idents[0], inv, q) == Ok(next)
    requires ProtectedPassLeaves(next, r, idents[1..], inv, q)
    ensures ProtectedPassLeaves(d, r, idents, inv, q)
  {
    var ident, outside := idents[0], OutsideAmong(idents[1..], inv, q);
    TagsOfCons(ident, outside, inv);
    assert next.protecteds == d.protecteds + [ProtectedOf(ident, inv, q)];
    assert r.protecteds[|d.protecteds|..] == [ProtectedOf(ident, inv, q)] + r.protecteds[|next.protecteds|..];
    assert OutsideAmong(idents, inv, q) == [ident] + outside;
  }

  // ---- the whole plan ----

  function OutsideOf(inv: Inventory, q: Request): seq<Ident>
    requires Ordered(inv)
  {
    if q.repository.Some? then OutsideAmong(inv.order, inv, q) else []
  }

  /** The exact contents of the plan: targets and bootstraps split the expected list in its own order, the
      protected are what else the repository runs, and the attestations used are exactly those given. */
  ghost predicate Partitions(p: Plan, inv: Inventory, q: Request)
    requires Ordered(inv)
  {
    && RecordsTargets(p.targets, LiveAmong(q.expected, inv), inv, q)
    && RecordsBootstraps(p.bootstrapTargets, AbsentAmong(q.expected, inv), q)
    && RecordsProtecteds(p.protectedTargets, OutsideOf(inv, q), inv, q)
    && (forall i :: 0 <= i < |q.expected| ==> Capturable(q.expected[i], inv, q))
    && (q.repository.Some? ==> forall i :: 0 <= i < |inv.order| ==> Protectable(inv.order[i], inv, q))
    && q.verified.Keys == TagsOf(LiveAmong(q.expected, inv), inv) + TagsOf(OutsideOf(inv, q), inv)
  }

  lemma {:induction false} PlanPartitions(q: Request, items: seq<Item>)
    requires PlanOf(q, items).Ok?
    ensures LiveImages(items).Ok? && Ordered(LiveImages(items).value)
    ensures Partitions(PlanOf(q, items).value, LiveImages(items).value, q)
    ensures var p := PlanOf(q, items).value;
            && p.previousReleaseSha == q.previousReleaseSha && IsGitSha(q.previousReleaseSha)
            && IsKubernetesName(q.namespace)
            && CaptureStates([], SortedSet(TargetResources(p.targets), Less), items, q.namespace) == Ok(p.deploymentStates)
            && (p.targets != [] || p.bootstrapTargets != [] || p.protectedTargets != [])
  {
    InventoryOrdered(items);
    var inv := LiveImages(items).value;
    var first := CaptureAllExpected(EMPTY_DRAFT, q.expected, inv, q);
    ExpectedPassAccepts(EMPTY_DRAFT, q.expected, inv, q);
    ExpectedPass(EMPTY_DRAFT, q.expected, inv, q);
    if q.repository.Some? {
      ProtectedPassAccepts(first.value, inv.order, inv, q);
      ProtectedPass(first.value, inv.order, inv, q);
    }
    var d := CaptureDraft(inv, q).value;
    assert d.used == TagsOf(LiveAmong(q.expected, inv), inv) + TagsOf(OutsideOf(inv, q), inv);
    TagsAttested(LiveAmong(q.expected, inv), inv, q);
    TagsAttested(OutsideOf(inv, q), inv, q);
  }

  /** Field by field, what a target says of the container it was captured from, and likewise a protected container. */
  lemma {:induction false} RecordedExactly(p: Plan, inv: Inventory, q: Request)
    requires Ordered(inv) && Partitions(p, inv, q)
    ensures forall i :: 0 <= i < |p.targets| ==>
              var t, ident := p.targets[i], LiveAmong(q.expected, inv)[i];
              && t.namespace == q.namespace && t.resource == DEPLOYMENT_PREFIX + ident.deployment && t.container == ident.container
              && StandsFor(t.image, inv.images[ident], q)
    ensures forall i :: 0 <= i < |p.protectedTargets| ==>
              var t, ident := p.protectedTargets[i], OutsideOf(inv, q)[i];
              && t.namespace == q.namespace && t.resource == DEPLOYMENT_PREFIX + ident.deployment && t.container == ident.container
              && StandsFor(t.image, inv.images[ident], q)
  {
    forall i | 0 <= i < |p.targets|
      ensures StandsFor(p.targets[i].image, inv.images[LiveAmong(q.expected, inv)[i]], q)
    {
      RecordedStandsFor(inv.images[LiveAmong(q.expected, inv)[i]], q);
    }
    forall i | 0 <= i < |p.protectedTargets|
      ensures StandsFor(p.protectedTargets[i].image, inv.images[OutsideOf(inv, q)[i]], q)
    {
      RecordedStandsFor(inv.images[OutsideOf(inv, q)[i]], q);
    }
  }

  lemma {:induction false} RecordedStandsFor(image: string, q: Request)
    requires Recorded(image, q.verified).Some?
    ensures StandsFor(Recorded(image, q.verified).value, image, q)
  {
  }

  lemma {:induction false} TagsAttested(idents: seq<Ident>, inv: Inventory, q: Request)
    requires forall i :: 0 <= i < |idents| ==> idents[i] in inv.images && Recorded(inv.images[idents[i]], q.verified).Some?
    ensures TagsOf(idents, inv) <= q.verified.Keys
  {
  }

  lemma {:induction false} LiveAmongMeaning(idents: seq<Ident>, inv: Inventory)
    ensures forall ident :: ident in LiveAmong(idents, inv) <==> ident in idents && ident in inv.images
    ensures forall ident :: ident in AbsentAmong(idents, inv) <==> ident in idents && ident !in inv.images
    ensures NoDuplicates(idents) ==> NoDuplicates(LiveAmong(idents, inv)) && NoDuplicates(AbsentAmong(idents, inv))
  {
    if idents != [] {
      LiveAmongMeaning(idents[1..], inv);
      assert idents == [idents[0]] + idents[1..];
    }
  }

  lemma {:induction false} OutsideAmongMeaning(idents: seq<Ident>, inv: Inventory, q: Request)
    requires q.repository.Some? && AllLive(idents, inv)
    ensures forall ident :: ident in OutsideAmong(idents, inv, q) <==>
              ident in idents && ident !in q.expected && ImageRepository(inv.images[ident]) == Ok(q.repository.value)
    ensures NoDuplicates(idents) ==> NoDuplicates(OutsideAmong(idents, inv, q))
  {
    if idents != [] {
      OutsideAmongMeaning(idents[1..], inv, q);
      assert idents == [idents[0]] + idents[1..];
    }
  }
}
