/** The sanitised evidence a rollout may write about the specs it is going to change. */
module Evidence {
  import opened Basics
  import opened JsonTrees

  const REDACTED := JString("<redacted>")

  const SENSITIVE_MARKERS: seq<string> := [
    "API_KEY", "AUTH", "CONNECTION", "CREDENTIAL", "DATABASE_URL", "DSN",
    "PASSWORD", "PRIVATE_KEY", "REDIS_URL", "SECRET", "TOKEN", "WEBHOOK_URL"]

  const SAFE_ANNOTATIONS: set<string> := {
    "deployment.kubernetes.io/revision", "kubectl.kubernetes.io/restartedAt", "opsia.io/deployment-scope",
    "opsia.io/release-id", "opsia.io/release-sha", "opsia.io/rollout-id", "opsia.io/source-sha", "checksum/config",
    "prometheus.io/path", "prometheus.io/port", "prometheus.io/scrape"}

  /** The fields of a reference to a secret that may be shown. */
  function ReferenceFields(key: string): Option<set<string>> {
    if key == "secretRef" then Some({"name", "optional"})
    else if key == "secretKeyRef" then Some({"name", "key", "optional"})
    else if key == "secret" then Some({"secretName", "optional", "defaultMode", "items"})
    else None
  }

  function Upper(s: string): (r: string)
    ensures |r| == |s|
  {
    seq(|s|, i requires 0 <= i < |s| => if 'a' <= s[i] <= 'z' then s[i] - 'a' + 'A' else s[i])
  }

  predicate ContainsAt(s: string, part: string, i: nat) {
    i + |part| <= |s| && s[i..i + |part|] == part
  }

  predicate Contains(s: string, part: string) {
    exists i :: 0 <= i <= |s| && ContainsAt(s, part, i)
  }

  predicate IsSensitive(name: string) {
    exists k :: 0 <= k < |SENSITIVE_MARKERS| && Contains(Upper(name), SENSITIVE_MARKERS[k])
  }

  predicate IsEnvEntry(fields: map<string, Json>) {
    Get(JObject(fields), "name").JString? && "value" in fields
  }

  predicate HasSensitiveName(fields: map<string, Json>) {
    var name := Get(JObject(fields), "name");
    name.JString? && IsSensitive(name.text)
  }

  /** What becomes of one field of an spec. */
  datatype Treatment = Redact | Reference(allowed: set<string>) | PullSecrets | Recurse

  function TreatmentOf(fields: map<string, Json>, key: string): Treatment
    requires key in fields
  {
    var item := fields[key];
    if ReferenceFields(key).Some? && item.JObject? then Reference(ReferenceFields(key).value)
    else if key == "value" && (IsEnvEntry(fields) || HasSensitiveName(fields)) then Redact
    else if key == "data" || key == "stringData" then Redact
    else if key == "imagePullSecrets" && item.JList? then PullSecrets
    else if IsSensitive(key) then Redact
    else Recurse
  }

  /** The names of the pull secrets that have one, in order. */
  function PullSecretNames(entries: seq<Json>): seq<Json> {
    if entries == [] then []
    else
      var name := Get(entries[0], "name");
      (if entries[0].JObject? && name.JString? then [JObject(map["name" := name])] else [])
      + PullSecretNames(entries[1..])
  }

  predicate IsArguments(owner: Option<string>) {
    owner == Some("args") || owner == Some("command")
  }

  /** `_sanitized_spec_evidence`. */
  function Sanitize(value: Json, owner: Option<string>): Json
    decreases value, 1
  {
    match value
    case JList(items) =>
      if IsArguments(owner) then JList(seq(|items|, i => REDACTED))
      else JList(seq(|items|, i requires 0 <= i < |items| => Sanitize(items[i], owner)))
    case JObject(fields) =>
      JObject(map key | key in fields ::
        if owner != Some("annotations") then SanitizeField(value, key)
        else if key in SAFE_ANNOTATIONS then Sanitize(fields[key], Some(key))
        else REDACTED)
    case _ => value
  }

  function SanitizeField(spec: Json, key: string): Json
    requires spec.JObject? && key in spec.fields
    decreases spec, 0
  {
    match TreatmentOf(spec.fields, key)
    case Redact => REDACTED
    case Reference(allowed) =>
      var item := spec.fields[key];
      JObject(map field | field in item.fields && field in allowed :: Sanitize(item.fields[field], Some(field)))
    case PullSecrets => JList(PullSecretNames(spec.fields[key].items))
    case Recurse => Sanitize(spec.fields[key], Some(key))
  }

  // ---- sanitising twice changes nothing more ----

  lemma {:induction false} SanitizeKeepsKind(value: Json, owner: Option<string>)
    ensures Sanitize(value, owner).JObject? <==> value.JObject?
    ensures Sanitize(value, owner).JList? <==> value.JList?
    ensures !value.JObject? && !value.JList? ==> Sanitize(value, owner) == value
  {
  }

  lemma {:induction false} MarkedKeys()
    ensures IsSensitive("secretRef") && IsSensitive("secretKeyRef") && IsSensitive("secret") && IsSensitive("imagePullSecrets")
    ensures !IsSensitive("name")
  {
    assert SENSITIVE_MARKERS[9] == "SECRET";
    assert ContainsAt(Upper("secretRef"), "SECRET", 0);
    assert ContainsAt(Upper("secretKeyRef"), "SECRET", 0);
    assert ContainsAt(Upper("secret"), "SECRET", 0);
    assert ContainsAt(Upper("imagePullSecrets"), "SECRET", 9);
    assert Upper("name") == "NAME";
    forall k, i | 0 <= k < |SENSITIVE_MARKERS| && 0 <= i <= 4
      ensures !ContainsAt("NAME", SENSITIVE_MARKERS[k], i)
    {
      if k == 5 {
        assert "NAME"[0] != 'D' && "NAME"[1] != 'D';
      }
      if k == 1 {
        assert "NAME"[0] != 'A';
      }
    }
  }

  lemma {:induction false} NameKept(spec: Json, owner: Option<string>)
    requires spec.JObject? && owner != Some("annotations")
    ensures var after := Sanitize(spec, owner);
            && (Get(spec, "name").JString? <==> Get(after, "name").JString?)
            && (Get(spec, "name").JString? ==> Get(after, "name") == Get(spec, "name"))
  {
    MarkedKeys();
    if "name" in spec.fields {
      SanitizeKeepsKind(spec.fields["name"], Some("name"));
    }
  }

  lemma {:induction false} TreatmentKept(spec: Json, owner: Option<string>, key: string)
    requires spec.JObject? && owner != Some("annotations") && key in spec.fields
    ensures key in Sanitize(spec, owner).fields
    ensures TreatmentOf(Sanitize(spec, owner).fields, key) == TreatmentOf(spec.fields, key)
  {
    MarkedKeys();
    NameKept(spec, owner);
    SanitizeKeepsKind(spec.fields[key], Some(key));
    var after := Sanitize(spec, owner);
    assert JObject(after.fields) == after && JObject(spec.fields) == spec;
    assert after.fields[key] == SanitizeField(spec, key);
  }

  lemma {:induction false} PullSecretNamesTwice(entries: seq<Json>)
    ensures PullSecretNames(PullSecretNames(entries)) == PullSecretNames(entries)
  {
    if entries != [] {
      PullSecretNamesTwice(entries[1..]);
      var rest, name := PullSecretNames(entries[1..]), Get(entries[0], "name");
      if entries[0].JObject? && name.JString? {
        var shown := JObject(map["name" := name]);
        assert PullSecretNames(entries) == [shown] + rest;
        assert ([shown] + rest)[1..] == rest;
        assert Get(shown, "name") == name;
      } else {
        assert PullSecretNames(entries) == rest;
      }
    }
  }

  /** Sanitised evidence is left as it is by sanitising it again. */
  lemma {:induction false} Idempotent(value: Json, owner: Option<string>)
    ensures Sanitize(Sanitize(value, owner), owner) == Sanitize(value, owner)
    decreases value, 1
  {
    match value
    case JList(items) =>
      if !IsArguments(owner) {
        forall i | 0 <= i < |items|
          ensures Sanitize(Sanitize(items[i], owner), owner) == Sanitize(items[i], owner)
        {
          Idempotent(items[i], owner);
        }
      }
    case JObject(fields) =>
      var once := Sanitize(value, owner);
      var twice := Sanitize(once, owner);
      forall key | key in fields
        ensures twice.fields[key] == once.fields[key]
      {
        if owner != Some("annotations") {
          FieldIdempotent(value, owner, key);
        } else if key in SAFE_ANNOTATIONS {
          Idempotent(fields[key], Some(key));
        }
      }
      assert twice.fields == once.fields;
    case _ =>
  }

  lemma {:induction false} FieldIdempotent(spec: Json, owner: Option<string>, key: string)
    requires spec.JObject? && owner != Some("annotations") && key in spec.fields
    ensures key in Sanitize(spec, owner).fields
    ensures SanitizeField(Sanitize(spec, owner), key) == Sanitize(spec, owner).fields[key]
    decreases spec, 0
  {
    var once := Sanitize(spec, owner);
    TreatmentKept(spec, owner, key);
    match TreatmentOf(spec.fields, key)
    case Redact =>
    case Reference(allowed) =>
      var item, after := spec.fields[key], once.fields[key];
      forall field | field in item.fields && field in allowed
        ensures Sanitize(after.fields[field], Some(field)) == after.fields[field]
      {
        Idempotent(item.fields[field], Some(field));
      }
      assert SanitizeField(once, key).fields == after.fields;
    case PullSecrets =>
      PullSecretNamesTwice(spec.fields[key].items);
    case Recurse =>
      Idempotent(spec.fields[key], Some(key));
  }

  // ---- the evidence shows the public part, all of it and nothing else ----

  /** The names of those entries that are objects and have one. */
  function NamesShown(entries: seq<Json>): seq<string> {
    if entries == [] then []
    else
      var last := entries[|entries| - 1];
      NamesShown(entries[..|entries| - 1])
      + (if last.JObject? && "name" in last.fields && last.fields["name"].JString? then [last.fields["name"].text] else [])
  }

  function AsPullSecrets(names: seq<string>): (r: seq<Json>)
    ensures |r| == |names| && forall i :: 0 <= i < |r| ==> r[i] == JObject(map["name" := JString(names[i])])
  {
    seq(|names|, i requires 0 <= i < |names| => JObject(map["name" := JString(names[i])]))
  }

  lemma {:induction false} PullSecretsConcat(a: seq<Json>, b: seq<Json>)
    ensures PullSecretNames(a + b) == PullSecretNames(a) + PullSecretNames(b)
  {
    if a == [] {
      assert a + b == b;
    } else {
      assert (a + b)[1..] == a[1..] + b;
      PullSecretsConcat(a[1..], b);
    }
  }

  /** Of pull secrets the evidence shows the names and nothing else, each in an object of its own. */
  lemma {:induction false} PullSecretsShown(entries: seq<Json>)
    ensures PullSecretNames(entries) == AsPullSecrets(NamesShown(entries))
  {
    if entries != [] {
      var init, last := entries[..|entries| - 1], entries[|entries| - 1];
      assert entries == init + [last];
      PullSecretsConcat(init, [last]);
      PullSecretsShown(init);
      assert [last][1..] == [];
    }
  }

  lemma {:induction false} SamePullSecrets(x: seq<Json>, y: seq<Json>)
    ensures PullSecretNames(x) == PullSecretNames(y) <==> NamesShown(x) == NamesShown(y)
  {
    PullSecretsShown(x);
    PullSecretsShown(y);
    var a, b := NamesShown(x), NamesShown(y);
    if AsPullSecrets(a) == AsPullSecrets(b) {
      forall i | 0 <= i < |a|
        ensures i < |b| && a[i] == b[i]
      {
        assert AsPullSecrets(a)[i] == AsPullSecrets(b)[i];
        assert map["name" := JString(a[i])]["name"] == map["name" := JString(b[i])]["name"];
      }
      assert |a| == |AsPullSecrets(a)| == |b|;
    }
  }

  /** Two specs agree wherever nothing is secret. */
  ghost predicate SamePublic(a: Json, b: Json, owner: Option<string>)
    decreases a, 1
  {
    if a.JList? && b.JList? then
      && |a.items| == |b.items|
      && (owner != Some("args") && owner != Some("command") ==>
            forall i :: 0 <= i < |a.items| ==> SamePublic(a.items[i], b.items[i], owner))
    else if a.JObject? && b.JObject? then
      && a.fields.Keys == b.fields.Keys
      && forall key :: key in a.fields ==>
           if owner != Some("annotations") then SamePublicField(a, b, key)
           else key in SAFE_ANNOTATIONS ==> SamePublic(a.fields[key], b.fields[key], Some(key))
    else a == b
  }

  predicate IsReference(key: string) {
    key == "secretRef" || key == "secretKeyRef" || key == "secret"
  }

  /** A reference to a secret shows which secret and which parts of it, and never a value. */
  predicate IsPublicField(key: string, field: string) {
    || field == "optional"
    || (key == "secretRef" && field == "name")
    || (key == "secretKeyRef" && (field == "name" || field == "key"))
    || (key == "secret" && (field == "secretName" || field == "defaultMode" || field == "items"))
  }

  lemma {:induction false} ReferenceMeaning(key: string)
    ensures ReferenceFields(key).Some? <==> IsReference(key)
    ensures ReferenceFields(key).Some? ==> forall field :: field in ReferenceFields(key).value <==> IsPublicField(key, field)
  {
  }

  ghost predicate SamePublicField(a: Json, b: Json, key: string)
    requires a.JObject? && b.JObject? && key in a.fields && key in b.fields
    decreases a, 0
  {
    var x, y := a.fields[key], b.fields[key];
    if IsReference(key) then
      // of a reference only some fields are public; anything else under such a key is hidden whole
      && (x.JObject? <==> y.JObject?)
      && (x.JObject? ==> forall field :: IsPublicField(key, field) ==>
            && (field in x.fields <==> field in y.fields)
            && (field in x.fields ==> SamePublic(x.fields[field], y.fields[field], Some(field))))
    else if key == "imagePullSecrets" then
      && (x.JList? <==> y.JList?)
      && (x.JList? ==> NamesShown(x.items) == NamesShown(y.items))
    else if key == "data" || key == "stringData" || IsSensitive(key) then true
    else if key == "value" && Get(a, "name").JString? then true
    else SamePublic(x, y, Some(key))
  }

  lemma {:induction false} NameIsPublic(a: Json, b: Json)
    requires a.JObject? && b.JObject? && a.fields.Keys == b.fields.Keys
    requires "name" in a.fields ==> SamePublicField(a, b, "name")
    ensures Get(a, "name").JString? <==> Get(b, "name").JString?
  {
    MarkedKeys();
  }

  lemma {:induction false} SameListPublic(a: Json, b: Json, owner: Option<string>)
    requires a.JList? && b.JList?
    requires forall i :: 0 <= i < |a.items| && i < |b.items| ==>
               (Sanitize(a.items[i], owner) == Sanitize(b.items[i], owner) <==> SamePublic(a.items[i], b.items[i], owner))
    ensures Sanitize(a, owner) == Sanitize(b, owner) <==> SamePublic(a, b, owner)
  {
    var x, y := Sanitize(a, owner).items, Sanitize(b, owner).items;
    assert |x| == |a.items| && |y| == |b.items|;
    if x == y && !IsArguments(owner) {
      forall i | 0 <= i < |a.items|
        ensures SamePublic(a.items[i], b.items[i], owner)
      {
        assert x[i] == y[i];
      }
    }
  }

  /** What an object shows of one of its keys. */
  function Shown(value: Json, owner: Option<string>, key: string): Json
    requires value.JObject? && key in value.fields
  {
    if owner != Some("annotations") then SanitizeField(value, key)
    else if key in SAFE_ANNOTATIONS then Sanitize(value.fields[key], Some(key))
    else REDACTED
  }

  ghost predicate SamePublicKey(a: Json, b: Json, owner: Option<string>, key: string)
    requires a.JObject? && b.JObject? && key in a.fields && key in b.fields
  {
    if owner != Some("annotations") then SamePublicField(a, b, key)
    else key in SAFE_ANNOTATIONS ==> SamePublic(a.fields[key], b.fields[key], Some(key))
  }

  lemma {:induction false} SameObjectPublic(a: Json, b: Json, owner: Option<string>)
    requires a.JObject? && b.JObject?
    requires a.fields.Keys == b.fields.Keys && (owner != Some("annotations") ==> (Get(a, "name").JString? <==> Get(b, "name").JString?)) ==>
               forall key :: key in a.fields ==> (Shown(a, owner, key) == Shown(b, owner, key) <==> SamePublicKey(a, b, owner, key))
    ensures Sanitize(a, owner) == Sanitize(b, owner) <==> SamePublic(a, b, owner)
  {
    var x, y := Sanitize(a, owner).fields, Sanitize(b, owner).fields;
    assert x.Keys == a.fields.Keys && y.Keys == b.fields.Keys;
    assert forall key :: key in a.fields ==> x[key] == Shown(a, owner, key);
    assert forall key :: key in b.fields ==> y[key] == Shown(b, owner, key);
    if x == y {
      assert a.fields.Keys == b.fields.Keys;
      if owner != Some("annotations") {
        NameKept(a, owner);
        NameKept(b, owner);
      }
      forall key | key in a.fields
        ensures SamePublicKey(a, b, owner, key)
      {
        assert x[key] == y[key];
      }
    }
    if SamePublic(a, b, owner) {
      if owner != Some("annotations") {
        NameIsPublic(a, b);
      }
      forall key | key in a.fields
        ensures x[key] == y[key]
      {
        assert SamePublicKey(a, b, owner, key);
      }
      assert x == y;
    }
  }

  /** Two specs give equal evidence exactly when they agree wherever nothing is secret: the evidence hides every
      environment value, argument, secret payload and marked field, and hides nothing else. */
  lemma {:induction false} EvidenceIsPublicPart(a: Json, b: Json, owner: Option<string>)
    ensures Sanitize(a, owner) == Sanitize(b, owner) <==> SamePublic(a, b, owner)
    decreases a, 1
  {
    SanitizeKeepsKind(a, owner);
    SanitizeKeepsKind(b, owner);
    if a.JList? && b.JList? {
      forall i | 0 <= i < |a.items| && i < |b.items|
        ensures Sanitize(a.items[i], owner) == Sanitize(b.items[i], owner) <==> SamePublic(a.items[i], b.items[i], owner)
      {
        EvidenceIsPublicPart(a.items[i], b.items[i], owner);
      }
      SameListPublic(a, b, owner);
    } else if a.JObject? && b.JObject? {
      if a.fields.Keys == b.fields.Keys && (owner != Some("annotations") ==> (Get(a, "name").JString? <==> Get(b, "name").JString?)) {
        forall key | key in a.fields
          ensures Shown(a, owner, key) == Shown(b, owner, key) <==> SamePublicKey(a, b, owner, key)
        {
          if owner != Some("annotations") {
            FieldIsPublicPart(a, b, key);
          } else if key in SAFE_ANNOTATIONS {
            EvidenceIsPublicPart(a.fields[key], b.fields[key], Some(key));
          }
        }
      }
      SameObjectPublic(a, b, owner);
    }
  }

  lemma {:induction false} FieldIsPublicPart(a: Json, b: Json, key: string)
    requires a.JObject? && b.JObject? && key in a.fields && key in b.fields
    requires Get(a, "name").JString? <==> Get(b, "name").JString?
    ensures SanitizeField(a, key) == SanitizeField(b, key) <==> SamePublicField(a, b, key)
    decreases a, 0
  {
    var x, y := a.fields[key], b.fields[key];
    MarkedKeys();
    assert JObject(a.fields) == a && JObject(b.fields) == b;
    ReferenceMeaning(key);
    if ReferenceFields(key).Some? {
      if x.JObject? && y.JObject? {
        forall field | field in x.fields && field in y.fields && field in ReferenceFields(key).value
          ensures Sanitize(x.fields[field], Some(field)) == Sanitize(y.fields[field], Some(field)) <==>
                  SamePublic(x.fields[field], y.fields[field], Some(field))
        {
          EvidenceIsPublicPart(x.fields[field], y.fields[field], Some(field));
        }
        SameReference(x, y, ReferenceFields(key).value);
      }
    } else if key == "imagePullSecrets" && x.JList? && y.JList? {
      SamePullSecrets(x.items, y.items);
    } else if TreatmentOf(a.fields, key).Recurse? {
      EvidenceIsPublicPart(x, y, Some(key));
    }
  }

  function ShownReference(item: Json, allowed: set<string>): map<string, Json>
    requires item.JObject?
  {
    map field | field in item.fields && field in allowed :: Sanitize(item.fields[field], Some(field))
  }

  lemma {:induction false} SameReference(x: Json, y: Json, allowed: set<string>)
    requires x.JObject? && y.JObject?
    requires forall field :: field in x.fields && field in y.fields && field in allowed ==>
               (Sanitize(x.fields[field], Some(field)) == Sanitize(y.fields[field], Some(field)) <==>
                SamePublic(x.fields[field], y.fields[field], Some(field)))
    ensures ShownReference(x, allowed) == ShownReference(y, allowed) <==>
              forall field :: field in allowed ==>
                && (field in x.fields <==> field in y.fields)
                && (field in x.fields ==> SamePublic(x.fields[field], y.fields[field], Some(field)))
  {
    var s, t := ShownReference(x, allowed), ShownReference(y, allowed);
    if s == t {
      forall field | field in allowed
        ensures field in x.fields <==> field in y.fields
        ensures field in x.fields ==> SamePublic(x.fields[field], y.fields[field], Some(field))
      {
        assert field in s <==> field in t;
        if field in x.fields {
          assert s[field] == t[field];
        }
      }
    }
    if forall field :: field in allowed ==>
         && (field in x.fields <==> field in y.fields)
         && (field in x.fields ==> SamePublic(x.fields[field], y.fields[field], Some(field))) {
      assert s.Keys == t.Keys;
      assert s == t;
    }
  }
}
