/** Kubernetes names, git shas and image references, as the scripts' patterns accept them. */
module Images {
  import opened Basics

  predicate IsLowerAlphanumeric(c: char) {
    'a' <= c <= 'z' || '0' <= c <= '9'
  }

  predicate IsLowerHex(c: char) {
    'a' <= c <= 'f' || '0' <= c <= '9'
  }

  predicate IsKubernetesName(s: string) {
    && |s| > 0
    && IsLowerAlphanumeric(s[0])
    && IsLowerAlphanumeric(s[|s| - 1])
    && forall i :: 0 <= i < |s| ==> IsLowerAlphanumeric(s[i]) || s[i] == '-' || s[i] == '.'
  }

  /** One letter or digit, or two with anything of letters, digits, dashes and dots in between. */
  predicate IsSpelledName(s: string, first: char, middle: string, last: char) {
    && s == [first] + middle + [last] && IsLowerAlphanumeric(first) && IsLowerAlphanumeric(last)
    && forall c :: c in middle ==> 'a' <= c <= 'z' || '0' <= c <= '9' || c == '-' || c == '.'
  }

  lemma {:induction false} NameExactly(s: string)
    ensures IsKubernetesName(s) <==>
              (|s| == 1 && IsLowerAlphanumeric(s[0])) || exists first, middle, last :: IsSpelledName(s, first, middle, last)
  {
    if IsKubernetesName(s) && |s| > 1 {
      assert s == [s[0]] + s[1..|s| - 1] + [s[|s| - 1]];
      assert IsSpelledName(s, s[0], s[1..|s| - 1], s[|s| - 1]);
    }
    if first, middle, last :| IsSpelledName(s, first, middle, last) {
      assert forall i :: 0 < i < |s| - 1 ==> s[i] == middle[i - 1] && middle[i - 1] in middle;
      assert s[0] == first && s[|s| - 1] == last;
    }
  }

  lemma {:induction false} ShaExactly(s: string)
    ensures IsGitSha(s) <==> |s| == 40 && forall c :: c in s ==> c in "0123456789abcdef"
  {
    forall c: char
      ensures IsLowerHex(c) <==> c in "0123456789abcdef"
    {
      if '0' <= c <= '9' {
        assert "0123456789abcdef"[c as int - '0' as int] == c;
      }
      if 'a' <= c <= 'f' {
        assert "0123456789abcdef"[10 + c as int - 'a' as int] == c;
      }
    }
    assert forall i :: 0 <= i < |s| ==> s[i] in s;
  }

  predicate IsDeploymentResource(s: string) {
    StartsWith(s, DEPLOYMENT_PREFIX) && IsKubernetesName(s[|DEPLOYMENT_PREFIX|..])
  }

  predicate IsGitSha(s: string) {
    |s| == 40 && forall i :: 0 <= i < 40 ==> IsLowerHex(s[i])
  }

  const DIGEST_MARK := "@sha256:"

  predicate IsRepositoryChar(c: char) {
    'A' <= c <= 'Z' || 'a' <= c <= 'z' || '0' <= c <= '9' || c == '.' || c == '_' || c == ':' || c == '/' || c == '-'
  }

  /** `<repository>@sha256:<64 hex digits>`. */
  predicate IsImageDigest(s: string) {
    && |s| > 72
    && s[|s| - 72..|s| - 64] == DIGEST_MARK
    && (forall i :: |s| - 64 <= i < |s| ==> IsLowerHex(s[i]))
    && forall i :: 0 <= i < |s| - 72 ==> IsRepositoryChar(s[i])
  }

  /** The ASCII white space of `str.isspace`. */
  predicate IsSpace(c: char) {
    9 <= c as int <= 13 || 28 <= c as int <= 32
  }

  predicate HasSpace(s: string) {
    exists i :: 0 <= i < |s| && IsSpace(s[i])
  }

  /** `[1-9][0-9]*[smh]`. */
  predicate IsTimeout(s: string) {
    && |s| >= 2
    && '1' <= s[0] <= '9'
    && (forall i :: 0 <= i < |s| - 1 ==> '0' <= s[i] <= '9')
    && s[|s| - 1] in {'s', 'm', 'h'}
  }

  function Digits(s: string): nat
    requires forall i :: 0 <= i < |s| ==> '0' <= s[i] <= '9'
  {
    if s == [] then 0 else 10 * Digits(s[..|s| - 1]) + (s[|s| - 1] as int - '0' as int)
  }

  lemma {:induction false} LeadingDigitPositive(s: string)
    requires |s| > 0 && '1' <= s[0] <= '9'
    requires forall i :: 0 <= i < |s| ==> '0' <= s[i] <= '9'
    ensures Digits(s) >= 1
  {
    if |s| > 1 {
      LeadingDigitPositive(s[..|s| - 1]);
    }
  }

  function TimeoutSeconds(s: string): (r: real)
    requires IsTimeout(s)
    ensures r >= 1.0
  {
    LeadingDigitPositive(s[..|s| - 1]);
    var unit := if s[|s| - 1] == 's' then 1 else if s[|s| - 1] == 'm' then 60 else 3600;
    (Digits(s[..|s| - 1]) * unit) as real
  }

  /** How a number is written. */
  function Decimal(n: nat): (s: string)
    ensures s != "" && forall i :: 0 <= i < |s| ==> '0' <= s[i] <= '9'
    ensures n > 0 ==> s[0] != '0'
  {
    if n < 10 then ['0' + n as char] else Decimal(n / 10) + ['0' + (n % 10) as char]
  }

  lemma {:induction false} DigitsOfDecimal(n: nat)
    ensures Digits(Decimal(n)) == n
  {
    if n >= 10 {
      DigitsOfDecimal(n / 10);
      assert Decimal(n)[..|Decimal(n)| - 1] == Decimal(n / 10);
    } else {
      assert Decimal(n)[..0] == "";
    }
  }

  lemma {:induction false} DecimalOfDigits(s: string)
    requires s != "" && '1' <= s[0] <= '9' && forall i :: 0 <= i < |s| ==> '0' <= s[i] <= '9'
    ensures Decimal(Digits(s)) == s
  {
    var init := s[..|s| - 1];
    if init == "" {
      assert s == [s[0]];
    } else {
      LeadingDigitPositive(init);
      DecimalOfDigits(init);
      assert s == init + [s[|s| - 1]];
    }
  }

  function UnitSeconds(unit: char): nat {
    if unit == 's' then 1 else if unit == 'm' then 60 else if unit == 'h' then 3600 else 0
  }

  /** A timeout is a positive number of seconds, minutes or hours, and lasts exactly that long. */
  lemma {:induction false} TimeoutWritten(n: nat, unit: char)
    requires n >= 1 && unit in {'s', 'm', 'h'}
    ensures IsTimeout(Decimal(n) + [unit])
    ensures TimeoutSeconds(Decimal(n) + [unit]) == (n * UnitSeconds(unit)) as real
  {
    var s := Decimal(n) + [unit];
    assert s[..|s| - 1] == Decimal(n);
    DigitsOfDecimal(n);
  }

  predicate IsDuration(timeout: string, n: nat, unit: char) {
    n >= 1 && unit in {'s', 'm', 'h'} && timeout == Decimal(n) + [unit]
  }

  lemma {:induction false} DurationExactly(s: string)
    ensures IsTimeout(s) <==> exists n: nat, unit :: IsDuration(s, n, unit)
  {
    if IsTimeout(s) {
      var n, unit := TimeoutRead(s);
      assert IsDuration(s, n, unit);
    }
    if n: nat, unit :| IsDuration(s, n, unit) {
      TimeoutWritten(n, unit);
    }
  }

  /** ... and there are no other timeouts. */
  lemma {:induction false} TimeoutRead(s: string) returns (n: nat, unit: char)
    requires IsTimeout(s)
    ensures n >= 1 && unit in {'s', 'm', 'h'} && s == Decimal(n) + [unit]
  {
    n, unit := Digits(s[..|s| - 1]), s[|s| - 1];
    LeadingDigitPositive(s[..|s| - 1]);
    DecimalOfDigits(s[..|s| - 1]);
  }

  /** Position of the first `c`, or `|s|`. */
  function FirstIndex(s: string, c: char): (i: nat)
    ensures i <= |s|
    ensures i < |s| ==> s[i] == c
    ensures forall k :: 0 <= k < i ==> s[k] != c
  {
    if s == [] || s[0] == c then 0 else 1 + FirstIndex(s[1..], c)
  }

  /** Position of the last `c`, or -1. */
  function LastIndex(s: string, c: char): (i: int)
    ensures -1 <= i < |s|
    ensures i >= 0 ==> s[i] == c
    ensures forall k :: i < k < |s| ==> s[k] != c
  {
    if s == [] then -1
    else if s[|s| - 1] == c then |s| - 1
    else LastIndex(s[..|s| - 1], c)
  }

  function ImageRepository(image: string): Result<string> {
    if '@' in image then
      var at := FirstIndex(image, '@');
      if at == 0 || at >= |image| - 1 then Err else Ok(image[..at])
    else
      var slash := LastIndex(image, '/');
      var colon := LastIndex(image, ':');
      if colon <= slash then Err else Ok(image[..colon])
  }

  /** `<repository>@sha256:<digest>`, put together from its parts. */
  predicate IsPinnedBy(image: string, repository: string, digest: string) {
    && image == repository + DIGEST_MARK + digest
    && repository != "" && (forall i :: 0 <= i < |repository| ==> IsRepositoryChar(repository[i]))
    && |digest| == 64 && forall i :: 0 <= i < 64 ==> IsLowerHex(digest[i])
  }

  lemma {:induction false} DigestExactly(image: string)
    ensures IsImageDigest(image) <==> exists repository, digest :: IsPinnedBy(image, repository, digest)
  {
    if IsImageDigest(image) {
      var repository, digest := image[..|image| - 72], image[|image| - 64..];
      assert image == repository + image[|image| - 72..|image| - 64] + digest;
      assert forall i :: 0 <= i < 64 ==> digest[i] == image[|image| - 64 + i];
      assert IsPinnedBy(image, repository, digest);
    }
    if repository, digest :| IsPinnedBy(image, repository, digest) {
      assert image[|image| - 72..|image| - 64] == DIGEST_MARK;
      assert forall i :: |image| - 64 <= i < |image| ==> image[i] == digest[i - |image| + 64];
      assert forall i :: 0 <= i < |image| - 72 ==> image[i] == repository[i];
    }
  }

  /** A reference that ends in a digest, of any form, or in a tag. */
  predicate IsReference(image: string, repository: string, mark: char, rest: string) {
    && image == repository + [mark] + rest
    && if mark == '@' then repository != "" && rest != "" && '@' !in repository
       else mark == ':' && '@' !in image && ':' !in rest && '/' !in rest
  }

  /** The repository of a reference is what stands before its digest or, where it has none, before its tag; a reference
      with neither is refused. */
  lemma {:induction false} RepositoryExactly(image: string, repository: string)
    ensures ImageRepository(image) == Ok(repository) <==>
              exists mark, rest :: IsReference(image, repository, mark, rest)
  {
    if ImageRepository(image) == Ok(repository) {
      var at := |repository|;
      assert image == repository + [image[at]] + image[at + 1..];
      RepositoryIsReference(image, repository);
    }
    if mark, rest :| IsReference(image, repository, mark, rest) {
      if mark == '@' {
        assert image == repository + "@" + rest;
        PinnedRepository(repository, rest);
      } else {
        assert image == repository + ":" + rest;
        forall i | 0 <= i < |repository| ensures repository[i] != '@' { assert image[i] == repository[i]; }
        forall i | 0 <= i < |rest| ensures rest[i] != '@' { assert image[|repository| + 1 + i] == rest[i]; }
        TaggedRepository(repository, rest);
      }
    }
  }

  lemma {:induction false} RepositoryIsReference(image: string, repository: string)
    requires ImageRepository(image) == Ok(repository)
    ensures |repository| < |image|
    ensures IsReference(image, repository, image[|repository|], image[|repository| + 1..])
  {
    var at, rest := |repository|, image[|repository| + 1..];
    if '@' in image {
      assert FirstIndex(image, '@') == at;
    } else {
      assert LastIndex(image, ':') == at;
      assert forall k :: 0 <= k < |rest| ==> rest[k] == image[at + 1 + k];
    }
  }

  /** A digest-pinned reference always has a repository: everything before the digest. */
  lemma {:induction false} DigestRepository(image: string)
    requires IsImageDigest(image)
    ensures ImageRepository(image) == Ok(image[..|image| - 72])
  {
    assert image[|image| - 72] == image[|image| - 72..|image| - 64][0] == '@';
    assert forall k :: 0 <= k < |image| - 72 ==> IsRepositoryChar(image[k]) && image[k] != '@';
  }

  /** What the reference syntax promises: the repository is recovered from a tagged reference ... */
  lemma {:induction false} TaggedRepository(repository: string, tag: string)
    requires '@' !in repository
    requires '@' !in tag && ':' !in tag && '/' !in tag
    ensures ImageRepository(repository + ":" + tag) == Ok(repository)
  {
    var image := repository + ":" + tag;
    assert image[|repository|] == ':';
    assert forall k :: |repository| < k < |image| ==> image[k] == tag[k - |repository| - 1];
    assert LastIndex(image, ':') == |repository|;
    assert image[..|repository|] == repository;
  }

  /** ... and from a pinned one; but a tag written before the digest stays part of the repository. */
  lemma {:induction false} PinnedRepository(repository: string, digest: string)
    requires repository != [] && digest != [] && '@' !in repository
    ensures ImageRepository(repository + "@" + digest) == Ok(repository)
  {
    var image := repository + "@" + digest;
    assert image[|repository|] == '@';
    assert forall k :: 0 <= k < |repository| ==> image[k] == repository[k];
    assert image[..|repository|] == repository;
  }

  lemma {:induction false} TagBeforeDigestIsKept(repository: string, tag: string, digest: string)
    requires repository != [] && digest != [] && '@' !in repository && '@' !in tag
    ensures ImageRepository(repository + ":" + tag + "@" + digest) == Ok(repository + ":" + tag)
    ensures repository + ":" + tag != repository
  {
    PinnedRepository(repository + ":" + tag, digest);
    assert |repository + ":" + tag| > |repository|;
  }
}
