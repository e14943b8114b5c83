/** The reader of DER values (ITU-T X.690, sections 8.1.3 and 10.1) that vets certificates and signing requests. */
module Der {
  import opened Basics

  type byte = b: int | 0 <= b < 256

  datatype Tlv = Tlv(tag: byte, value: seq<byte>)

  datatype Read = Read(tlv: Tlv, end: nat)

  /** `int.from_bytes(.., "big")`. */
  function FromBytes(s: seq<byte>): nat {
    if s == [] then 0 else 256 * FromBytes(s[..|s| - 1]) + s[|s| - 1]
  }

  /** Where the content starts, and how long it is. */
  datatype Header = Header(cursor: nat, length: nat)

  function ReadHeader(data: seq<byte>, offset: nat): (r: Result<Header>)
    ensures r.Ok? ==> offset + 2 <= r.value.cursor <= |data|
  {
    if offset + 2 > |data| then Err
    else
      var first, cursor := data[offset + 1], offset + 2;
      if first < 128 then Ok(Header(cursor, first))
      else
        var octets := first - 128;
        if octets == 0 || octets > 4 || cursor + octets > |data| || data[cursor] == 0 then Err
        else Ok(Header(cursor + octets, FromBytes(data[cursor..cursor + octets])))
  }

  /** `_read_der_tlv`. */
  function ReadTlv(data: seq<byte>, offset: nat): Result<Read> {
    var header :- ReadHeader(data, offset);
    var end := header.cursor + header.length;
    if end > |data| then Err else Ok(Read(Tlv(data[offset], data[header.cursor..end]), end))
  }

  lemma {:induction false} ReadAdvances(data: seq<byte>, offset: nat)
    requires ReadTlv(data, offset).Ok?
    ensures offset < ReadTlv(data, offset).value.end <= |data|
  {
  }

  function ReadAll(content: seq<byte>, offset: nat): Result<seq<Tlv>>
    requires offset <= |content|
    decreases |content| - offset
  {
    if offset == |content| then Ok([])
    else
      var read :- ReadTlv(content, offset);
      ReadAdvances(content, offset);
      var rest :- ReadAll(content, read.end);
      Ok([read.tlv] + rest)
  }

  /** What has been read, followed by what is still to come. */
  function Followed(children: seq<Tlv>, rest: Result<seq<Tlv>>): Result<seq<Tlv>> {
    if rest.Ok? then Ok(children + rest.value) else Err
  }

  lemma {:induction false} FollowedStep(children: seq<Tlv>, content: seq<byte>, offset: nat)
    requires offset < |content| && ReadTlv(content, offset).Ok? && ReadTlv(content, offset).value.end <= |content|
    ensures var read := ReadTlv(content, offset).value;
            Followed(children, ReadAll(content, offset)) == Followed(children + [read.tlv], ReadAll(content, read.end))
  {
    var read := ReadTlv(content, offset).value;
    var rest := ReadAll(content, read.end);
    assert rest.Ok? ==> children + ([read.tlv] + rest.value) == (children + [read.tlv]) + rest.value;
  }

  lemma {:induction false} FollowedEnds(children: seq<Tlv>, rest: Result<seq<Tlv>>)
    ensures Followed([], rest) == rest && Followed(children, Ok([])) == Ok(children)
  {
    assert rest.Ok? ==> [] + rest.value == rest.value;
    assert children + [] == children;
  }

  /** `_der_child_tags`. */
  method DerChildren(content: seq<byte>) returns (r: Result<seq<Tlv>>)
    ensures r == ReadAll(content, 0)
  {
    var children: seq<Tlv> := [];
    var offset := 0;
    FollowedEnds([], ReadAll(content, 0));
    while offset < |content|
      invariant offset <= |content|
      invariant ReadAll(content, 0) == Followed(children, ReadAll(content, offset))
      decreases |content| - offset
    {
      var read := ReadTlv(content, offset);
      if read.Err? {
        return Err;
      }
      ReadAdvances(content, offset);
      FollowedStep(children, content, offset);
      children := children + [read.value.tlv];
      offset := read.value.end;
    }
    FollowedEnds(children, Ok([]));
    return Ok(children);
  }

  // ---- octets of a length ----

  function Octets(n: nat): (r: seq<byte>)
    ensures n > 0 ==> |r| > 0 && r[0] != 0
    ensures FromBytes(r) == n
  {
    if n == 0 then []
    else
      var r := Octets(n / 256) + [n % 256];
      assert r[..|r| - 1] == Octets(n / 256);
      r
  }

  lemma {:induction false} OctetsUnique(s: seq<byte>)
    requires s != [] ==> s[0] != 0
    ensures Octets(FromBytes(s)) == s
    ensures s != [] ==> FromBytes(s) > 0
  {
    if s != [] {
      var init, last := s[..|s| - 1], s[|s| - 1];
      OctetsUnique(init);
      assert FromBytes(s) / 256 == FromBytes(init) && FromBytes(s) % 256 == last;
      if init == [] {
        assert FromBytes(init) == 0;
      }
      assert s == init + [last];
    }
  }

  function Power(k: nat): (r: nat)
    ensures r > 0
  {
    if k == 0 then 1 else 256 * Power(k - 1)
  }

  lemma {:induction false} OctetsCount(n: nat, k: nat)
    ensures |Octets(n)| <= k <==> n < Power(k)
    decreases k
  {
    if k > 0 && n > 0 {
      OctetsCount(n / 256, k - 1);
      assert |Octets(n)| == |Octets(n / 256)| + 1;
      assert n < 256 * Power(k - 1) <==> n / 256 < Power(k - 1);
    }
  }

  lemma {:induction false} FourOctets(n: nat)
    ensures |Octets(n)| <= 4 <==> n < 0x1_0000_0000
  {
    OctetsCount(n, 4);
    assert Power(1) == 256 && Power(2) == 256 * Power(1) && Power(3) == 256 * Power(2) && Power(4) == 256 * Power(3);
  }

  // ---- encodings ----

  /** Short form for a length below 128. */
  function ShortForm(t: Tlv): seq<byte>
    requires |t.value| < 128
  {
    [t.tag, |t.value|] + t.value
  }

  /** Long form with the fewest octets. */
  function LongForm(t: Tlv): seq<byte>
    requires 0 < |t.value| < 0x1_0000_0000
  {
    FourOctets(|t.value|);
    [t.tag, 128 + |Octets(|t.value|)|] + Octets(|t.value|) + t.value
  }

  /** The definite form section 10.1 prescribes. */
  function Encode(t: Tlv): seq<byte>
    requires |t.value| < 0x1_0000_0000
  {
    if |t.value| < 128 then ShortForm(t) else LongForm(t)
  }

  /** The reader takes these octets, and all of them, for `t`. */
  predicate Accepted(encoding: seq<byte>, t: Tlv) {
    ReadTlv(encoding, 0) == Ok(Read(t, |encoding|))
  }

  lemma {:induction false} ShortAccepted(t: Tlv)
    requires |t.value| < 128
    ensures Accepted(ShortForm(t), t)
  {
    var e := ShortForm(t);
    assert ReadHeader(e, 0) == Ok(Header(2, |t.value|));
    assert e[2..2 + |t.value|] == t.value;
  }

  lemma {:induction false} LongRead(tag: byte, octets: seq<byte>, value: seq<byte>)
    requires 1 <= |octets| <= 4 && octets[0] != 0 && FromBytes(octets) == |value|
    ensures Accepted([tag, 128 + |octets|] + octets + value, Tlv(tag, value))
  {
    var e, k := [tag, 128 + |octets|] + octets + value, |octets|;
    assert e[2..2 + k] == octets && e[2] == octets[0];
    assert ReadHeader(e, 0) == Ok(Header(2 + k, |value|));
    assert e[2 + k..2 + k + |value|] == value;
  }

  lemma {:induction false} LongAccepted(t: Tlv)
    requires 0 < |t.value| < 0x1_0000_0000
    ensures Accepted(LongForm(t), t)
  {
    FourOctets(|t.value|);
    LongRead(t.tag, Octets(|t.value|), t.value);
  }

  /** The encodings the reader accepts for a value: the short form where it exists, the long form with the fewest
      octets where there is anything to count, and no others; so lengths 1 to 127 have two. */
  lemma {:induction false} AcceptedExactly(encoding: seq<byte>, t: Tlv)
    ensures Accepted(encoding, t) <==>
              || (|t.value| < 128 && encoding == ShortForm(t))
              || (0 < |t.value| < 0x1_0000_0000 && encoding == LongForm(t))
  {
    if |t.value| < 128 {
      ShortAccepted(t);
    }
    if 0 < |t.value| < 0x1_0000_0000 {
      LongAccepted(t);
    }
    if Accepted(encoding, t) {
      if encoding[1] >= 128 {
        LongFormOnly(encoding, t);
      } else {
        assert encoding == [encoding[0], encoding[1]] + encoding[2..];
      }
    }
  }

  lemma {:induction false} LongFormOnly(encoding: seq<byte>, t: Tlv)
    requires Accepted(encoding, t) && encoding[1] >= 128
    ensures 0 < |t.value| < 0x1_0000_0000 && encoding == LongForm(t)
  {
    var k := encoding[1] - 128;
    var octets := encoding[2..2 + k];
    OctetsUnique(octets);
    FourOctets(FromBytes(octets));
    assert |t.value| == FromBytes(octets);
    assert encoding == [encoding[0], encoding[1]] + octets + encoding[2 + k..];
  }

  // ---- reading is local ----

  /** A header is read from its own octets only. */
  lemma {:induction false} HeaderInside(before: seq<byte>, encoding: seq<byte>, after: seq<byte>)
    requires ReadHeader(encoding, 0).Ok?
    ensures var h := ReadHeader(encoding, 0).value;
            ReadHeader(before + encoding + after, |before|) == Ok(Header(|before| + h.cursor, h.length))
  {
    var data, o := before + encoding + after, |before|;
    assert data[o + 1] == encoding[1];
    if encoding[1] >= 128 {
      var k := encoding[1] - 128;
      assert data[o + 2] == encoding[2];
      assert data[o + 2..o + 2 + k] == encoding[2..2 + k];
    }
  }

  lemma {:induction false} ReadInside(before: seq<byte>, encoding: seq<byte>, after: seq<byte>, t: Tlv)
    requires Accepted(encoding, t)
    ensures ReadTlv(before + encoding + after, |before|) == Ok(Read(t, |before| + |encoding|))
  {
    var data, o, h := before + encoding + after, |before|, ReadHeader(encoding, 0).value;
    HeaderInside(before, encoding, after);
    assert data[o] == encoding[0];
    assert data[o + h.cursor..o + |encoding|] == encoding[h.cursor..|encoding|];
  }

  lemma {:induction false} ReadCut(data: seq<byte>, offset: nat)
    requires ReadTlv(data, offset).Ok?
    ensures offset < ReadTlv(data, offset).value.end <= |data|
    ensures Accepted(data[offset..ReadTlv(data, offset).value.end], ReadTlv(data, offset).value.tlv)
  {
    var end, h := ReadTlv(data, offset).value.end, ReadHeader(data, offset).value;
    var e := data[offset..end];
    assert e[1] == data[offset + 1];
    if e[1] >= 128 {
      var k := e[1] - 128;
      assert e[2] == data[offset + 2];
      assert e[2..2 + k] == data[offset + 2..offset + 2 + k];
    }
    assert ReadHeader(e, 0) == Ok(Header(h.cursor - offset, h.length));
    assert e[h.cursor - offset..|e|] == data[h.cursor..end];
  }

  // ---- lists of values ----

  function Flatten(parts: seq<seq<byte>>): seq<byte> {
    if parts == [] then [] else parts[0] + Flatten(parts[1..])
  }

  /** Part by part, the encodings of the values. */
  predicate AllAccepted(parts: seq<seq<byte>>, values: seq<Tlv>) {
    && |parts| == |values|
    && (parts != [] ==> Accepted(parts[0], values[0]) && AllAccepted(parts[1..], values[1..]))
  }

  lemma {:induction false} ReadOneMore(content: seq<byte>, before: seq<byte>, first: seq<byte>, rest: seq<byte>, t: Tlv, values: seq<Tlv>)
    requires Accepted(first, t) && content == before + first + rest
    requires ReadAll(content, |before + first|) == Ok(values)
    ensures ReadAll(content, |before|) == Ok([t] + values)
  {
    ReadInside(before, first, rest, t);
  }

  lemma {:induction false} ReadConcatenation(content: seq<byte>, before: seq<byte>, parts: seq<seq<byte>>, values: seq<Tlv>)
    requires AllAccepted(parts, values) && content == before + Flatten(parts)
    ensures ReadAll(content, |before|) == Ok(values)
    decreases |parts|
  {
    if parts != [] {
      var first, rest := parts[0], Flatten(parts[1..]);
      assert content == before + first + rest;
      ReadConcatenation(content, before + first, parts[1..], values[1..]);
      ReadOneMore(content, before, first, rest, values[0], values[1..]);
      assert values == [values[0]] + values[1..];
    }
  }

  lemma {:induction false} Tiles(content: seq<byte>, offset: nat) returns (parts: seq<seq<byte>>)
    requires offset <= |content| && ReadAll(content, offset).Ok?
    ensures AllAccepted(parts, ReadAll(content, offset).value)
    ensures Flatten(parts) == content[offset..]
    decreases |content| - offset
  {
    if offset == |content| {
      parts := [];
    } else {
      var read := ReadTlv(content, offset).value;
      ReadCut(content, offset);
      var rest := Tiles(content, read.end);
      parts := [content[offset..read.end]] + rest;
      assert parts[1..] == rest;
      assert content[offset..] == content[offset..read.end] + content[read.end..];
    }
  }

  /** The children are read exactly when they tile the content: each an accepted encoding, in order, without gap or overlap. */
  lemma {:induction false} ChildrenTile(content: seq<byte>, values: seq<Tlv>)
    ensures ReadAll(content, 0) == Ok(values) <==>
              exists parts :: AllAccepted(parts, values) && Flatten(parts) == content
  {
    if ReadAll(content, 0) == Ok(values) {
      var parts := Tiles(content, 0);
      assert content[0..] == content;
    }
    if parts :| AllAccepted(parts, values) && Flatten(parts) == content {
      ReadConcatenation(content, [], parts, values);
    }
  }

  function EncodeAll(values: seq<Tlv>): seq<seq<byte>>
    requires forall i :: 0 <= i < |values| ==> |values[i].value| < 0x1_0000_0000
  {
    seq(|values|, i requires 0 <= i < |values| => Encode(values[i]))
  }

  /** Decoding undoes encoding, for lists of any values whose lengths fit four octets. */
  lemma {:induction false} DecodeEncode(values: seq<Tlv>)
    requires forall i :: 0 <= i < |values| ==> |values[i].value| < 0x1_0000_0000
    ensures ReadAll(Flatten(EncodeAll(values)), 0) == Ok(values)
  {
    EncodedAccepted(values);
    ChildrenTile(Flatten(EncodeAll(values)), values);
  }

  lemma {:induction false} EncodedAccepted(values: seq<Tlv>)
    requires forall i :: 0 <= i < |values| ==> |values[i].value| < 0x1_0000_0000
    ensures AllAccepted(EncodeAll(values), values)
  {
    if values != [] {
      AcceptedExactly(Encode(values[0]), values[0]);
      EncodedAccepted(values[1..]);
      assert EncodeAll(values)[1..] == EncodeAll(values[1..]);
    }
  }

  /** The same list has a second accepted encoding as soon as one length lies between 1 and 127. */
  lemma {:induction false} SecondEncoding(t: Tlv)
    requires 1 <= |t.value| < 128
    ensures ShortForm(t) != LongForm(t)
    ensures ReadAll(ShortForm(t), 0) == Ok([t]) && ReadAll(LongForm(t), 0) == Ok([t])
  {
    ShortAccepted(t);
    LongAccepted(t);
    OneValue(ShortForm(t), t);
    OneValue(LongForm(t), t);
    assert ShortForm(t)[1] < 128 <= LongForm(t)[1];
  }

  lemma {:induction false} OneValue(encoding: seq<byte>, t: Tlv)
    requires Accepted(encoding, t)
    ensures ReadAll(encoding, 0) == Ok([t])
  {
    assert ReadAll(encoding, |encoding|) == Ok([]);
    assert [t] + [] == [t];
  }

  // ---- signed objects ----

  const SEQUENCE: byte := 0x30
  const BIT_STRING: byte := 0x03
  const INTEGER: byte := 0x02
  const ATTRIBUTES: byte := 0xA0

  function Tags(values: seq<Tlv>): (r: seq<byte>)
    ensures |r| == |values| && forall i :: 0 <= i < |r| ==> r[i] == values[i].tag
  {
    seq(|values|, i requires 0 <= i < |values| => values[i].tag)
  }

  predicate IsSigned(der: seq<byte>, isRequest: bool) {
    var top := ReadTlv(der, 0);
    && top.Ok? && top.value.end == |der| && top.value.tlv.tag == SEQUENCE
    && var children := ReadAll(top.value.tlv.value, 0);
    && children.Ok? && Tags(children.value) == [SEQUENCE, SEQUENCE, BIT_STRING]
    && (isRequest ==>
          var info := ReadAll(children.value[0].value, 0);
          info.Ok? && Tags(info.value) == [INTEGER, SEQUENCE, SEQUENCE, ATTRIBUTES])
  }

  /** `_validate_signed_der`. */
  method ValidateSignedDer(der: seq<byte>, isRequest: bool) returns (ok: bool)
    ensures ok == IsSigned(der, isRequest)
  {
    var top := ReadTlv(der, 0);
    if top.Err? {
      return false;
    }
    var children := DerChildren(top.value.tlv.value);
    if children.Err? || top.value.end != |der| || top.value.tlv.tag != SEQUENCE
       || Tags(children.value) != [SEQUENCE, SEQUENCE, BIT_STRING] {
      return false;
    }
    if isRequest {
      var info := DerChildren(children.value[0].value);
      return info.Ok? && Tags(info.value) == [INTEGER, SEQUENCE, SEQUENCE, ATTRIBUTES];
    }
    return true;
  }

  /** The object is one sequence, filled by these parts. */
  ghost predicate SignedBy(der: seq<byte>, parts: seq<seq<byte>>, values: seq<Tlv>) {
    && AllAccepted(parts, values)
    && Tags(values) == [SEQUENCE, SEQUENCE, BIT_STRING]
    && Accepted(der, Tlv(SEQUENCE, Flatten(parts)))
  }

  /** What is signed in a request is filled by these parts: a version, a subject, a key and the attributes. */
  ghost predicate RequestedBy(info: seq<byte>, parts: seq<seq<byte>>, values: seq<Tlv>) {
    AllAccepted(parts, values) && Tags(values) == [INTEGER, SEQUENCE, SEQUENCE, ATTRIBUTES] && Flatten(parts) == info
  }

  ghost predicate IsRequested(info: seq<byte>) {
    exists parts, values :: RequestedBy(info, parts, values)
  }

  lemma {:induction false} RequestedExactly(info: seq<byte>)
    ensures IsRequested(info) <==>
              ReadAll(info, 0).Ok? && Tags(ReadAll(info, 0).value) == [INTEGER, SEQUENCE, SEQUENCE, ATTRIBUTES]
  {
    if ReadAll(info, 0).Ok? {
      var values := ReadAll(info, 0).value;
      ChildrenTile(info, values);
      var parts :| AllAccepted(parts, values) && Flatten(parts) == info;
      assert Tags(values) == [INTEGER, SEQUENCE, SEQUENCE, ATTRIBUTES] ==> RequestedBy(info, parts, values);
    }
    if parts, values :| RequestedBy(info, parts, values) {
      ReadConcatenation(info, [], parts, values);
    }
  }

  /** A signed object is one sequence, filled exactly by what is signed, an algorithm and a bit string; of a request,
      what is signed is itself filled exactly by its four parts. */
  lemma {:induction false} SignedExactly(der: seq<byte>, isRequest: bool)
    ensures IsSigned(der, isRequest) <==>
              exists parts: seq<seq<byte>>, values: seq<Tlv> :: SignedBy(der, parts, values) && (isRequest ==> IsRequested(values[0].value))
  {
    if IsSigned(der, isRequest) {
      var top := ReadTlv(der, 0).value;
      var values := ReadAll(top.tlv.value, 0).value;
      ChildrenTile(top.tlv.value, values);
      var parts :| AllAccepted(parts, values) && Flatten(parts) == top.tlv.value;
      RequestedExactly(values[0].value);
      assert SignedBy(der, parts, values);
    }
    if parts: seq<seq<byte>>, values: seq<Tlv> :| SignedBy(der, parts, values) && (isRequest ==> IsRequested(values[0].value)) {
      ChildrenTile(Flatten(parts), values);
      RequestedExactly(values[0].value);
      assert ReadAll(Flatten(parts), 0) == Ok(values);
      assert ReadTlv(der, 0).value == Read(Tlv(SEQUENCE, Flatten(parts)), |der|);
    }
  }
}
