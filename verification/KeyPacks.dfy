/** The wire format of vector key packs: printers and cursor parsers of vdcf.cpp and vdpf.cpp. */
module KeyPacks {
  import opened Arith
  import opened Bytes
  import opened Results

  // Where a parser throws: a truncated integer, a truncated constant, a truncated key, bytes left over.
  datatype ParseError = BadHeader | BadConst | BadKey | TrailingBytes

  // mode 1: constant output shares; any other mode: one serialized scalar key a coordinate.
  datatype VdcfPack = VdcfPack(domainSize: uint32, vecDim: uint32, mode: byte,
                               scalarKeys: seq<seq<byte>>, constValues: seq<uint128>)

  datatype VdpfPack = VdpfPack(domainSize: uint32, vecDim: uint32, scalarKeys: seq<seq<byte>>)

  // ----- length-prefixed keys -----

  // (uint32_t)k.size(), little endian.
  function SizeBytes(n: nat): (s: seq<byte>)
    ensures |s| == 4
  {
    LE(n % 0x1_0000_0000, 4)
  }

  function KeysBytes(ks: seq<seq<byte>>): seq<byte>
  {
    if ks == [] then [] else SizeBytes(|ks[0]|) + ks[0] + KeysBytes(ks[1..])
  }

  function ParseKeys(s: seq<byte>, n: nat): (r: Result<(seq<seq<byte>>, seq<byte>), ParseError>)
    ensures r.Ok? ==> |r.value.0| == n && |r.value.1| <= |s|
  {
    if n == 0 then Ok(([], s))
    else if |s| < 4 then Err(BadHeader)
    else
      var len := FromLE(s[..4]);
      if 4 + len > |s| then Err(BadKey)
      else Prepend([s[4..4 + len]], ParseKeys(s[4 + len..], n - 1))
  }

  function Prepend<T>(xs: seq<T>, r: Result<(seq<T>, seq<byte>), ParseError>): Result<(seq<T>, seq<byte>), ParseError>
  {
    match r
    case Ok(v) => Ok((xs + v.0, v.1))
    case Err(e) => Err(e)
  }

  function ParseConsts(s: seq<byte>, n: nat): (r: Result<(seq<uint128>, seq<byte>), ParseError>)
    ensures r.Ok? ==> |r.value.0| == n && |r.value.1| <= |s|
  {
    if n == 0 then Ok(([], s))
    else if |s| < 16 then Err(BadConst)
    else Prepend([Word(s[..16])], ParseConsts(s[16..], n - 1))
  }

  ghost predicate Sized<T>(xs: seq<T>) { |xs| < 0x1_0000_0000 }

  ghost predicate KeysSized(ks: seq<seq<byte>>) { forall k :: k in ks ==> Sized(k) }

  lemma SizeRoundTrip(n: nat)
    requires n < 0x1_0000_0000
    ensures FromLE(SizeBytes(n)) == n
  {
    hide LE, FromLE, Pow256;
    Pow256Literals();
    FromLEOfLE(n, 4);
  }

  lemma SizeOfRead(s: seq<byte>)
    requires |s| == 4
    ensures FromLE(s) < 0x1_0000_0000 && SizeBytes(FromLE(s)) == s
  {
    hide LE, FromLE, Pow256;
    Pow256Literals();
    FromLEBound(s);
    LEOfFromLE(s);
  }

  lemma {:induction false} KeysParsed(ks: seq<seq<byte>>, rest: seq<byte>)
    requires KeysSized(ks)
    ensures ParseKeys(KeysBytes(ks) + rest, |ks|) == Ok((ks, rest))
  {
    hide FromLE, SizeBytes, KeysBytes;
    if ks == [] {
      NoKeysBytes();
      assert [] + rest == rest;
    } else {
      var k, tail := ks[0], ks[1..];
      assert k in ks && [k] + tail == ks;
      SizeRoundTrip(|k|);
      KeysBytesCons(k, tail);
      OneKeyParsed(k, KeysBytes(tail), rest, |tail|);
      KeysParsed(tail, rest);
    }
  }

  // The first of n + 1 keys is read off a blob.
  lemma OneKeyParsed(k: seq<byte>, tail: seq<byte>, rest: seq<byte>, n: nat)
    requires FromLE(SizeBytes(|k|)) == |k|
    ensures ParseKeys(SizeBytes(|k|) + k + tail + rest, n + 1) == Prepend([k], ParseKeys(tail + rest, n))
  {
    hide FromLE;
    var s := SizeBytes(|k|) + k + tail + rest;
    assert s[..4] == SizeBytes(|k|);
    assert s[4..4 + |k|] == k;
    assert s[4 + |k|..] == tail + rest;
  }

  lemma {:induction false} KeysReprinted(s: seq<byte>, n: nat)
    requires ParseKeys(s, n).Ok?
    ensures
      var (ks, rest) := ParseKeys(s, n).value;
      KeysSized(ks) && s == KeysBytes(ks) + rest
  {
    hide FromLE, SizeBytes, KeysBytes, KeysSized;
    if n == 0 {
      NoKeysBytes();
      assert s == [] + s;
    } else {
      var len := FromLE(s[..4]);
      KeysReprinted(s[4 + len..], n - 1);
      SizeOfRead(s[..4]);
      var (tail, rest) := ParseKeys(s[4 + len..], n - 1).value;
      var k := s[4..4 + len];
      KeysBytesCons(k, tail);
      SplitThree(s, 4, len);
      Regrouped(SizeBytes(len), k, KeysBytes(tail), rest);
    }
  }

  lemma Regrouped<T>(a: seq<T>, b: seq<T>, c: seq<T>, d: seq<T>)
    ensures a + b + (c + d) == a + b + c + d
  {
  }

  lemma SplitThree(s: seq<byte>, a: nat, n: nat)
    requires a + n <= |s|
    ensures s == s[..a] + s[a..a + n] + s[a + n..]
  {
  }

  lemma NoKeysBytes()
    ensures KeysBytes([]) == [] && KeysSized([])
  {
  }

  lemma KeysBytesCons(k: seq<byte>, ks: seq<seq<byte>>)
    ensures KeysBytes([k] + ks) == SizeBytes(|k|) + k + KeysBytes(ks)
    ensures Sized(k) && KeysSized(ks) ==> KeysSized([k] + ks)
  {
    assert ([k] + ks)[1..] == ks;
  }

  lemma {:induction false} ConstsParsed(ws: seq<uint128>, rest: seq<byte>)
    ensures ParseConsts(WordsBytes(ws) + rest, |ws|) == Ok((ws, rest))
  {
    hide LE, Word;
    var s := WordsBytes(ws) + rest;
    if ws == [] {
      assert s == rest;
    } else {
      WordRoundTrip(ws[0]);
      assert s[..16] == LE(ws[0], 16);
      assert s[16..] == WordsBytes(ws[1..]) + rest;
      ConstsParsed(ws[1..], rest);
      assert [ws[0]] + ws[1..] == ws;
    }
  }

  lemma {:induction false} ConstsReprinted(s: seq<byte>, n: nat)
    requires ParseConsts(s, n).Ok?
    ensures
      var (ws, rest) := ParseConsts(s, n).value;
      s == WordsBytes(ws) + rest
  {
    hide LE;
    if n == 0 {
      assert s == [] + s;
    } else {
      ConstsReprinted(s[16..], n - 1);
      LEOfFromLE(s[..16]);
      var (ws, rest) := ParseConsts(s, n).value;
      assert ws[1..] == ParseConsts(s[16..], n - 1).value.0;
      assert s == s[..16] + s[16..];
    }
  }

  // ----- whole packs -----

  function SerializeVdcf(p: VdcfPack): seq<byte>
  {
    LE(p.domainSize, 4) + LE(p.vecDim, 4) + [p.mode]
    + (if p.mode == 1 then SizeBytes(|p.constValues|) + WordsBytes(p.constValues)
       else SizeBytes(|p.scalarKeys|) + KeysBytes(p.scalarKeys))
  }

  function U32(s: seq<byte>): uint32
    requires |s| == 4
  {
    SizeOfRead(s);
    FromLE(s)
  }

  function DeserializeVdcf(blob: seq<byte>): Result<VdcfPack, ParseError>
  {
    if |blob| < 13 then Err(BadHeader)
    else
      var d, v, mode, n := U32(blob[..4]), U32(blob[4..8]), blob[8], U32(blob[9..13]);
      if mode == 1 then
        match ParseConsts(blob[13..], n)
        case Err(e) => Err(e)
        case Ok(r) => if r.1 == [] then Ok(VdcfPack(d, v, mode, [], r.0)) else Err(TrailingBytes)
      else
        match ParseKeys(blob[13..], n)
        case Err(e) => Err(e)
        case Ok(r) => if r.1 == [] then Ok(VdcfPack(d, v, mode, r.0, [])) else Err(TrailingBytes)
  }

  // What a pack must be to survive the wire: sizes that fit the length fields, and nothing in the
  // field its mode does not send.
  ghost predicate VdcfWellFormed(p: VdcfPack)
  {
    if p.mode == 1 then p.scalarKeys == [] && Sized(p.constValues)
    else p.constValues == [] && Sized(p.scalarKeys) && KeysSized(p.scalarKeys)
  }

  lemma U32RoundTrip(x: uint32)
    ensures U32(LE(x, 4)) == x
  {
    Pow256Literals();
    FromLEOfLE(x, 4);
  }

  lemma VdcfHeader(p: VdcfPack, tail: seq<byte>)
    ensures
      var s := SerializeVdcf(p) + tail;
      && |s| >= 13 && U32(s[..4]) == p.domainSize && U32(s[4..8]) == p.vecDim && s[8] == p.mode
      && s[9..13] == SizeBytes(if p.mode == 1 then |p.constValues| else |p.scalarKeys|)
      && s[13..] == (if p.mode == 1 then WordsBytes(p.constValues) else KeysBytes(p.scalarKeys)) + tail
  {
    hide LE, SizeBytes, WordsBytes, KeysBytes, U32;
    var s := SerializeVdcf(p) + tail;
    assert s[..4] == LE(p.domainSize, 4);
    assert s[4..8] == LE(p.vecDim, 4);
    U32RoundTrip(p.domainSize);
    U32RoundTrip(p.vecDim);
  }

  // ----- where everything stands -----

  // Keys in order from position o to the end, each behind its length.
  ghost predicate KeysStandAt(s: seq<byte>, o: nat, ks: seq<seq<byte>>)
    decreases |ks|
  {
    if ks == [] then o == |s|
    else
      && o + 4 + |ks[0]| <= |s|
      && U32At(s, o) == |ks[0]| % 0x1_0000_0000 && s[o + 4..o + 4 + |ks[0]|] == ks[0]
      && KeysStandAt(s, o + 4 + |ks[0]|, ks[1..])
  }

  // A number's four bytes inside a string.
  lemma SizeStands(before: seq<byte>, n: nat, after: seq<byte>)
    ensures U32At(before + SizeBytes(n) + after, |before|) == n % 0x1_0000_0000
  {
    hide LE, FromLE, U32At, Pow256;
    var s := before + SizeBytes(n) + after;
    assert s[|before|..|before| + 4] == SizeBytes(n);
    FourBytes(s, |before|);
    Pow256Literals();
    FromLEOfLE(n % 0x1_0000_0000, 4);
  }

  lemma {:induction false} KeysStand(before: seq<byte>, ks: seq<seq<byte>>)
    ensures KeysStandAt(before + KeysBytes(ks), |before|, ks)
    decreases |ks|
  {
    hide SizeBytes, U32At;
    var s := before + KeysBytes(ks);
    if ks != [] {
      SizeStands(before, |ks[0]|, ks[0] + KeysBytes(ks[1..]));
      assert s == before + SizeBytes(|ks[0]|) + (ks[0] + KeysBytes(ks[1..]));
      assert s == before + SizeBytes(|ks[0]|) + ks[0] + KeysBytes(ks[1..]);
      KeysStand(before + SizeBytes(|ks[0]|) + ks[0], ks[1..]);
    }
  }

  // A point pack's bytes: domain size, dimension, number of keys, the keys.
  ghost predicate VdpfLaidOut(s: seq<byte>, p: VdpfPack)
  {
    && |s| >= 12 && U32At(s, 0) == p.domainSize && U32At(s, 4) == p.vecDim
    && U32At(s, 8) == |p.scalarKeys| % 0x1_0000_0000 && KeysStandAt(s, 12, p.scalarKeys)
  }

  // A comparison pack's bytes: domain size, dimension, mode, number of constants or keys, the constants or keys.
  ghost predicate VdcfLaidOut(s: seq<byte>, p: VdcfPack)
  {
    && |s| >= 13 && U32At(s, 0) == p.domainSize && U32At(s, 4) == p.vecDim && s[8] == p.mode
    && U32At(s, 9) == (if p.mode == 1 then |p.constValues| else |p.scalarKeys|) % 0x1_0000_0000
    && if p.mode == 1 then |s| == 13 + 16 * |p.constValues| && WordsStandAt(s, 13, p.constValues)
       else KeysStandAt(s, 13, p.scalarKeys)
  }

  /** Every printed point pack is laid out so. */
  lemma VdpfLayout(p: VdpfPack)
    ensures VdpfLaidOut(SerializeVdpf(p), p)
  {
    hide LE, KeysBytes, U32At, KeysStandAt;
    var d, v, n, ks := SizeBytes(p.domainSize), SizeBytes(p.vecDim), SizeBytes(|p.scalarKeys|), KeysBytes(p.scalarKeys);
    var s := SerializeVdpf(p);
    assert s == [] + d + (v + n + ks) == d + v + (n + ks) == (d + v) + n + ks == (d + v + n) + ks;
    SizeStands([], p.domainSize, v + n + ks);
    SizeStands(d, p.vecDim, n + ks);
    SizeStands(d + v, |p.scalarKeys|, ks);
    KeysStand(d + v + n, p.scalarKeys);
  }

  /** And every printed comparison pack. */
  lemma VdcfLayout(p: VdcfPack)
    ensures VdcfLaidOut(SerializeVdcf(p), p)
  {
    hide LE, KeysBytes, WordsBytes, U32At, KeysStandAt, WordsStandAt;
    var d, v, m := SizeBytes(p.domainSize), SizeBytes(p.vecDim), [p.mode];
    var n := SizeBytes(if p.mode == 1 then |p.constValues| else |p.scalarKeys|);
    var rest := if p.mode == 1 then WordsBytes(p.constValues) else KeysBytes(p.scalarKeys);
    var s := SerializeVdcf(p);
    assert s == [] + d + (v + m + n + rest) == d + v + (m + n + rest) == (d + v + m) + n + rest
           == (d + v + m + n) + rest;
    SizeStands([], p.domainSize, v + m + n + rest);
    SizeStands(d, p.vecDim, m + n + rest);
    SizeStands(d + v + m, if p.mode == 1 then |p.constValues| else |p.scalarKeys|, rest);
    if p.mode == 1 {
      WordsStand(d + v + m + n, p.constValues, []);
      assert (d + v + m + n) + rest + [] == s;
    } else {
      KeysStand(d + v + m + n, p.scalarKeys);
    }
  }

  // Printing followed by arbitrary bytes parses to the pack exactly when nothing follows.
  lemma VdcfParsedWithTail(p: VdcfPack, tail: seq<byte>)
    requires VdcfWellFormed(p)
    ensures DeserializeVdcf(SerializeVdcf(p) + tail) == if tail == [] then Ok(p) else Err(TrailingBytes)
  {
    hide LE, SizeBytes, WordsBytes, KeysBytes, ParseKeys, ParseConsts, SerializeVdcf;
    VdcfHeader(p, tail);
    if p.mode == 1 {
      SizeRoundTrip(|p.constValues|);
      ConstsParsed(p.constValues, tail);
    } else {
      SizeRoundTrip(|p.scalarKeys|);
      KeysParsed(p.scalarKeys, tail);
    }
  }

  /** Parsing undoes printing. */
  lemma VdcfRoundTrip(p: VdcfPack)
    requires VdcfWellFormed(p)
    ensures DeserializeVdcf(SerializeVdcf(p)) == Ok(p)
  {
    VdcfParsedWithTail(p, []);
    assert SerializeVdcf(p) + [] == SerializeVdcf(p);
  }

  /** Printing undoes parsing: every accepted blob is the print of a well-formed pack. */
  lemma VdcfReprint(blob: seq<byte>)
    requires DeserializeVdcf(blob).Ok?
    ensures VdcfWellFormed(DeserializeVdcf(blob).value)
    ensures SerializeVdcf(DeserializeVdcf(blob).value) == blob
  {
    hide LE, SizeBytes, WordsBytes, KeysBytes, ParseKeys, ParseConsts, FromLE;
    var p := DeserializeVdcf(blob).value;
    var n := U32(blob[9..13]);
    LEOfFromLE(blob[..4]);
    LEOfFromLE(blob[4..8]);
    SizeOfRead(blob[9..13]);
    if p.mode == 1 {
      ConstsReprinted(blob[13..], n);
      assert blob[13..] == WordsBytes(p.constValues);
    } else {
      KeysReprinted(blob[13..], n);
      assert blob[13..] == KeysBytes(p.scalarKeys);
    }
    assert blob == blob[..4] + blob[4..8] + [blob[8]] + (blob[9..13] + blob[13..]);
  }

  /** No accepted blob is a strict prefix of another: extending one, or cutting one short, is rejected. */
  lemma VdcfPrefixFree(blob: seq<byte>, tail: seq<byte>)
    requires DeserializeVdcf(blob).Ok? && tail != []
    ensures DeserializeVdcf(blob + tail) == Err(TrailingBytes)
  {
    VdcfReprint(blob);
    VdcfParsedWithTail(DeserializeVdcf(blob).value, tail);
  }

  function SerializeVdpf(p: VdpfPack): seq<byte>
  {
    LE(p.domainSize, 4) + LE(p.vecDim, 4) + SizeBytes(|p.scalarKeys|) + KeysBytes(p.scalarKeys)
  }

  function DeserializeVdpf(blob: seq<byte>): Result<VdpfPack, ParseError>
  {
    if |blob| < 12 then Err(BadHeader)
    else
      match ParseKeys(blob[12..], U32(blob[8..12]))
      case Err(e) => Err(e)
      case Ok(r) => if r.1 == [] then Ok(VdpfPack(U32(blob[..4]), U32(blob[4..8]), r.0)) else Err(TrailingBytes)
  }

  ghost predicate VdpfWellFormed(p: VdpfPack) { Sized(p.scalarKeys) && KeysSized(p.scalarKeys) }

  lemma VdpfParsedWithTail(p: VdpfPack, tail: seq<byte>)
    requires VdpfWellFormed(p)
    ensures DeserializeVdpf(SerializeVdpf(p) + tail) == if tail == [] then Ok(p) else Err(TrailingBytes)
  {
    hide LE, SizeBytes, KeysBytes, ParseKeys, FromLE;
    var s := SerializeVdpf(p) + tail;
    assert s[..4] == LE(p.domainSize, 4);
    assert s[4..8] == LE(p.vecDim, 4);
    assert s[8..12] == SizeBytes(|p.scalarKeys|);
    assert s[12..] == KeysBytes(p.scalarKeys) + tail;
    U32RoundTrip(p.domainSize);
    U32RoundTrip(p.vecDim);
    SizeRoundTrip(|p.scalarKeys|);
    KeysParsed(p.scalarKeys, tail);
  }

  lemma VdpfRoundTrip(p: VdpfPack)
    requires VdpfWellFormed(p)
    ensures DeserializeVdpf(SerializeVdpf(p)) == Ok(p)
  {
    VdpfParsedWithTail(p, []);
    assert SerializeVdpf(p) + [] == SerializeVdpf(p);
  }

  lemma VdpfReprint(blob: seq<byte>)
    requires DeserializeVdpf(blob).Ok?
    ensures VdpfWellFormed(DeserializeVdpf(blob).value)
    ensures SerializeVdpf(DeserializeVdpf(blob).value) == blob
  {
    hide LE, SizeBytes, KeysBytes, ParseKeys, FromLE;
    var p := DeserializeVdpf(blob).value;
    LEOfFromLE(blob[..4]);
    LEOfFromLE(blob[4..8]);
    SizeOfRead(blob[8..12]);
    KeysReprinted(blob[12..], U32(blob[8..12]));
    assert blob[12..] == KeysBytes(p.scalarKeys);
    assert blob == blob[..4] + blob[4..8] + blob[8..12] + blob[12..];
  }

  lemma VdpfPrefixFree(blob: seq<byte>, tail: seq<byte>)
    requires DeserializeVdpf(blob).Ok? && tail != []
    ensures DeserializeVdpf(blob + tail) == Err(TrailingBytes)
  {
    VdpfReprint(blob);
    VdpfParsedWithTail(DeserializeVdpf(blob).value, tail);
  }

  // ----- the loops -----

  /** And every accepted point blob is laid out as the pack it was read as. */
  lemma VdpfAccepted(blob: seq<byte>)
    ensures
      var r := DeserializeVdpf(blob);
      r.Ok? ==>
        && VdpfLaidOut(blob, r.value) && |r.value.scalarKeys| == U32At(blob, 8)
  {
    hide DeserializeVdpf, SerializeVdpf, KeysStandAt, KeysSized;
    if DeserializeVdpf(blob).Ok? {
      VdpfReprint(blob);
      VdpfLayout(DeserializeVdpf(blob).value);
    }
  }

  /** And every accepted comparison blob. */
  lemma VdcfAccepted(blob: seq<byte>)
    ensures
      var r := DeserializeVdcf(blob);
      r.Ok? ==>
        && VdcfLaidOut(blob, r.value)
        && (if r.value.mode == 1 then |r.value.constValues| else |r.value.scalarKeys|) == U32At(blob, 9)
  {
    hide DeserializeVdcf, SerializeVdcf, KeysStandAt, KeysSized, WordsStandAt;
    if DeserializeVdcf(blob).Ok? {
      VdcfReprint(blob);
      VdcfLayout(DeserializeVdcf(blob).value);
    }
  }

  method PrintKeys(out0: seq<byte>, ks: seq<seq<byte>>) returns (out: seq<byte>)
    ensures out == out0 + KeysBytes(ks)
  {
    hide SizeBytes;
    out := out0;
    var i := 0;
    while i < |ks|
      invariant 0 <= i <= |ks|
      invariant out + KeysBytes(ks[i..]) == out0 + KeysBytes(ks)
    {
      assert ks[i..][0] == ks[i] && ks[i..][1..] == ks[i + 1..];
      assert out + KeysBytes(ks[i..]) == out + SizeBytes(|ks[i]|) + ks[i] + KeysBytes(ks[i + 1..]);
      out := out + SizeBytes(|ks[i]|);
      out := out + ks[i];
      i := i + 1;
    }
    assert out + KeysBytes(ks[i..]) == out;
  }

  method PrintConsts(out0: seq<byte>, ws: seq<uint128>) returns (out: seq<byte>)
    ensures out == out0 + WordsBytes(ws)
  {
    hide LE;
    out := out0;
    var i := 0;
    while i < |ws|
      invariant 0 <= i <= |ws|
      invariant out + WordsBytes(ws[i..]) == out0 + WordsBytes(ws)
    {
      assert ws[i..][0] == ws[i] && ws[i..][1..] == ws[i + 1..];
      assert out + WordsBytes(ws[i..]) == out + LE(ws[i], 16) + WordsBytes(ws[i + 1..]);
      out := out + LE(ws[i], 16);
      i := i + 1;
    }
    assert out + WordsBytes(ws[i..]) == out;
  }

  method PrintVdcf(p: VdcfPack) returns (out: seq<byte>)
    ensures out == SerializeVdcf(p) && VdcfLaidOut(out, p)
  {
    hide LE, WordsBytes, KeysBytes, SizeBytes, VdcfLaidOut;
    VdcfLayout(p);
    out := LE(p.domainSize, 4);
    out := out + LE(p.vecDim, 4);
    out := out + [p.mode];
    if p.mode == 1 {
      out := out + SizeBytes(|p.constValues|);
      out := PrintConsts(out, p.constValues);
    } else {
      out := out + SizeBytes(|p.scalarKeys|);
      out := PrintKeys(out, p.scalarKeys);
    }
  }

  // read_u32: fails, without moving the cursor, when fewer than four bytes are left.
  method ReadU32(blob: seq<byte>, off: nat) returns (ok: bool, v: uint32, off': nat)
    requires off <= |blob|
    ensures ok <==> off + 4 <= |blob|
    ensures ok ==> off' == off + 4 && v == U32(blob[off..off + 4])
    ensures !ok ==> off' == off
  {
    if off + 4 > |blob| { return false, 0, off; }
    return true, U32(blob[off..off + 4]), off + 4;
  }

  method ScanKeys(blob: seq<byte>, off0: nat, n: nat) returns (r: Result<(seq<seq<byte>>, nat), ParseError>)
    requires off0 <= |blob|
    ensures r.Ok? ==> r.value.1 <= |blob| && ParseKeys(blob[off0..], n) == Ok((r.value.0, blob[r.value.1..]))
    ensures r.Err? ==> ParseKeys(blob[off0..], n) == Err(r.error)
  {
    hide U32, ParseKeys, Prepend;
    var ks: seq<seq<byte>>, off: nat, i := [], off0, 0;
    PrependNothing(ParseKeys(blob[off0..], n));
    while i < n
      invariant 0 <= i <= n && off <= |blob|
      invariant ParseKeys(blob[off0..], n) == Prepend(ks, ParseKeys(blob[off..], n - i))
    {
      var ok, len, off' := ReadU32(blob, off);
      NextKey(blob, off, n - i);
      if !ok { return Err(BadHeader); }
      if off' + len > |blob| { return Err(BadKey); }
      PrependTwice(ks, [blob[off'..off' + len]], ParseKeys(blob[off' + len..], n - i - 1));
      ks := ks + [blob[off'..off' + len]];
      off := off' + len;
      i := i + 1;
    }
    KeysDone(ks, blob[off..]);
    return Ok((ks, off));
  }

  lemma KeysDone(ks: seq<seq<byte>>, rest: seq<byte>)
    ensures Prepend(ks, ParseKeys(rest, 0)) == Ok((ks, rest))
  {
    assert ks + [] == ks;
  }

  // What the parser finds at the cursor.
  lemma NextKey(blob: seq<byte>, off: nat, n: nat)
    requires off <= |blob| && n > 0
    ensures
      var p := ParseKeys(blob[off..], n);
      if off + 4 > |blob| then p == Err(BadHeader)
      else
        var len := U32(blob[off..off + 4]);
        if off + 4 + len > |blob| then p == Err(BadKey)
        else p == Prepend([blob[off + 4..off + 4 + len]], ParseKeys(blob[off + 4 + len..], n - 1))
    ensures forall ks: seq<seq<byte>>, e :: Prepend(ks, Err(e)) == Err(e)
  {
    hide U32, FromLE;
    var s := blob[off..];
    if off + 4 <= |blob| {
      assert s[..4] == blob[off..off + 4];
      U32IsFromLE(s[..4]);
      var len := U32(blob[off..off + 4]);
      if off + 4 + len <= |blob| {
        assert s[4..4 + len] == blob[off + 4..off + 4 + len];
        assert s[4 + len..] == blob[off + 4 + len..];
      }
    }
  }

  lemma U32IsFromLE(s: seq<byte>)
    requires |s| == 4
    ensures U32(s) == FromLE(s)
  {
  }

  lemma PrependNothing<T>(r: Result<(seq<T>, seq<byte>), ParseError>)
    ensures Prepend([], r) == r
  {
    if r.Ok? { assert [] + r.value.0 == r.value.0; }
  }

  lemma PrependTwice<T>(xs: seq<T>, ys: seq<T>, r: Result<(seq<T>, seq<byte>), ParseError>)
    ensures Prepend(xs, Prepend(ys, r)) == Prepend(xs + ys, r)
  {
    if r.Ok? { assert xs + (ys + r.value.0) == xs + ys + r.value.0; }
  }

  method ScanConsts(blob: seq<byte>, off0: nat, n: nat) returns (r: Result<(seq<uint128>, nat), ParseError>)
    requires off0 <= |blob|
    ensures r.Ok? ==> r.value.1 <= |blob| && ParseConsts(blob[off0..], n) == Ok((r.value.0, blob[r.value.1..]))
    ensures r.Err? ==> ParseConsts(blob[off0..], n) == Err(r.error)
  {
    hide Word;
    var ws: seq<uint128>, off: nat, i := [], off0, 0;
    PrependNothing(ParseConsts(blob[off0..], n));
    while i < n
      invariant 0 <= i <= n && off <= |blob|
      invariant ParseConsts(blob[off0..], n) == Prepend(ws, ParseConsts(blob[off..], n - i))
    {
      ghost var s := blob[off..];
      if off + 16 > |blob| { return Err(BadConst); }
      assert s[..16] == blob[off..off + 16] && s[16..] == blob[off + 16..];
      PrependTwice(ws, [Word(blob[off..off + 16])], ParseConsts(s[16..], n - i - 1));
      ws := ws + [Word(blob[off..off + 16])];
      off := off + 16;
      i := i + 1;
    }
    assert ws + [] == ws;
    return Ok((ws, off));
  }

  method ParseVdcf(blob: seq<byte>) returns (r: Result<VdcfPack, ParseError>)
    ensures r == DeserializeVdcf(blob)
    ensures r.Ok? ==>
      VdcfLaidOut(blob, r.value)
      && (if r.value.mode == 1 then |r.value.constValues| else |r.value.scalarKeys|) == U32At(blob, 9)
  {
    hide U32, ParseKeys, ParseConsts, VdcfLaidOut;
    VdcfAccepted(blob);
    var ok, d, off := ReadU32(blob, 0);
    if !ok { return Err(BadHeader); }
    var v;
    ok, v, off := ReadU32(blob, off);
    if !ok { return Err(BadHeader); }
    if off + 1 > |blob| { return Err(BadHeader); }
    var mode := blob[off];
    off := off + 1;
    var n;
    ok, n, off := ReadU32(blob, off);
    if !ok { return Err(BadHeader); }
    assert blob[0..4] == blob[..4];
    if mode == 1 {
      var cs := ScanConsts(blob, off, n);
      if cs.Err? { return Err(cs.error); }
      if cs.value.1 != |blob| { return Err(TrailingBytes); }
      return Ok(VdcfPack(d, v, mode, [], cs.value.0));
    }
    var ks := ScanKeys(blob, off, n);
    if ks.Err? { return Err(ks.error); }
    if ks.value.1 != |blob| { return Err(TrailingBytes); }
    return Ok(VdcfPack(d, v, mode, ks.value.0, []));
  }

  method PrintVdpf(p: VdpfPack) returns (out: seq<byte>)
    ensures out == SerializeVdpf(p) && VdpfLaidOut(out, p)
  {
    hide LE, KeysBytes, SizeBytes, VdpfLaidOut;
    VdpfLayout(p);
    out := LE(p.domainSize, 4);
    out := out + LE(p.vecDim, 4);
    out := out + SizeBytes(|p.scalarKeys|);
    out := PrintKeys(out, p.scalarKeys);
  }

  method ParseVdpf(blob: seq<byte>) returns (r: Result<VdpfPack, ParseError>)
    ensures r == DeserializeVdpf(blob)
    ensures r.Ok? ==> VdpfLaidOut(blob, r.value) && |r.value.scalarKeys| == U32At(blob, 8)
  {
    hide U32, ParseKeys, VdpfLaidOut;
    VdpfAccepted(blob);
    var ok, d, off := ReadU32(blob, 0);
    if !ok { return Err(BadHeader); }
    var v;
    ok, v, off := ReadU32(blob, off);
    if !ok { return Err(BadHeader); }
    var n;
    ok, n, off := ReadU32(blob, off);
    if !ok { return Err(BadHeader); }
    assert blob[0..4] == blob[..4];
    var ks := ScanKeys(blob, off, n);
    if ks.Err? { return Err(ks.error); }
    if ks.value.1 != |blob| { return Err(TrailingBytes); }
    return Ok(VdpfPack(d, v, ks.value.0));
  }
}
