/** The client and server key objects of keys.cpp: fields filled by generation or deserialization,
    read by serialization and evaluation. */
module KeyObjects {
  import opened Arith
  import opened Bits
  import opened Blocks
  import opened Bytes
  import opened SeedTree
  import opened Keys
  import opened Ranges
  import DPF
  import DCF
  import DPFClient
  import DCFClient
  import DPFServer
  import DCFServer

  // The seeds drawn for the plain key and for the MAC key.
  datatype Seeds = Seeds(plain: Pair, mac: Pair)

  // Both parties' keys of one generation; the MAC keys only in malicious mode.
  datatype DpfKeys = DpfKeys(key0: DPF.Key, key1: DPF.Key)
  datatype DcfKeys = DcfKeys(key0: DCF.Key, key1: DCF.Key)

  function DpfPair(c: Cipher, seeds: Pair, x: uint128, depth: nat, payload: uint128): DpfKeys
  {
    var target := PathOf(Mul(x, 128) / 128, depth);
    DpfKeys(DPF.Gen(c, seeds, target, payload, false), DPF.Gen(c, seeds, target, payload, true))
  }

  function DcfPair(c: Cipher, seeds: Pair, x: uint128, depth: nat, payload: uint128, gt: bool): DcfKeys
  {
    var target := PathOf(Mul(x, 128) / 128, depth);
    DcfKeys(DCF.Gen(c, seeds, target, payload, gt, false), DCF.Gen(c, seeds, target, payload, gt, true))
  }

  // The index survives the shift by 128 and back as long as it does not overflow the word.
  lemma IndexSurvives(x: uint128)
    requires x < 0x200_0000_0000_0000_0000_0000_0000_0000
    ensures Mul(x, 128) / 128 == x
  {
  }

  /** What a point key pair opens to: the payload at x, and 0 at every other point of the domain. */
  lemma DpfPairOpens(c: Cipher, seeds: Pair, x: uint128, depth: nat, payload: uint128, y: nat)
    requires x < 0x200_0000_0000_0000_0000_0000_0000_0000 && x < Pow2(depth) && y < Pow2(depth)
    ensures
      var keys, at := DpfPair(c, seeds, x, depth, payload), PathOf(y, depth);
      (DPF.Eval(c, keys.key0, false, at) + DPF.Eval(c, keys.key1, true, at)) % M == if y == x then payload % M else 0
  {
    hide DPF.Gen, DPF.Eval, PathOf;
    IndexSurvives(x);
    DPF.Correct(c, seeds, depth, x, payload, y);
  }

  /** And a comparison key pair: the payload below x -- above it, if that is asked for -- and 0 from x on. */
  lemma DcfPairOpens(c: Cipher, seeds: Pair, x: uint128, depth: nat, payload: uint128, gt: bool, y: nat)
    requires x < 0x200_0000_0000_0000_0000_0000_0000_0000 && x < Pow2(depth) && y < Pow2(depth)
    ensures
      var keys, at := DcfPair(c, seeds, x, depth, payload, gt), PathOf(y, depth);
      (DCF.Eval(c, keys.key0, false, at) + DCF.Eval(c, keys.key1, true, at)) % M
      == if (if gt then y > x else y < x) then payload % M else 0
  {
    hide DCF.Gen, DCF.Eval, PathOf;
    IndexSurvives(x);
    DCF.Correct(c, seeds, depth, x, payload, gt, y);
  }

  class ClKey {
    var malicious: bool
    var dpfSize: nat
    var dpf: DpfKeys
    var dpfMac: DpfKeys
    var dcfSize: nat
    var dcf: DcfKeys
    var dcfMac: DcfKeys

    constructor ()
      ensures !malicious && dpfSize == 0 && dcfSize == 0
    {
      malicious := false;
      dpfSize, dcfSize := 0, 0;
      var noDpf := DPF.Key([], 0);
      var noDcf := DCF.Key([], []);
      dpf, dpfMac := DpfKeys(noDpf, noDpf), DpfKeys(noDpf, noDpf);
      dcf, dcfMac := DcfKeys(noDcf, noDcf), DcfKeys(noDcf, noDcf);
    }

    static method GenDpf(c: Cipher, seeds: Pair, x: uint128, depth: nat, payload: uint128) returns (r: DpfKeys)
      ensures r == DpfPair(c, seeds, x, depth, payload)
    {
      var k0, k1 := new Block[depth + 1](_ => ZERO), new Block[depth + 1](_ => ZERO);
      var g0, g1 := new uint128[1](_ => 0), new uint128[1](_ => 0);
      DPFClient.KeyGenDPF(c, Mul(x, 128), payload, seeds, depth, k0, g0, k1, g1);
      r := DpfKeys(DPF.Key(k0[..], g0[0]), DPF.Key(k1[..], g1[0]));
    }

    static method GenDcf(c: Cipher, seeds: Pair, x: uint128, depth: nat, payload: uint128, gt: bool)
      returns (r: DcfKeys)
      ensures r == DcfPair(c, seeds, x, depth, payload, gt)
    {
      var k0, k1 := new Block[depth + 1](_ => ZERO), new Block[depth + 1](_ => ZERO);
      var v0, v1 := new uint128[depth + 1](_ => 0), new uint128[depth + 1](_ => 0);
      DCFClient.KeyGenDCFMAC(c, Mul(x, 128), payload, seeds, depth, gt, k0, v0, k1, v1);
      r := DcfKeys(DCF.Key(k0[..], v0[..]), DCF.Key(k1[..], v1[..]));
    }

    method DpfGenerate(c: Cipher, seeds: Seeds, x: uint128, payload: uint128, depth: nat, mal: bool, alpha: uint128)
      requires !(alpha == 0 && mal)
      modifies this
      ensures malicious == mal && dpfSize == depth + 1 && dcfSize == old(dcfSize)
      ensures dpf == DpfPair(c, seeds.plain, x, depth, payload)
      ensures dpfMac == if mal then DpfPair(c, seeds.mac, x, depth, Mul(alpha, payload)) else old(dpfMac)
    {
      malicious := mal;
      dpfSize := depth + 1;
      var keys := GenDpf(c, seeds.plain, x, depth, payload);
      dpf := keys;
      if mal {
        keys := GenDpf(c, seeds.mac, x, depth, Mul(alpha, payload));
        dpfMac := keys;
      }
    }

    /** greaterThan selects the upper boundary of an interval: the key for x + 1 with the payload
        negated; otherwise the comparison is x < target, or x > target when strictlyGT is set. */
    method DcfGenerate(c: Cipher, seeds: Seeds, x: uint128, payload: uint128, depth: nat,
                       greaterThan: bool, strictlyGT: bool, mal: bool, alpha: uint128)
      requires !(alpha == 0 && mal)
      modifies this
      ensures malicious == mal && dcfSize == depth + 1 && dpfSize == old(dpfSize)
      ensures dcf == if greaterThan then DcfPair(c, seeds.plain, Add(x, 1), depth, Mul(MINUS_ONE, payload), false)
                     else DcfPair(c, seeds.plain, x, depth, payload, strictlyGT)
      ensures dcfMac == if !mal then old(dcfMac)
                        else if greaterThan then
                          DcfPair(c, seeds.mac, Add(x, 1), depth, Mul(Mul(MINUS_ONE, alpha), payload), false)
                        else DcfPair(c, seeds.mac, x, depth, Mul(alpha, payload), strictlyGT)
    {
      malicious := mal;
      dcfSize := depth + 1;
      var keys;
      if greaterThan {
        keys := GenDcf(c, seeds.plain, Add(x, 1), depth, Mul(MINUS_ONE, payload), false);
      } else {
        keys := GenDcf(c, seeds.plain, x, depth, payload, strictlyGT);
      }
      dcf := keys;
      if mal {
        if greaterThan {
          keys := GenDcf(c, seeds.mac, Add(x, 1), depth, Mul(Mul(MINUS_ONE, alpha), payload), false);
        } else {
          keys := GenDcf(c, seeds.mac, x, depth, Mul(alpha, payload), strictlyGT);
        }
        dcfMac := keys;
      }
    }

    // What each party is sent: its key, followed by its MAC key in malicious mode.
    function DpfParty(second: bool): seq<byte>
      reads this
    {
      DpfBytes(if second then dpf.key1 else dpf.key0)
      + (if malicious then DpfBytes(if second then dpfMac.key1 else dpfMac.key0) else [])
    }

    predicate DcfFilled(depth: nat)
      reads this
    {
      && dcfSize == depth + 1
      && |dcf.key0.k| == |dcf.key0.v| == |dcf.key1.k| == |dcf.key1.v| == depth + 1
      && (malicious ==>
           |dcfMac.key0.k| == |dcfMac.key0.v| == |dcfMac.key1.k| == |dcfMac.key1.v| == depth + 1)
    }

    function DcfParty(second: bool, depth: nat): seq<byte>
      requires DcfFilled(depth)
      reads this
    {
      DcfBytes(if second then dcf.key1 else dcf.key0)
      + (if malicious then DcfBytes(if second then dcfMac.key1 else dcfMac.key0) else [])
    }

    // A generated object holds keys of one kind; get_keysize tells them apart by the other kind's size.
    predicate DpfFilled(depth: nat)
      reads this
    {
      && dpfSize == depth + 1
      && |dpf.key0.k| == |dpf.key1.k| == depth + 1
      && (malicious ==> |dpfMac.key0.k| == |dpfMac.key1.k| == depth + 1)
    }

    /** The number of bytes either party is sent, for keys of either kind. */
    method GetKeysize(ghost depth: nat) returns (n: nat)
      requires dpfSize == 0 || dcfSize == 0
      requires DpfFilled(depth) || DcfFilled(depth)
      ensures DpfFilled(depth) ==> n == |DpfParty(false)| == |DpfParty(true)|
      ensures DcfFilled(depth) ==> n == |DcfParty(false, depth)| == |DcfParty(true, depth)|
    {
      var macFactor := if malicious then 2 else 1;
      if dpfSize > 0 {
        n := macFactor * (dpfSize * 16 + 16);
      } else {
        n := macFactor * (dcfSize * (16 + 16));
      }
    }

    method DpfSerialize(depth: nat) returns (key0: seq<byte>, key1: seq<byte>)
      requires DpfFilled(depth)
      ensures key0 == DpfParty(false) && key1 == DpfParty(true)
      ensures |key0| == |key1| == (if malicious then 2 else 1) * (16 * dpfSize + 16)
    {
      hide WordsBytes, ToInts;
      key0 := WordsBytes(ToInts(dpf.key0.k));
      key0 := key0 + WordsBytes([dpf.key0.g]);
      key1 := WordsBytes(ToInts(dpf.key1.k));
      key1 := key1 + WordsBytes([dpf.key1.g]);
      if malicious {
        key0 := key0 + DpfBytes(dpfMac.key0);
        key1 := key1 + DpfBytes(dpfMac.key1);
      }
    }

    method DcfSerialize(depth: nat) returns (key0: seq<byte>, key1: seq<byte>)
      requires DcfFilled(depth)
      ensures key0 == DcfParty(false, depth) && key1 == DcfParty(true, depth)
      ensures |key0| == |key1| == (if malicious then 2 else 1) * (32 * dcfSize)
    {
      hide WordsBytes, ToInts;
      key0 := WordsBytes(ToInts(dcf.key0.k));
      key0 := key0 + WordsBytes(dcf.key0.v);
      key1 := WordsBytes(ToInts(dcf.key1.k));
      key1 := key1 + WordsBytes(dcf.key1.v);
      if malicious {
        key0 := key0 + DcfBytes(dcfMac.key0);
        key1 := key1 + DcfBytes(dcfMac.key1);
      }
    }
  }

  class SvKey {
    var malicious: bool
    var role: bool
    var dpf: DPF.Key
    var dpfMac: DPF.Key
    var dcf: DCF.Key
    var dcfMac: DCF.Key

    constructor (mal: bool, party: bool)
      ensures malicious == mal && role == party
    {
      malicious, role := mal, party;
      dpf, dpfMac := DPF.Key([], 0), DPF.Key([], 0);
      dcf, dcfMac := DCF.Key([], []), DCF.Key([], []);
    }

    /** Reads the key, and in malicious mode the MAC key behind it. */
    method DcfDeserialize(depth: nat, key: seq<byte>)
      requires |key| >= (if malicious then 2 else 1) * (32 * (depth + 1))
      modifies `dcf, `dcfMac
      ensures dcf == ReadDcf(key, depth)
      ensures dcfMac == if malicious then ReadDcf(key[32 * (depth + 1)..], depth) else old(dcfMac)
    {
      dcf := ReadDcf(key, depth);
      if malicious { dcfMac := ReadDcf(key[32 * (depth + 1)..], depth); }
    }

    method DpfDeserialize(depth: nat, key: seq<byte>)
      requires |key| >= (if malicious then 2 else 1) * (16 * (depth + 1) + 16)
      modifies `dpf, `dpfMac
      ensures dpf == ReadDpf(key, depth)
      ensures dpfMac == if malicious then ReadDpf(key[16 * (depth + 1) + 16..], depth) else old(dpfMac)
    {
      dpf := ReadDpf(key, depth);
      if malicious { dpfMac := ReadDpf(key[16 * (depth + 1) + 16..], depth); }
    }

    /** Evaluates a range of either key: in a malicious run, the MAC key. */
    method DpfEvalContig(res: array<uint128>, off: nat, c: Cipher, depth: nat, start: nat, end: nat, maliciousRun: bool,
                         ghost e: nat)
      requires |(if maliciousRun then dpfMac else dpf).k| == depth + 1
      requires start <= end && end - start + 1 == Pow2(e) && (depth > 0 ==> e <= depth)
      requires off + (end - start + 1) <= res.Length
      modifies res
      ensures depth == 0 ==> res[..] == old(res[..])
      ensures depth > 0 ==>
        forall j :: 0 <= j < res.Length ==>
          res[j] == if off <= j <= off + (end - start)
                    then DPF.Eval(c, if maliciousRun then dpfMac else dpf, role, RangePath(start, e, depth, j - off))
                    else old(res[j])
      ensures depth > 0 && start % Pow2(e) == 0 ==>
        forall j :: off <= j <= off + (end - start) ==>
          res[j] == DPF.Eval(c, if maliciousRun then dpfMac else dpf, role, PathOf(start + j - off, depth))
    {
      hide DPF.Eval, PathOf, RangePath;
      if maliciousRun {
        DPFServer.ContigDomainDPFLargeOutOptimized(res, off, c, dpfMac, depth, start, end, role, e);
      } else {
        DPFServer.ContigDomainDPFLargeOutOptimized(res, off, c, dpf, depth, start, end, role, e);
      }
    }

    method DcfEvalContig(res: array<uint128>, off: nat, c: Cipher, depth: nat, start: nat, end: nat, maliciousRun: bool,
                         ghost e: nat)
      requires
        var key := if maliciousRun then dcfMac else dcf;
        |key.k| == |key.v| == depth + 1
      requires start <= end && end - start + 1 == Pow2(e) && (depth > 0 ==> e <= depth)
      requires off + (end - start + 1) <= res.Length
      modifies res
      ensures depth == 0 ==> res[..] == old(res[..])
      ensures depth > 0 ==>
        forall j :: 0 <= j < res.Length ==>
          res[j] == if off <= j <= off + (end - start)
                    then DCF.Eval(c, if maliciousRun then dcfMac else dcf, role, RangePath(start, e, depth, j - off))
                    else old(res[j])
      ensures depth > 0 && start % Pow2(e) == 0 ==>
        forall j :: off <= j <= off + (end - start) ==>
          res[j] == DCF.Eval(c, if maliciousRun then dcfMac else dcf, role, PathOf(start + j - off, depth))
    {
      hide DCF.Eval, PathOf, RangePath;
      if maliciousRun {
        DCFServer.ContigDomainDCFLargeOutOptimized(res, off, c, dcfMac, depth, start, end, role, e);
      } else {
        DCFServer.ContigDomainDCFLargeOutOptimized(res, off, c, dcf, depth, start, end, role, e);
      }
    }
  }

  /** What one party is sent is what its key object reads back, the MAC key included: the second key
      starts exactly one key size in. */
  lemma PointBytesReadBack(plain: DPF.Key, mac: DPF.Key, depth: nat, rest: seq<byte>)
    requires |plain.k| == |mac.k| == depth + 1
    ensures
      var s := DpfBytes(plain) + DpfBytes(mac) + rest;
      ReadDpf(s, depth) == plain && ReadDpf(s[16 * (depth + 1) + 16..], depth) == mac
  {
    hide DpfBytes, ReadDpf;
    var s := DpfBytes(plain) + DpfBytes(mac) + rest;
    assert s == DpfBytes(plain) + (DpfBytes(mac) + rest);
    assert s[16 * (depth + 1) + 16..] == DpfBytes(mac) + rest;
    DpfRoundTrip(plain, depth, DpfBytes(mac) + rest);
    DpfRoundTrip(mac, depth, rest);
  }

  // The same for comparison keys.
  lemma PartyBytesReadBack(plain: DCF.Key, mac: DCF.Key, depth: nat, rest: seq<byte>)
    requires |plain.k| == |plain.v| == |mac.k| == |mac.v| == depth + 1
    ensures
      var s := DcfBytes(plain) + DcfBytes(mac) + rest;
      ReadDcf(s, depth) == plain && ReadDcf(s[32 * (depth + 1)..], depth) == mac
  {
    hide DcfBytes, ReadDcf;
    var s := DcfBytes(plain) + DcfBytes(mac) + rest;
    assert s == DcfBytes(plain) + (DcfBytes(mac) + rest);
    assert s[32 * (depth + 1)..] == DcfBytes(mac) + rest;
    DcfRoundTrip(plain, depth, DcfBytes(mac) + rest);
    DcfRoundTrip(mac, depth, rest);
  }
}
