/** Vector-output function secret sharing: one scalar key a coordinate (vdpf.cpp, vdcf.cpp). */
module VectorFss {
  import opened Arith
  import opened Bits
  import opened Blocks
  import opened Bytes
  import opened SeedTree
  import opened Keys
  import opened KeyPacks
  import opened Results
  import DPF
  import DCF

  datatype FssError = EmptyPayload | ZeroDomain | NotPowerOfTwo | TargetOutOfRange | PointOutOfRange | SizeMismatch

  // ceil(log2(n))
  function CeilLog2(n: nat): nat
    requires n > 0
  {
    if n == 1 then 0 else 1 + CeilLog2((n + 1) / 2)
  }

  function DomainDepth(n: nat): Result<nat, FssError>
  {
    if n == 0 then Err(ZeroDomain)
    else
      var depth := CeilLog2(n);
      if Pow2(depth) != n then Err(NotPowerOfTwo) else Ok(depth)
  }

  lemma {:induction false} DepthOfPower(d: nat)
    ensures DomainDepth(Pow2(d)) == Ok(d)
  {
    if d > 0 {
      DepthOfPower(d - 1);
      assert (Pow2(d) + 1) / 2 == Pow2(d - 1);
    }
  }

  // And no other domains are.
  lemma DomainIsPower(n: nat)
    ensures DomainDepth(n).Ok? <==> IsPow2(n)
  {
    hide CeilLog2;
    if IsPow2(n) {
      var e: nat :| n == Pow2(e);
      DepthOfPower(e);
    }
  }

  // ----- comparison plans -----

  datatype CompareOp = LT | LE | GT | GE

  predicate Holds(op: CompareOp, x: nat, t: nat)
  {
    match op
    case LT => x < t
    case LE => x <= t
    case GT => x > t
    case GE => x >= t
  }

  datatype Plan = Plan(constant: bool, constantTrue: bool, strictGt: bool, idx: uint32)

  function MakePlan(domainSize: uint32, op: CompareOp, t: uint32): Plan
    requires domainSize > 0
  {
    var last := domainSize - 1;
    match op
    case LT =>
      if t == 0 then Plan(true, false, false, 0)
      else if t >= domainSize then Plan(true, true, false, 0)
      else Plan(false, false, false, t)
    case LE =>
      if t >= last then Plan(true, true, false, 0)
      else Plan(false, false, false, t + 1)
    case GT =>
      if t >= last then Plan(true, false, true, 0)
      else Plan(false, false, true, t)
    case GE =>
      if t == 0 then Plan(true, true, true, 0)
      else if t >= domainSize then Plan(true, false, true, 0)
      else Plan(false, false, true, t - 1)
  }

  /** The plan decides the comparison on the whole domain, and a keyed plan never meets a domain of
      one point, where the tree has no level. */
  lemma PlanMeaning(domainSize: uint32, op: CompareOp, t: uint32, x: nat)
    requires x < domainSize
    ensures
      var p := MakePlan(domainSize, op, t);
      if p.constant then p.constantTrue == Holds(op, x, t)
      else p.idx < domainSize && domainSize > 1
           && ((if p.strictGt then x > p.idx else x < p.idx) <==> Holds(op, x, t))
  {
  }

  // ----- what a serialized scalar key evaluates to -----

  function DpfKeyLength(depth: nat): nat { 16 * (depth + 1) + 16 }

  function DcfKeyLength(depth: nat): nat { 32 * (depth + 1) }

  function DpfValue(c: Cipher, key: seq<byte>, depth: nat, party: bool, x: nat): uint128
    requires |key| >= DpfKeyLength(depth)
  {
    if depth == 0 then 0 else DPF.Eval(c, ReadDpf(key, depth), party, PathOf(x, depth))
  }

  function DcfValue(c: Cipher, key: seq<byte>, depth: nat, party: bool, x: nat): uint128
    requires |key| >= DcfKeyLength(depth)
  {
    if depth == 0 then 0 else DCF.Eval(c, ReadDcf(key, depth), party, PathOf(x, depth))
  }

  function PointKey(c: Cipher, seeds: Pair, target: nat, depth: nat, payload: uint128, party: bool): (s: seq<byte>)
    ensures |s| == DpfKeyLength(depth)
  {
    DpfBytes(DPF.Gen(c, seeds, PathOf(target, depth), payload, party))
  }

  function CompareKey(c: Cipher, seeds: Pair, idx: nat, depth: nat, payload: uint128, gt: bool,
                      party: bool): (s: seq<byte>)
    ensures |s| == DcfKeyLength(depth)
  {
    DcfBytes(DCF.Gen(c, seeds, PathOf(idx, depth), payload, gt, party))
  }

  // Serialized point keys open to the payload at the target, unless the domain has a single point.
  lemma PointKeyOpens(c: Cipher, seeds: Pair, target: nat, depth: nat, payload: uint128, x: nat)
    requires target < Pow2(depth) && x < Pow2(depth)
    ensures (DpfValue(c, PointKey(c, seeds, target, depth, payload, false), depth, false, x)
             + DpfValue(c, PointKey(c, seeds, target, depth, payload, true), depth, true, x)) % M
         == if depth > 0 && x == target then payload % M else 0
  {
    hide DPF.Gen, DPF.Eval, PathOf, DpfBytes, ReadDpf;
    DPF.Correct(c, seeds, depth, target, payload, x);
    ReadBackPoint(DPF.Gen(c, seeds, PathOf(target, depth), payload, false), depth);
    ReadBackPoint(DPF.Gen(c, seeds, PathOf(target, depth), payload, true), depth);
  }

  lemma ReadBackPoint(key: DPF.Key, depth: nat)
    requires |key.k| == depth + 1
    ensures ReadDpf(DpfBytes(key), depth) == key
  {
    DpfRoundTrip(key, depth, []);
    assert DpfBytes(key) + [] == DpfBytes(key);
  }

  lemma ReadBackCompare(key: DCF.Key, depth: nat)
    requires |key.k| == |key.v| == depth + 1
    ensures ReadDcf(DcfBytes(key), depth) == key
  {
    DcfRoundTrip(key, depth, []);
    assert DcfBytes(key) + [] == DcfBytes(key);
  }

  lemma CompareKeyOpens(c: Cipher, seeds: Pair, idx: nat, depth: nat, payload: uint128, gt: bool, x: nat)
    requires idx < Pow2(depth) && x < Pow2(depth) && depth > 0
    ensures (DcfValue(c, CompareKey(c, seeds, idx, depth, payload, gt, false), depth, false, x)
             + DcfValue(c, CompareKey(c, seeds, idx, depth, payload, gt, true), depth, true, x)) % M
         == if (if gt then x > idx else x < idx) then payload % M else 0
  {
    hide DCF.Gen, DCF.Eval, PathOf, DcfBytes, ReadDcf;
    DCF.Correct(c, seeds, depth, idx, payload, gt, x);
    ReadBackCompare(DCF.Gen(c, seeds, PathOf(idx, depth), payload, gt, false), depth);
    ReadBackCompare(DCF.Gen(c, seeds, PathOf(idx, depth), payload, gt, true), depth);
  }

  // ----- packs -----

  ghost predicate DpfKeysReadable(keys: seq<seq<byte>>, depth: nat)
  {
    forall i :: 0 <= i < |keys| ==> |keys[i]| >= DpfKeyLength(depth)
  }

  ghost predicate DcfKeysReadable(keys: seq<seq<byte>>, depth: nat)
  {
    forall i :: 0 <= i < |keys| ==> |keys[i]| >= DcfKeyLength(depth)
  }

  function PointKeys(c: Cipher, seeds: seq<Pair>, target: nat, depth: nat, payload: seq<uint128>,
                     party: bool): (ks: seq<seq<byte>>)
    requires |seeds| == |payload|
    ensures |ks| == |payload|
    ensures forall i :: 0 <= i < |ks| ==> ks[i] == PointKey(c, seeds[i], target, depth, payload[i], party)
  {
    seq(|payload|, i requires 0 <= i < |payload| => PointKey(c, seeds[i], target, depth, payload[i], party))
  }

  function CompareKeys(c: Cipher, seeds: seq<Pair>, idx: nat, depth: nat, payload: seq<uint128>, gt: bool,
                       party: bool): (ks: seq<seq<byte>>)
    requires |seeds| == |payload|
    ensures |ks| == |payload|
    ensures forall i :: 0 <= i < |ks| ==> ks[i] == CompareKey(c, seeds[i], idx, depth, payload[i], gt, party)
  {
    seq(|payload|, i requires 0 <= i < |payload| => CompareKey(c, seeds[i], idx, depth, payload[i], gt, party))
  }

  // The pack one party receives for a point function.
  function PointPack(c: Cipher, seeds: seq<Pair>, domainSize: uint32, target: nat, depth: nat, payload: seq<uint128>,
                     party: bool): VdpfPack
    requires |seeds| == |payload| < 0x1_0000_0000
  {
    VdpfPack(domainSize, |payload|, PointKeys(c, seeds, target, depth, payload, party))
  }

  // The constant shares of a plan that needs no key: the first party holds random words.
  function ConstShares(rands: seq<uint64>, payload: seq<uint128>, always: bool, party: bool): (v: seq<uint128>)
    requires |rands| == |payload|
    ensures |v| == |payload|
  {
    seq(|payload|, i requires 0 <= i < |payload| =>
      if !always then 0 else if party then Sub(payload[i], rands[i]) else rands[i])
  }

  // The pack one party receives for a comparison.
  function ComparePack(c: Cipher, seeds: seq<Pair>, rands: seq<uint64>, domainSize: uint32, plan: Plan, depth: nat,
                       payload: seq<uint128>, party: bool): VdcfPack
    requires |seeds| == |rands| == |payload| < 0x1_0000_0000
  {
    if plan.constant then VdcfPack(domainSize, |payload|, 1, [], ConstShares(rands, payload, plan.constantTrue, party))
    else VdcfPack(domainSize, |payload|, 0, CompareKeys(c, seeds, plan.idx, depth, payload, plan.strictGt, party), [])
  }

  // The share a pack holds for coordinate j at point x.
  function PointShare(c: Cipher, p: VdpfPack, depth: nat, party: bool, x: nat, j: nat): uint128
    requires j < |p.scalarKeys| && |p.scalarKeys[j]| >= DpfKeyLength(depth)
  {
    DpfValue(c, p.scalarKeys[j], depth, party, x)
  }

  function CompareShare(c: Cipher, p: VdcfPack, depth: nat, party: bool, x: nat, j: nat): uint128
    requires if p.mode == 1 then j < |p.constValues|
             else j < |p.scalarKeys| && |p.scalarKeys[j]| >= DcfKeyLength(depth)
  {
    if p.mode == 1 then p.constValues[j] else DcfValue(c, p.scalarKeys[j], depth, party, x)
  }

  /** Point vectors: the two packs open, coordinate by coordinate, to the payload at the target and to
      zero elsewhere -- except on a domain of a single point, where they open to zero. */
  lemma PointVectorCorrect(c: Cipher, seeds: seq<Pair>, domainSize: uint32, target: nat, payload: seq<uint128>,
                           depth: nat, x: nat, j: nat)
    requires |seeds| == |payload| < 0x1_0000_0000 && j < |payload|
    requires DomainDepth(domainSize) == Ok(depth) && target < domainSize && x < domainSize
    ensures
      var p0 := PointPack(c, seeds, domainSize, target, depth, payload, false);
      var p1 := PointPack(c, seeds, domainSize, target, depth, payload, true);
      (PointShare(c, p0, depth, false, x, j) + PointShare(c, p1, depth, true, x, j)) % M
      == if domainSize >= 2 && x == target then payload[j] % M else 0
  {
    hide DpfValue, PointKey;
    PointKeyOpens(c, seeds[j], target, depth, payload[j], x);
    assert depth > 0 <==> domainSize >= 2;
  }

  /** A point vector is right at every point and coordinate if and only if the domain has at least two
      points, or every payload is a multiple of the modulus anyway. */
  lemma PointVectorRightIff(c: Cipher, seeds: seq<Pair>, domainSize: uint32, target: nat, payload: seq<uint128>,
                            depth: nat)
    requires |seeds| == |payload| < 0x1_0000_0000
    requires DomainDepth(domainSize) == Ok(depth) && target < domainSize
    ensures
      var p0 := PointPack(c, seeds, domainSize, target, depth, payload, false);
      var p1 := PointPack(c, seeds, domainSize, target, depth, payload, true);
      (forall x: nat, j: nat | x < domainSize && j < |payload| ::
        (PointShare(c, p0, depth, false, x, j) + PointShare(c, p1, depth, true, x, j)) % M
        == if x == target then payload[j] % M else 0)
      <==> domainSize >= 2 || forall j :: 0 <= j < |payload| ==> payload[j] % M == 0
  {
    hide PointShare, PointPack;
    var p0 := PointPack(c, seeds, domainSize, target, depth, payload, false);
    var p1 := PointPack(c, seeds, domainSize, target, depth, payload, true);
    PackShape(c, seeds, domainSize, target, depth, payload);
    forall x: nat, j: nat | x < domainSize && j < |payload|
      ensures (PointShare(c, p0, depth, false, x, j) + PointShare(c, p1, depth, true, x, j)) % M
           == if domainSize >= 2 && x == target then payload[j] % M else 0
    {
      PointVectorCorrect(c, seeds, domainSize, target, payload, depth, x, j);
    }
    if domainSize < 2 && exists j :: 0 <= j < |payload| && payload[j] % M != 0 {
      var j: nat :| j < |payload| && payload[j] % M != 0;
      assert (PointShare(c, p0, depth, false, target, j) + PointShare(c, p1, depth, true, target, j)) % M == 0;
    }
  }

  lemma PackShape(c: Cipher, seeds: seq<Pair>, domainSize: uint32, target: nat, depth: nat, payload: seq<uint128>)
    requires |seeds| == |payload| < 0x1_0000_0000
    ensures forall party :: DpfKeysReadable(PointPack(c, seeds, domainSize, target, depth, payload, party).scalarKeys,
                                            depth)
    ensures forall party :: |PointPack(c, seeds, domainSize, target, depth, payload, party).scalarKeys| == |payload|
  {
    hide PointKey;
  }

  /** Comparison vectors: for every power-of-two domain, operator and threshold, constant or keyed,
      the two packs open to the payload where the comparison holds and to zero elsewhere. */
  lemma CompareVectorCorrect(c: Cipher, seeds: seq<Pair>, rands: seq<uint64>, domainSize: uint32, op: CompareOp,
                             t: uint32,
                             payload: seq<uint128>, depth: nat, x: nat, j: nat)
    requires |seeds| == |rands| == |payload| < 0x1_0000_0000 && j < |payload|
    requires DomainDepth(domainSize) == Ok(depth) && x < domainSize
    ensures
      var plan := MakePlan(domainSize, op, t);
      var p0 := ComparePack(c, seeds, rands, domainSize, plan, depth, payload, false);
      var p1 := ComparePack(c, seeds, rands, domainSize, plan, depth, payload, true);
      (CompareShare(c, p0, depth, false, x, j) + CompareShare(c, p1, depth, true, x, j)) % M
      == if Holds(op, x, t) then payload[j] % M else 0
  {
    hide DcfValue, CompareKey, MakePlan, CeilLog2, Holds;
    var plan := MakePlan(domainSize, op, t);
    PlanMeaning(domainSize, op, t, x);
    if plan.constant {
      if plan.constantTrue { ConstOpens(rands[j], payload[j]); }
    } else {
      CompareKeyOpens(c, seeds[j], plan.idx, depth, payload[j], plan.strictGt, x);
    }
  }

  lemma ConstOpens(r: uint128, v: uint128)
    ensures (r + Sub(v, r)) % M == v % M
  {
    CongRefl(r);
    CongRefl(v);
    SubCong(v, v, r, r);
    var d := (v as int) - r;
    CongAdd(r, r, Sub(v, r), d);
    CongMod(r + Sub(v, r), v);
  }
}
