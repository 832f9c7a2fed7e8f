/** Generation and evaluation of vector keys as the source runs them: loops over coordinates, a key
    object per coordinate, and a flat row-major output buffer. */
module VectorFssOps {
  import opened Arith
  import opened Bits
  import opened Blocks
  import opened Bytes
  import opened SeedTree
  import opened Keys
  import opened KeyPacks
  import opened KeyObjects
  import opened Results
  import opened VectorFss

  method GenPointVector(c: Cipher, seeds: seq<Pair>, domainSize: uint32, target: uint32, payload: seq<uint128>)
    returns (r: Result<(VdpfPack, VdpfPack), FssError>)
    requires |seeds| == |payload| < 0x1_0000_0000
    ensures r == if payload == [] then Err(EmptyPayload)
                 else if target >= domainSize then Err(TargetOutOfRange)
                 else match DomainDepth(domainSize)
                      case Err(e) => Err(e)
                      case Ok(depth) => Ok((PointPack(c, seeds, domainSize, target, depth, payload, false),
                                            PointPack(c, seeds, domainSize, target, depth, payload, true)))
    ensures r.Ok? ==>
      && r.value.0.domainSize == r.value.1.domainSize == domainSize
      && r.value.0.vecDim == r.value.1.vecDim == |r.value.0.scalarKeys| == |r.value.1.scalarKeys| == |payload|
  {
    hide DPF.Gen, DpfBytes, PathOf, CeilLog2;
    if payload == [] { return Err(EmptyPayload); }
    if target >= domainSize { return Err(TargetOutOfRange); }
    var dd := DomainDepth(domainSize);
    if dd.Err? { return Err(dd.error); }
    var depth := dd.value;
    var keys0: seq<seq<byte>>, keys1: seq<seq<byte>> := [], [];
    var i := 0;
    while i < |payload|
      invariant 0 <= i <= |payload|
      invariant keys0 == PointKeys(c, seeds, target, depth, payload, false)[..i]
      invariant keys1 == PointKeys(c, seeds, target, depth, payload, true)[..i]
    {
      var k := new ClKey();
      k.DpfGenerate(c, Seeds(seeds[i], seeds[i]), target, payload[i], depth, false, 0);
      IndexSurvives(target);
      var b0, b1 := k.DpfSerialize(depth);
      assert b0 == PointKey(c, seeds[i], target, depth, payload[i], false);
      assert b1 == PointKey(c, seeds[i], target, depth, payload[i], true);
      keys0, keys1 := keys0 + [b0], keys1 + [b1];
      i := i + 1;
    }
    assert keys0 == PointKeys(c, seeds, target, depth, payload, false);
    assert keys1 == PointKeys(c, seeds, target, depth, payload, true);
    return Ok((VdpfPack(domainSize, |payload|, keys0), VdpfPack(domainSize, |payload|, keys1)));
  }

  method GenCompareVector(c: Cipher, seeds: seq<Pair>, rands: seq<uint64>, domainSize: uint32, op: CompareOp, t: uint32,
                          payload: seq<uint128>)
    returns (r: Result<(VdcfPack, VdcfPack), FssError>)
    requires |seeds| == |rands| == |payload| < 0x1_0000_0000
    ensures r == if payload == [] then Err(EmptyPayload)
                 else match DomainDepth(domainSize)
                      case Err(e) => Err(e)
                      case Ok(depth) =>
                        var plan := MakePlan(domainSize, op, t);
                        Ok((ComparePack(c, seeds, rands, domainSize, plan, depth, payload, false),
                            ComparePack(c, seeds, rands, domainSize, plan, depth, payload, true)))
    ensures r.Ok? ==>
      && r.value.0.domainSize == r.value.1.domainSize == domainSize
      && r.value.0.vecDim == r.value.1.vecDim == |payload|
      && r.value.0.mode == r.value.1.mode == (if MakePlan(domainSize, op, t).constant then 1 else 0)
  {
    hide CeilLog2, MakePlan, ConstShares, CompareKeys;
    if payload == [] { return Err(EmptyPayload); }
    var dd := DomainDepth(domainSize);
    if dd.Err? { return Err(dd.error); }
    var depth := dd.value;
    var plan := MakePlan(domainSize, op, t);
    if plan.constant {
      var const0, const1 := GenConstants(rands, payload, plan.constantTrue);
      return Ok((VdcfPack(domainSize, |payload|, 1, [], const0), VdcfPack(domainSize, |payload|, 1, [], const1)));
    }
    var keys0, keys1 := GenKeys(c, seeds, payload, plan, depth);
    return Ok((VdcfPack(domainSize, |payload|, 0, keys0, []), VdcfPack(domainSize, |payload|, 0, keys1, [])));
  }

  // The shares of a plan that needs no key.
  method GenConstants(rands: seq<uint64>, payload: seq<uint128>, always: bool)
    returns (const0: seq<uint128>, const1: seq<uint128>)
    requires |rands| == |payload|
    ensures const0 == ConstShares(rands, payload, always, false) && const1 == ConstShares(rands, payload, always, true)
    ensures |const0| == |const1| == |payload|
    ensures always ==>
      forall i :: 0 <= i < |payload| ==> const0[i] == rands[i] && const1[i] == Sub(payload[i], rands[i])
    ensures !always ==> forall i :: 0 <= i < |payload| ==> const0[i] == const1[i] == 0
  {
    const0, const1 := [], [];
    var i := 0;
    while i < |payload|
      invariant 0 <= i <= |payload|
      invariant const0 == ConstShares(rands, payload, always, false)[..i]
      invariant const1 == ConstShares(rands, payload, always, true)[..i]
    {
      var share0: uint128, share1: uint128 := 0, 0;
      if always { share0, share1 := rands[i], Sub(payload[i], rands[i]); }
      const0, const1 := const0 + [share0], const1 + [share1];
      i := i + 1;
    }
  }

  // A key pair a coordinate.
  method GenKeys(c: Cipher, seeds: seq<Pair>, payload: seq<uint128>, plan: Plan, depth: nat)
    returns (keys0: seq<seq<byte>>, keys1: seq<seq<byte>>)
    requires |seeds| == |payload|
    ensures keys0 == CompareKeys(c, seeds, plan.idx, depth, payload, plan.strictGt, false)
    ensures keys1 == CompareKeys(c, seeds, plan.idx, depth, payload, plan.strictGt, true)
  {
    hide DCF.Gen, DcfBytes, PathOf;
    keys0, keys1 := [], [];
    var i := 0;
    while i < |payload|
      invariant 0 <= i <= |payload|
      invariant keys0 == CompareKeys(c, seeds, plan.idx, depth, payload, plan.strictGt, false)[..i]
      invariant keys1 == CompareKeys(c, seeds, plan.idx, depth, payload, plan.strictGt, true)[..i]
    {
      var k := new ClKey();
      k.DcfGenerate(c, Seeds(seeds[i], seeds[i]), plan.idx, payload[i], depth, false, plan.strictGt, false, 0);
      IndexSurvives(plan.idx);
      var b0, b1 := k.DcfSerialize(depth);
      assert b0 == CompareKey(c, seeds[i], plan.idx, depth, payload[i], plan.strictGt, false);
      assert b1 == CompareKey(c, seeds[i], plan.idx, depth, payload[i], plan.strictGt, true);
      keys0, keys1 := keys0 + [b0], keys1 + [b1];
      i := i + 1;
    }
  }

  // ----- row-major buffers -----

  // The place of coordinate j at point x.
  function Idx(x: nat, j: nat, points: nat, dim: nat): (i: nat)
    requires x < points && j < dim
    ensures i < points * dim
  {
    IdxBound(x, j, points, dim);
    x * dim + j
  }

  lemma IdxBound(x: nat, j: nat, points: nat, dim: nat)
    requires x < points && j < dim
    ensures x * dim + j < points * dim
  {
    assert points * dim == (points - x - 1) * dim + x * dim + dim;
  }

  lemma IdxInjective(x: nat, j: nat, y: nat, k: nat, points: nat, dim: nat)
    requires x < points && j < dim && y < points && k < dim
    requires Idx(x, j, points, dim) == Idx(y, k, points, dim)
    ensures x == y && j == k
  {
    if x < y { MulGap(dim, x, y); }
    if y < x { MulGap(dim, y, x); }
  }

  // Writes a column, leaving the other columns as they were.
  method WriteColumn(out: array<uint128>, column: array<uint128>, j: nat, points: nat, dim: nat)
    requires j < dim && column.Length == points && out.Length == points * dim && out != column
    modifies out
    ensures forall x, k :: 0 <= x < points && 0 <= k < dim ==>
              out[Idx(x, k, points, dim)] == if k == j then column[x] else old(out[Idx(x, k, points, dim)])
  {
    hide Idx;
    var x := 0;
    while x < points
      invariant 0 <= x <= points
      invariant forall y, k :: 0 <= y < points && 0 <= k < dim ==>
                  out[Idx(y, k, points, dim)]
                  == if k == j && y < x then column[y] else old(out[Idx(y, k, points, dim)])
    {
      forall y: nat, k: nat | y < points && k < dim && Idx(y, k, points, dim) == Idx(x, j, points, dim)
        ensures y == x && k == j
      {
        IdxInjective(y, k, x, j, points, dim);
      }
      out[Idx(x, j, points, dim)] := column[x];
      x := x + 1;
    }
  }

  /** Evaluates one side's point pack on the whole domain. */
  // Cell i of a buffer of `dim` coordinates a point is coordinate i % dim of point i / dim.
  lemma RowAndColumn(i: nat, points: nat, dim: nat)
    requires i < points * dim
    ensures dim > 0 && 0 <= i / dim < points && 0 <= i % dim < dim && Idx(i / dim, i % dim, points, dim) == i
  {
    if dim > 0 {
      assert i == dim * (i / dim) + i % dim;
      if i / dim >= points { MulGap(dim, points - 1, i / dim); }
    }
  }

  method EvalAllFlatVdpf(c: Cipher, p: VdpfPack, party: bool) returns (r: Result<seq<uint128>, FssError>)
    requires DomainDepth(p.domainSize).Ok? ==> DpfKeysReadable(p.scalarKeys, DomainDepth(p.domainSize).value)
    ensures |p.scalarKeys| != p.vecDim ==> r == Err(SizeMismatch)
    ensures |p.scalarKeys| == p.vecDim && DomainDepth(p.domainSize).Err? ==> r == Err(DomainDepth(p.domainSize).error)
    ensures |p.scalarKeys| == p.vecDim && DomainDepth(p.domainSize).Ok? ==>
      && r.Ok? && |r.value| == p.domainSize * p.vecDim
      && forall x, j :: 0 <= x < p.domainSize && 0 <= j < p.vecDim ==>
           r.value[Idx(x, j, p.domainSize, p.vecDim)] == PointShare(c, p, DomainDepth(p.domainSize).value, party, x, j)
    ensures r.Ok? ==> forall i :: 0 <= i < |r.value| ==>
      (RowAndColumn(i, p.domainSize, p.vecDim);
       r.value[i] == PointShare(c, p, DomainDepth(p.domainSize).value, party, i / p.vecDim, i % p.vecDim))
  {
    hide DPF.Eval, PathOf, CeilLog2, ReadDpf, Idx, DpfKeyLength;
    if |p.scalarKeys| != p.vecDim { return Err(SizeMismatch); }
    var dd := DomainDepth(p.domainSize);
    if dd.Err? { return Err(dd.error); }
    var depth, points: nat, dim: nat := dd.value, p.domainSize, p.vecDim;
    var out := new uint128[points * dim](_ => 0);
    var i := 0;
    while i < dim
      invariant 0 <= i <= dim
      invariant forall x, j :: 0 <= x < points && 0 <= j < i ==>
                  out[Idx(x, j, points, dim)] == PointShare(c, p, depth, party, x, j)
    {
      var tmp := new uint128[points](_ => 0);
      PointColumn(c, p.scalarKeys[i], depth, party, tmp);
      WriteColumn(out, tmp, i, points, dim);
      i := i + 1;
    }
    forall i | 0 <= i < out.Length
      ensures (RowAndColumn(i, points, dim); out[i] == PointShare(c, p, depth, party, i / dim, i % dim))
    {
      RowAndColumn(i, points, dim);
    }
    return Ok(out[..]);
  }

  // One coordinate over the whole domain; the buffer starts at zero.
  method PointColumn(c: Cipher, key: seq<byte>, depth: nat, party: bool, tmp: array<uint128>)
    requires |key| >= DpfKeyLength(depth) && tmp.Length == Pow2(depth)
    requires forall x :: 0 <= x < tmp.Length ==> tmp[x] == 0
    modifies tmp
    ensures forall x :: 0 <= x < tmp.Length ==> tmp[x] == DpfValue(c, key, depth, party, x)
  {
    hide DPF.Eval, PathOf, ReadDpf;
    var sk := new SvKey(false, party);
    sk.DpfDeserialize(depth, key);
    ghost var before := tmp[..];
    sk.DpfEvalContig(tmp, 0, c, depth, 0, tmp.Length - 1, false, depth);
    assert depth == 0 ==> tmp[..][0] == before[0];
  }

  method CompareColumn(c: Cipher, key: seq<byte>, depth: nat, party: bool, tmp: array<uint128>)
    requires |key| >= DcfKeyLength(depth) && tmp.Length == Pow2(depth)
    requires forall x :: 0 <= x < tmp.Length ==> tmp[x] == 0
    modifies tmp
    ensures forall x :: 0 <= x < tmp.Length ==> tmp[x] == DcfValue(c, key, depth, party, x)
  {
    hide DCF.Eval, PathOf, ReadDcf;
    var sk := new SvKey(false, party);
    sk.DcfDeserialize(depth, key);
    ghost var before := tmp[..];
    sk.DcfEvalContig(tmp, 0, c, depth, 0, tmp.Length - 1, false, depth);
    assert depth == 0 ==> tmp[..][0] == before[0];
  }

  // A pack the evaluator can read: its keys are long enough for the domain they are used on.
  ghost predicate CompareReadable(p: VdcfPack)
  {
    p.mode != 1 && DomainDepth(p.domainSize).Ok? ==> DcfKeysReadable(p.scalarKeys, DomainDepth(p.domainSize).value)
  }

  // When an evaluation gives a value: matching sizes and, for keyed packs, a power-of-two domain.
  predicate CompareUsable(p: VdcfPack)
  {
    if p.mode == 1 then |p.constValues| == p.vecDim
    else |p.scalarKeys| == p.vecDim && DomainDepth(p.domainSize).Ok?
  }

  function CompareDepth(p: VdcfPack): nat
  {
    if DomainDepth(p.domainSize).Ok? then DomainDepth(p.domainSize).value else 0
  }

  /** Evaluates one side's comparison pack on the whole domain. */
  method EvalAllFlatVdcf(c: Cipher, p: VdcfPack, party: bool) returns (r: Result<seq<uint128>, FssError>)
    requires CompareReadable(p)
    ensures r.Ok? <==> CompareUsable(p)
    ensures r.Ok? ==>
      && |r.value| == p.domainSize * p.vecDim
      && forall x, j :: 0 <= x < p.domainSize && 0 <= j < p.vecDim ==>
           r.value[Idx(x, j, p.domainSize, p.vecDim)] == CompareShare(c, p, CompareDepth(p), party, x, j)
    ensures r.Ok? ==> forall i :: 0 <= i < |r.value| ==>
      (RowAndColumn(i, p.domainSize, p.vecDim);
       r.value[i] == CompareShare(c, p, CompareDepth(p), party, i / p.vecDim, i % p.vecDim))
  {
    hide DCF.Eval, PathOf, CeilLog2, ReadDcf, Idx, DcfKeyLength;
    var points: nat, dim: nat := p.domainSize, p.vecDim;
    var out := new uint128[points * dim](_ => 0);
    if p.mode == 1 {
      if |p.constValues| != dim { return Err(SizeMismatch); }
      FillRows(out, p.constValues, points, dim);
      CompareCells(c, p, party, out[..]);
      return Ok(out[..]);
    }
    if |p.scalarKeys| != dim { return Err(SizeMismatch); }
    var dd := DomainDepth(p.domainSize);
    if dd.Err? { return Err(dd.error); }
    FillColumns(c, p.scalarKeys, dd.value, party, out, dim);
    CompareCells(c, p, party, out[..]);
    return Ok(out[..]);
  }

  lemma CompareCells(c: Cipher, p: VdcfPack, party: bool, v: seq<uint128>)
    requires CompareReadable(p) && CompareUsable(p) && |v| == p.domainSize * p.vecDim
    requires forall x, j :: 0 <= x < p.domainSize && 0 <= j < p.vecDim ==>
               v[Idx(x, j, p.domainSize, p.vecDim)] == CompareShare(c, p, CompareDepth(p), party, x, j)
    ensures forall i :: 0 <= i < |v| ==>
              (RowAndColumn(i, p.domainSize, p.vecDim);
               v[i] == CompareShare(c, p, CompareDepth(p), party, i / p.vecDim, i % p.vecDim))
  {
    hide CompareShare, Idx, CeilLog2;
    forall i | 0 <= i < |v|
      ensures (RowAndColumn(i, p.domainSize, p.vecDim);
               v[i] == CompareShare(c, p, CompareDepth(p), party, i / p.vecDim, i % p.vecDim))
    {
      RowAndColumn(i, p.domainSize, p.vecDim);
    }
  }

  // Every row a copy of the constant shares.
  method FillRows(out: array<uint128>, values: seq<uint128>, points: nat, dim: nat)
    requires |values| == dim && out.Length == points * dim
    modifies out
    ensures forall x, j :: 0 <= x < points && 0 <= j < dim ==> out[Idx(x, j, points, dim)] == values[j]
  {
    hide Idx;
    var x := 0;
    while x < points
      invariant 0 <= x <= points
      invariant forall y, k :: 0 <= y < x && 0 <= k < dim ==> out[Idx(y, k, points, dim)] == values[k]
    {
      var j := 0;
      while j < dim
        invariant 0 <= j <= dim
        invariant forall y, k :: 0 <= y < points && 0 <= k < dim && (y < x || (y == x && k < j)) ==>
                    out[Idx(y, k, points, dim)] == values[k]
      {
        forall y: nat, k: nat | y < points && k < dim && Idx(y, k, points, dim) == Idx(x, j, points, dim)
          ensures y == x && k == j
        {
          IdxInjective(y, k, x, j, points, dim);
        }
        out[Idx(x, j, points, dim)] := values[j];
        j := j + 1;
      }
      x := x + 1;
    }
  }

  method FillColumns(c: Cipher, keys: seq<seq<byte>>, depth: nat, party: bool, out: array<uint128>, dim: nat)
    requires DcfKeysReadable(keys, depth) && |keys| == dim && out.Length == Pow2(depth) * dim
    modifies out
    ensures forall x, j :: 0 <= x < Pow2(depth) && 0 <= j < dim ==>
              out[Idx(x, j, Pow2(depth), dim)] == DcfValue(c, keys[j], depth, party, x)
  {
    hide DcfValue, Idx, DcfKeyLength;
    var points := Pow2(depth);
    var i := 0;
    while i < dim
      invariant 0 <= i <= dim
      invariant forall x, j :: 0 <= x < points && 0 <= j < i ==>
                  out[Idx(x, j, points, dim)] == DcfValue(c, keys[j], depth, party, x)
    {
      var tmp := new uint128[points](_ => 0);
      CompareColumn(c, keys[i], depth, party, tmp);
      WriteColumn(out, tmp, i, points, dim);
      i := i + 1;
    }
  }

  // ----- single points -----

  /** Evaluates a point pack at one point: the values the flat evaluation has there. */
  method EvalPointVdpf(c: Cipher, p: VdpfPack, x: uint32, party: bool) returns (r: Result<seq<uint128>, FssError>)
    requires DomainDepth(p.domainSize).Ok? ==> DpfKeysReadable(p.scalarKeys, DomainDepth(p.domainSize).value)
    ensures r.Ok? <==> x < p.domainSize && |p.scalarKeys| == p.vecDim && DomainDepth(p.domainSize).Ok?
    ensures x >= p.domainSize ==> r == Err(PointOutOfRange)
    ensures r.Ok? ==>
      && |r.value| == p.vecDim
      && forall j :: 0 <= j < p.vecDim ==> r.value[j] == PointShare(c, p, DomainDepth(p.domainSize).value, party, x, j)
  {
    hide DPF.Eval, PathOf, CeilLog2, ReadDpf, DpfKeyLength;
    if x >= p.domainSize { return Err(PointOutOfRange); }
    if |p.scalarKeys| != p.vecDim { return Err(SizeMismatch); }
    var dd := DomainDepth(p.domainSize);
    if dd.Err? { return Err(dd.error); }
    var depth := dd.value;
    var out: seq<uint128> := [];
    var i := 0;
    while i < p.vecDim
      invariant 0 <= i <= p.vecDim && |out| == i
      invariant forall j :: 0 <= j < i ==> out[j] == PointShare(c, p, depth, party, x, j)
    {
      var v := PointAt(c, p.scalarKeys[i], depth, party, x);
      out := out + [v];
      i := i + 1;
    }
    return Ok(out);
  }

  method PointAt(c: Cipher, key: seq<byte>, depth: nat, party: bool, x: nat) returns (v: uint128)
    requires |key| >= DpfKeyLength(depth) && x < Pow2(depth)
    ensures v == DpfValue(c, key, depth, party, x)
  {
    hide DPF.Eval, PathOf, ReadDpf;
    var sk := new SvKey(false, party);
    sk.DpfDeserialize(depth, key);
    var pointVal := new uint128[1](_ => 0);
    ghost var before := pointVal[..];
    sk.DpfEvalContig(pointVal, 0, c, depth, x, x, false, 0);
    assert depth == 0 ==> pointVal[..][0] == before[0];
    v := pointVal[0];
  }

  /** Evaluates a comparison pack at one point. */
  method EvalPointVdcf(c: Cipher, p: VdcfPack, x: uint32, party: bool) returns (r: Result<seq<uint128>, FssError>)
    requires CompareReadable(p)
    ensures r.Ok? <==> x < p.domainSize && CompareUsable(p)
    ensures x >= p.domainSize ==> r == Err(PointOutOfRange)
    ensures r.Ok? ==>
      && |r.value| == p.vecDim
      && forall j :: 0 <= j < p.vecDim ==> r.value[j] == CompareShare(c, p, CompareDepth(p), party, x, j)
  {
    hide DCF.Eval, PathOf, CeilLog2, ReadDcf, DcfKeyLength;
    if x >= p.domainSize { return Err(PointOutOfRange); }
    if p.mode == 1 {
      if |p.constValues| != p.vecDim { return Err(SizeMismatch); }
      return Ok(p.constValues);
    }
    if |p.scalarKeys| != p.vecDim { return Err(SizeMismatch); }
    var dd := DomainDepth(p.domainSize);
    if dd.Err? { return Err(dd.error); }
    var out: seq<uint128> := [];
    var i := 0;
    while i < p.vecDim
      invariant 0 <= i <= p.vecDim && |out| == i
      invariant forall j :: 0 <= j < i ==> out[j] == CompareShare(c, p, CompareDepth(p), party, x, j)
    {
      var v := CompareAt(c, p.scalarKeys[i], dd.value, party, x);
      out := out + [v];
      i := i + 1;
    }
    return Ok(out);
  }

  method CompareAt(c: Cipher, key: seq<byte>, depth: nat, party: bool, x: nat) returns (v: uint128)
    requires |key| >= DcfKeyLength(depth) && x < Pow2(depth)
    ensures v == DcfValue(c, key, depth, party, x)
  {
    hide DCF.Eval, PathOf, ReadDcf;
    var sk := new SvKey(false, party);
    sk.DcfDeserialize(depth, key);
    var pointVal := new uint128[1](_ => 0);
    ghost var before := pointVal[..];
    sk.DcfEvalContig(pointVal, 0, c, depth, x, x, false, 0);
    assert depth == 0 ==> pointVal[..][0] == before[0];
    v := pointVal[0];
  }
}
