/** Leaves of block x offset queries carried by function secret sharing keys: what a key pack evaluates
    to, how the three key pairs are placed, and how the server's regrouping meets the client's order. */
module BofssLeaves {
  import opened Arith
  import opened Bits
  import opened Blocks
  import opened Bytes
  import opened SeedTree
  import opened Rss
  import opened Results
  import opened Compile
  import opened Filters
  import opened VectorFss
  import opened VectorFssOps
  import opened Regroup
  import opened QS = QueryServer
  import opened TableShares
  import KP = KeyPacks

  datatype EvalError = BadPack | ShapeMismatch | NotEvaluable

  // ----- what one serialized pack evaluates to -----

  // The inner keys of a pack are as long as its domain needs; the evaluator copies them unchecked.
  ghost predicate Readable(useVdcf: bool, key: seq<byte>)
  {
    if useVdcf then
      var r := KP.DeserializeVdcf(key);
      r.Ok? ==> CompareReadable(r.value)
    else
      var r := KP.DeserializeVdpf(key);
      r.Ok? && DomainDepth(r.value.domainSize).Ok? ==>
        DpfKeysReadable(r.value.scalarKeys, DomainDepth(r.value.domainSize).value)
  }

  function CompareVector(c: Cipher, p: KP.VdcfPack, n: nat, party: bool): (v: Vec)
    requires CompareReadable(p) && CompareUsable(p) && p.vecDim == 1
    ensures |v| == n
  {
    seq<uint128>(n, x requires 0 <= x < n => CompareShare(c, p, CompareDepth(p), party, x, 0))
  }

  function PointVector(c: Cipher, p: KP.VdpfPack, n: nat, party: bool): (v: Vec)
    requires DomainDepth(p.domainSize).Ok? && DpfKeysReadable(p.scalarKeys, DomainDepth(p.domainSize).value)
    requires |p.scalarKeys| == p.vecDim == 1
    ensures |v| == n
  {
    seq<uint128>(n, x requires 0 <= x < n => PointShare(c, p, DomainDepth(p.domainSize).value, party, x, 0))
  }

  // A pack of one coordinate over n points, evaluated everywhere.
  ghost function KeyVector(c: Cipher, useVdcf: bool, key: seq<byte>, n: nat, party: bool): (r: Option<Vec>)
    requires Readable(useVdcf, key)
    ensures r.Some? ==> |r.value| == n
  {
    if useVdcf then
      var r := KP.DeserializeVdcf(key);
      if r.Ok? && r.value.domainSize == n && r.value.vecDim == 1 && CompareUsable(r.value)
      then Some(CompareVector(c, r.value, n, party)) else None
    else
      var r := KP.DeserializeVdpf(key);
      if r.Ok? && r.value.domainSize == n && r.value.vecDim == 1 && |r.value.scalarKeys| == 1 && DomainDepth(n).Ok?
      then Some(PointVector(c, r.value, n, party)) else None
  }

  lemma SingleColumn(x: nat, n: nat)
    requires x < n
    ensures Idx(x, 0, n, 1) == x
  {
  }

  method EvalKey(c: Cipher, useVdcf: bool, key: seq<byte>, n: nat, party: bool) returns (r: Result<Vec, EvalError>)
    requires Readable(useVdcf, key)
    ensures r.Ok? <==> KeyVector(c, useVdcf, key, n, party).Some?
    ensures r.Ok? ==> r.value == KeyVector(c, useVdcf, key, n, party).value && |r.value| == n
    ensures useVdcf ==>
      var q := KP.DeserializeVdcf(key);
      && (r.Ok? <==>
            && q.Ok? && q.value.domainSize == n && q.value.vecDim == 1
            && if q.value.mode == 1 then |q.value.constValues| == 1 else |q.value.scalarKeys| == 1 && IsPow2(n))
      && (r.Ok? ==>
            forall x :: 0 <= x < n ==> r.value[x] == CompareShare(c, q.value, CompareDepth(q.value), party, x, 0))
    ensures !useVdcf ==>
      var q := KP.DeserializeVdpf(key);
      && (r.Ok? <==>
            q.Ok? && q.value.domainSize == n && q.value.vecDim == 1 && |q.value.scalarKeys| == 1 && IsPow2(n))
      && (r.Ok? ==>
            forall x :: 0 <= x < n ==> r.value[x] == PointShare(c, q.value, DomainDepth(n).value, party, x, 0))
  {
    DomainIsPower(n);
    hide PointShare, CompareShare, KP.DeserializeVdcf, KP.DeserializeVdpf, DomainDepth, Idx;
    forall x: nat | x < n ensures Idx(x, 0, n, 1) == x { SingleColumn(x, n); }
    if useVdcf {
      var pack := KP.ParseVdcf(key);
      if pack.Err? { return Err(BadPack); }
      if pack.value.domainSize != n || pack.value.vecDim != 1 { return Err(ShapeMismatch); }
      var flat := EvalAllFlatVdcf(c, pack.value, party);
      if flat.Err? { return Err(NotEvaluable); }
      assert flat.value == CompareVector(c, pack.value, n, party) by {
        forall x | 0 <= x < n ensures flat.value[x] == CompareVector(c, pack.value, n, party)[x] {
          assert flat.value[Idx(x, 0, n, 1)] == CompareShare(c, pack.value, CompareDepth(pack.value), party, x, 0);
        }
      }
      return Ok(flat.value);
    }
    var pack := KP.ParseVdpf(key);
    if pack.Err? { return Err(BadPack); }
    if pack.value.domainSize != n || pack.value.vecDim != 1 { return Err(ShapeMismatch); }
    var flat := EvalAllFlatVdpf(c, pack.value, party);
    if flat.Err? { return Err(NotEvaluable); }
    assert flat.value == PointVector(c, pack.value, n, party) by {
      forall x | 0 <= x < n ensures flat.value[x] == PointVector(c, pack.value, n, party)[x] {
        assert flat.value[Idx(x, 0, n, 1)] == PointShare(c, pack.value, DomainDepth(pack.value.domainSize).value, party,
                                                         x, 0);
      }
    }
    return Ok(flat.value);
  }

  // ----- pairs of keys and their placement -----

  // Two keys, evaluated as party 0 and as party 1, that open to a mask.
  ghost predicate KeyPairFor(c: Cipher, useVdcf: bool, k0: seq<byte>, k1: seq<byte>, n: nat, mask: seq<int>)
  {
    && k0 != [] && k1 != [] && |mask| == n && Readable(useVdcf, k0) && Readable(useVdcf, k1)
    && var v0, v1 := KeyVector(c, useVdcf, k0, n, false), KeyVector(c, useVdcf, k1, n, true);
       v0.Some? && v1.Some? && forall x :: 0 <= x < n ==> Cong(v0.value[x] as int + v1.value[x], mask[x])
  }

  // The two keys one server is sent.
  datatype TwoKeys = TwoKeys(key0: seq<byte>, key1: seq<byte>)

  // One pair a share index: its first key beside the first copy of that share, its second key beside the
  // second copy.
  ghost predicate Placed(c: Cipher, useVdcf: bool, keys: Trio<TwoKeys>, n: nat, mask: seq<int>)
  {
    && KeyPairFor(c, useVdcf, keys.s0.key0, keys.s2.key1, n, mask)
    && KeyPairFor(c, useVdcf, keys.s1.key0, keys.s0.key1, n, mask)
    && KeyPairFor(c, useVdcf, keys.s2.key0, keys.s1.key1, n, mask)
  }

  // The vectors one server evaluates its two keys to.
  ghost predicate Evaluates(c: Cipher, useVdcf: bool, k: TwoKeys, n: nat)
  {
    && Readable(useVdcf, k.key0) && Readable(useVdcf, k.key1)
    && KeyVector(c, useVdcf, k.key0, n, false).Some? && KeyVector(c, useVdcf, k.key1, n, true).Some?
  }

  ghost function FirstVec(c: Cipher, useVdcf: bool, k: TwoKeys, n: nat): Vec
    requires Evaluates(c, useVdcf, k, n)
  {
    KeyVector(c, useVdcf, k.key0, n, false).value
  }

  ghost function SecondVec(c: Cipher, useVdcf: bool, k: TwoKeys, n: nat): Vec
    requires Evaluates(c, useVdcf, k, n)
  {
    KeyVector(c, useVdcf, k.key1, n, true).value
  }

  /** Placed keys evaluate to query material aligned with the table shares. */
  lemma PlacedIsMaterial(c: Cipher, useVdcf: bool, keys: Trio<TwoKeys>, n: nat, mask: seq<int>)
    requires Placed(c, useVdcf, keys, n, mask)
    ensures Evaluates(c, useVdcf, keys.s0, n) && Evaluates(c, useVdcf, keys.s1, n) && Evaluates(c, useVdcf, keys.s2, n)
    ensures Material(Trio(FirstVec(c, useVdcf, keys.s0, n), FirstVec(c, useVdcf, keys.s1, n),
                          FirstVec(c, useVdcf, keys.s2, n)),
                     Trio(SecondVec(c, useVdcf, keys.s0, n), SecondVec(c, useVdcf, keys.s1, n),
                          SecondVec(c, useVdcf, keys.s2, n)),
                     n, mask)
  {
    hide KeyVector, Readable, Cong;
  }

  // ----- the masks of primitives -----

  // What a primitive's key pair opens to one on: its predicate, but a point never on a domain of one point.
  predicate Opens(p: Prim, n: nat, x: nat) { PrimHolds(p, x) && (p.Point? ==> n >= 2) }

  function PrimMask(n: nat, p: Prim): (m: seq<int>)
    ensures |m| == n
  {
    seq<int>(n, x requires 0 <= x < n => if Opens(p, n, x) then 1 else 0)
  }

  lemma DepthBound(n: uint32, depth: nat)
    requires DomainDepth(n) == Ok(depth)
    ensures depth < 32
  {
    hide Pow2;
    Pow2Of32();
    if depth >= 32 { Pow2Mono(32, depth); }
  }

  lemma Pow2Of32()
    ensures Pow2(32) == 0x1_0000_0000
  {
    var k := 8;
    assert Pow2(k) == 0x100;
    Pow2Sum(8, 8, 0x100, 0x100);
    Pow2Sum(16, 16, 0x1_0000, 0x1_0000);
  }

  // Serialized point packs form a pair for their point.
  lemma PointPackPair(c: Cipher, seeds: Pair, n: uint32, target: uint32, depth: nat)
    requires DomainDepth(n) == Ok(depth) && target < n
    ensures KeyPairFor(c, false, KP.SerializeVdpf(PointPack(c, [seeds], n, target, depth, [1], false)),
                       KP.SerializeVdpf(PointPack(c, [seeds], n, target, depth, [1], true)), n,
                           PrimMask(n, Point(target)))
  {
    hide PointShare, PointKey, KP.DeserializeVdpf, KP.SerializeVdpf, KP.KeysSized;
    var p0, p1 := PointPack(c, [seeds], n, target, depth, [1], false),
        PointPack(c, [seeds], n, target, depth, [1], true);
    PointPackSurvives(c, seeds, n, target, depth, false);
    PointPackSurvives(c, seeds, n, target, depth, true);
    forall x | 0 <= x < n
      ensures Cong(PointShare(c, p0, depth, false, x, 0) as int + PointShare(c, p1, depth, true, x, 0),
                   PrimMask(n, Point(target))[x])
    {
      PointVectorCorrect(c, [seeds], n, target, [1], depth, x, 0);
      CongMod(PointShare(c, p0, depth, false, x, 0) as int + PointShare(c, p1, depth, true, x, 0),
              PrimMask(n, Point(target))[x]);
    }
  }

  lemma PointPackSurvives(c: Cipher, seeds: Pair, n: uint32, target: uint32, depth: nat, party: bool)
    requires DomainDepth(n) == Ok(depth)
    ensures
      var p := PointPack(c, [seeds], n, target, depth, [1], party);
      KP.DeserializeVdpf(KP.SerializeVdpf(p)) == Ok(p) && KP.SerializeVdpf(p) != []
  {
    hide PointKey, KP.DeserializeVdpf, CeilLog2;
    var p := PointPack(c, [seeds], n, target, depth, [1], party);
    DepthBound(n, depth);
    KP.VdpfRoundTrip(p);
  }

  lemma ComparePackSurvives(c: Cipher, seeds: Pair, r: uint64, n: uint32, plan: Plan, depth: nat, party: bool)
    requires DomainDepth(n) == Ok(depth)
    ensures
      var p := ComparePack(c, [seeds], [r], n, plan, depth, [1], party);
      KP.DeserializeVdcf(KP.SerializeVdcf(p)) == Ok(p) && KP.SerializeVdcf(p) != []
  {
    hide CompareKey, KP.DeserializeVdcf, CeilLog2;
    var p := ComparePack(c, [seeds], [r], n, plan, depth, [1], party);
    DepthBound(n, depth);
    KP.VdcfRoundTrip(p);
  }

  lemma ComparePackUsable(c: Cipher, seeds: Pair, r: uint64, n: uint32, plan: Plan, depth: nat, party: bool)
    requires DomainDepth(n) == Ok(depth)
    ensures
      var p := ComparePack(c, [seeds], [r], n, plan, depth, [1], party);
      p.domainSize == n && p.vecDim == 1 && CompareReadable(p) && CompareUsable(p) && CompareDepth(p) == depth
  {
    hide CompareKey;
  }

  lemma ComparePackOpens(c: Cipher, seeds: Pair, r: uint64, n: uint32, op: CompareOp, t: uint32, depth: nat, x: nat)
    requires DomainDepth(n) == Ok(depth) && x < n
    ensures
      var plan := MakePlan(n, op, t);
      var p0, p1 := ComparePack(c, [seeds], [r], n, plan, depth, [1], false),
          ComparePack(c, [seeds], [r], n, plan, depth, [1], true);
      && CompareReadable(p0) && CompareUsable(p0) && CompareReadable(p1) && CompareUsable(p1)
         && p0.vecDim == p1.vecDim == 1
      && Cong(CompareVector(c, p0, n, false)[x] as int + CompareVector(c, p1, n, true)[x],
              PrimMask(n, Compare(op, t))[x])
  {
    hide CompareKey, MakePlan, DcfValue, Cong;
    var plan := MakePlan(n, op, t);
    var p0, p1 := ComparePack(c, [seeds], [r], n, plan, depth, [1], false),
        ComparePack(c, [seeds], [r], n, plan, depth, [1], true);
    ComparePackUsable(c, seeds, r, n, plan, depth, false);
    ComparePackUsable(c, seeds, r, n, plan, depth, true);
    CompareVectorCorrect(c, [seeds], [r], n, op, t, [1], depth, x, 0);
    CongMod(CompareVector(c, p0, n, false)[x] as int + CompareVector(c, p1, n, true)[x],
            PrimMask(n, Compare(op, t))[x]);
  }

  // Serialized comparison packs form a pair for their comparison.
  lemma ComparePackPair(c: Cipher, seeds: Pair, r: uint64, n: uint32, op: CompareOp, t: uint32, depth: nat)
    requires DomainDepth(n) == Ok(depth)
    ensures
      var plan := MakePlan(n, op, t);
      KeyPairFor(c, true, KP.SerializeVdcf(ComparePack(c, [seeds], [r], n, plan, depth, [1], false)),
                 KP.SerializeVdcf(ComparePack(c, [seeds], [r], n, plan, depth, [1], true)), n,
                     PrimMask(n, Compare(op, t)))
  {
    hide CompareVector, KP.DeserializeVdcf, KP.SerializeVdcf, MakePlan, ComparePack, CompareReadable, CompareUsable,
      Cong;
    var plan := MakePlan(n, op, t);
    var p0, p1 := ComparePack(c, [seeds], [r], n, plan, depth, [1], false),
        ComparePack(c, [seeds], [r], n, plan, depth, [1], true);
    ComparePackSurvives(c, seeds, r, n, plan, depth, false);
    ComparePackSurvives(c, seeds, r, n, plan, depth, true);
    ComparePackUsable(c, seeds, r, n, plan, depth, false);
    ComparePackUsable(c, seeds, r, n, plan, depth, true);
    forall x | 0 <= x < n
      ensures Cong(CompareVector(c, p0, n, false)[x] as int + CompareVector(c, p1, n, true)[x],
                   PrimMask(n, Compare(op, t))[x])
    {
      ComparePackOpens(c, seeds, r, n, op, t, depth, x);
    }
  }

  // ----- messages -----

  function KeysOf(t: Trio<Primitive>): Trio<TwoKeys>
  {
    Trio(TwoKeys(t.s0.key0, t.s0.key1), TwoKeys(t.s1.key0, t.s1.key1), TwoKeys(t.s2.key0, t.s2.key1))
  }

  // The three copies of one primitive carry placed keys for a mask.
  ghost predicate PrimKeyed(c: Cipher, t: Trio<Primitive>, n: nat, mask: seq<int>)
  {
    t.s0.useVdcf == t.s1.useVdcf == t.s2.useVdcf && Placed(c, t.s0.useVdcf, KeysOf(t), n, mask)
  }

  ghost predicate LeafKeyed(c: Cipher, block: Trio<Primitive>, offset: Trio<Primitive>, l: Layout, m: LeafMask)
  {
    PrimKeyed(c, block, l.blockNum, m.block) && PrimKeyed(c, offset, l.blockSize, m.offset)
  }

  // One server's copy of a primitive, evaluated: its first key as party 0, its second as party 1.
  method EvalPrimitive(c: Cipher, it: Primitive, n: nat) returns (r: Result<(Vec, Vec), EvalError>)
    requires Readable(it.useVdcf, it.key0) && Readable(it.useVdcf, it.key1)
    ensures r.Ok? <==> Evaluates(c, it.useVdcf, TwoKeys(it.key0, it.key1), n)
    ensures r.Ok? ==>
      var k := TwoKeys(it.key0, it.key1);
      r.value == (FirstVec(c, it.useVdcf, k, n), SecondVec(c, it.useVdcf, k, n))
  {
    hide KeyVector, Readable;
    var v0 := EvalKey(c, it.useVdcf, it.key0, n, false);
    if v0.Err? { return Err(v0.error); }
    var v1 := EvalKey(c, it.useVdcf, it.key1, n, true);
    if v1.Err? { return Err(v1.error); }
    return Ok((v0.value, v1.value));
  }

  // Both halves of a leaf at one server.
  method EvalLeafKeys(c: Cipher, block: Primitive, offset: Primitive, l: Layout)
    returns (r: Result<QueryVecs, EvalError>)
    requires Readable(block.useVdcf, block.key0) && Readable(block.useVdcf, block.key1)
    requires Readable(offset.useVdcf, offset.key0) && Readable(offset.useVdcf, offset.key1)
    ensures r.Ok? <==>
      && Evaluates(c, block.useVdcf, TwoKeys(block.key0, block.key1), l.blockNum)
      && Evaluates(c, offset.useVdcf, TwoKeys(offset.key0, offset.key1), l.blockSize)
    ensures r.Ok? ==>
      var kb, ko := TwoKeys(block.key0, block.key1), TwoKeys(offset.key0, offset.key1);
      r.value == QueryVecs(FirstVec(c, block.useVdcf, kb, l.blockNum), SecondVec(c, block.useVdcf, kb, l.blockNum),
                           FirstVec(c, offset.useVdcf, ko, l.blockSize), SecondVec(c, offset.useVdcf, ko, l.blockSize))
  {
    hide Evaluates, FirstVec, SecondVec, Readable;
    var b := EvalPrimitive(c, block, l.blockNum);
    if b.Err? { return Err(b.error); }
    var o := EvalPrimitive(c, offset, l.blockSize);
    if o.Err? { return Err(o.error); }
    return Ok(QueryVecs(b.value.0, b.value.1, o.value.0, o.value.1));
  }

  // The same leaf at the three servers: query material for its mask.
  method EvalLeafEverywhere(c: Cipher, block: Trio<Primitive>, offset: Trio<Primitive>, l: Layout, ghost m: LeafMask)
    returns (q: Trio<QueryVecs>)
    requires LeafKeyed(c, block, offset, l, m)
    ensures LeafMaterial(q, l, m)
  {
    hide FirstVec, SecondVec, Readable, Placed, Material;
    PlacedIsMaterial(c, block.s0.useVdcf, KeysOf(block), l.blockNum, m.block);
    PlacedIsMaterial(c, offset.s0.useVdcf, KeysOf(offset), l.blockSize, m.offset);
    var q0 := EvalLeafKeys(c, block.s0, offset.s0, l);
    var q1 := EvalLeafKeys(c, block.s1, offset.s1, l);
    var q2 := EvalLeafKeys(c, block.s2, offset.s2, l);
    q := Trio(q0.value, q1.value, q2.value);
  }

  // ----- regrouping undoes emission -----

  // Leaves arrive as a block primitive followed by an offset primitive.
  ghost predicate Alternating(items: seq<Primitive>, tags: seq<nat>)
  {
    && |items| == 2 * |tags|
    && forall k :: 0 <= k < |tags| ==>
         && items[2 * k].pred == items[2 * k + 1].pred == tags[k]
         && items[2 * k].domainType == BlockDomain && items[2 * k + 1].domainType == OffsetDomain
  }

  function EveryOther(items: seq<Primitive>, ps: seq<nat>, second: bool): (r: seq<Primitive>)
    requires forall k :: 0 <= k < |ps| ==> 2 * ps[k] + 1 < |items|
    ensures |r| == |ps|
  {
    seq(|ps|, k requires 0 <= k < |ps| => items[2 * ps[k] + if second then 1 else 0])
  }

  lemma AlternatingPrefix(items: seq<Primitive>, tags: seq<nat>)
    requires Alternating(items, tags) && tags != []
    ensures
      var n := |tags| - 1;
      var init := items[..2 * n];
      && Alternating(init, tags[..n])
      && items == init + [items[2 * n]] + [items[2 * n + 1]]
      && items[2 * n].pred == items[2 * n + 1].pred == tags[n]
      && items[2 * n].domainType == BlockDomain && items[2 * n + 1].domainType == OffsetDomain
  {
  }

  // What two more primitives of one leaf add to a selection.
  lemma SelectTwo(init: seq<Primitive>, b: Primitive, o: Primitive, t: nat, p: nat)
    requires b.pred == o.pred == t && b.domainType == BlockDomain && o.domainType == OffsetDomain
    ensures Select(init + [b] + [o], p, BlockDomain) == Select(init, p, BlockDomain) + if t == p then [b] else []
    ensures Select(init + [b] + [o], p, OffsetDomain) == Select(init, p, OffsetDomain) + if t == p then [o] else []
    ensures PredCount(init + [b] + [o]) == if t >= PredCount(init) then t + 1 else PredCount(init)
  {
    hide Select, PredCount;
    SelectSnoc(init, b, p, BlockDomain);
    SelectSnoc(init + [b], o, p, BlockDomain);
    SelectSnoc(init, b, p, OffsetDomain);
    SelectSnoc(init + [b], o, p, OffsetDomain);
    PredCountSnoc(init, b);
    PredCountSnoc(init + [b], o);
  }

  // Two more primitives, taken along by the positions that name them.
  lemma EveryOtherSnoc(init: seq<Primitive>, b: Primitive, o: Primitive, ps: seq<nat>, n: nat)
    requires |init| == 2 * n && forall k :: 0 <= k < |ps| ==> ps[k] < n
    ensures EveryOther(init + [b] + [o], ps, false) == EveryOther(init, ps, false)
    ensures EveryOther(init + [b] + [o], ps, true) == EveryOther(init, ps, true)
    ensures EveryOther(init + [b] + [o], ps + [n], false) == EveryOther(init, ps, false) + [b]
    ensures EveryOther(init + [b] + [o], ps + [n], true) == EveryOther(init, ps, true) + [o]
  {
  }

  /** What the parser collects for a predicate is what was emitted for it: the k-th block and offset
      primitives are those of the predicate's k-th leaf. */
  lemma {:induction false} SelectOfAlternating(items: seq<Primitive>, tags: seq<nat>, p: nat)
    requires Alternating(items, tags)
    ensures Select(items, p, BlockDomain) == EveryOther(items, Positions(tags, p), false)
    ensures Select(items, p, OffsetDomain) == EveryOther(items, Positions(tags, p), true)
    ensures PredCount(items) == TagCount(tags)
  {
    hide Alternating, EveryOther, Select, PredCount;
    if tags == [] {
      NothingAlternates(items, p);
    } else {
      var n := |tags| - 1;
      AlternatingPrefix(items, tags);
      var init, b, o := items[..2 * n], items[2 * n], items[2 * n + 1];
      SelectOfAlternating(init, tags[..n], p);
      SelectTwo(init, b, o, tags[n], p);
      var ps := Positions(tags[..n], p);
      EveryOtherSnoc(init, b, o, ps, n);
      assert Positions(tags, p) == if tags[n] == p then ps + [n] else ps;
    }
  }

  lemma NothingAlternates(items: seq<Primitive>, p: nat)
    requires Alternating(items, [])
    ensures Select(items, p, BlockDomain) == EveryOther(items, [], false) == Select(items, p, OffsetDomain)
            == EveryOther(items, [], true) == []
    ensures PredCount(items) == 0
  {
  }

  // The k-th block primitive of a predicate, at the three servers.
  ghost predicate Counts(items: Trio<seq<Primitive>>, p: nat, d: DomainType, n: nat)
  {
    |Select(items.s0, p, d)| == |Select(items.s1, p, d)| == |Select(items.s2, p, d)| == n
  }

  function NthOf(items: Trio<seq<Primitive>>, p: nat, d: DomainType, k: nat): Trio<Primitive>
    requires k < |Select(items.s0, p, d)| && k < |Select(items.s1, p, d)| && k < |Select(items.s2, p, d)|
  {
    Trio(Select(items.s0, p, d)[k], Select(items.s1, p, d)[k], Select(items.s2, p, d)[k])
  }

  // The leaves of one predicate, as the parsers pair them, are keyed for their masks.
  ghost predicate PredKeyed(c: Cipher, items: Trio<seq<Primitive>>, l: Layout, p: nat, ms: seq<LeafMask>)
  {
    && ms != [] && AllFit(ms, l)
    && Counts(items, p, BlockDomain, |ms|) && Counts(items, p, OffsetDomain, |ms|)
    && forall k :: 0 <= k < |ms| ==>
         LeafKeyed(c, NthOf(items, p, BlockDomain, k), NthOf(items, p, OffsetDomain, k), l, ms[k])
  }

  lemma PredKeyedNonempty(c: Cipher, items: Trio<seq<Primitive>>, l: Layout, p: nat, ms: seq<LeafMask>)
    requires PredKeyed(c, items, l, p, ms)
    ensures ms != [] && AllFit(ms, l)
  {
  }

  // Whatever order the primitives arrive in, every predicate's leaves are keyed.
  ghost predicate AllKeyed(c: Cipher, items: Trio<seq<Primitive>>, l: Layout, groups: seq<seq<LeafMask>>)
  {
    && |groups| == PredCount(items.s0) == PredCount(items.s1) == PredCount(items.s2)
    && forall p :: 0 <= p < |groups| ==> PredKeyed(c, items, l, p, groups[p])
  }

  // In the client's order, leaf k is primitives 2k and 2k + 1 of every message.
  ghost predicate FssMaterial(c: Cipher, items: Trio<seq<Primitive>>, l: Layout, tags: seq<nat>, masks: seq<LeafMask>)
  {
    && |masks| == |tags|
    && Alternating(items.s0, tags) && Alternating(items.s1, tags) && Alternating(items.s2, tags)
    && forall k :: 0 <= k < |tags| ==>
         MaskFits(masks[k], l) && LeafKeyed(c, PrimAt(items, 2 * k), PrimAt(items, 2 * k + 1), l, masks[k])
  }

  function PrimAt(items: Trio<seq<Primitive>>, i: nat): Trio<Primitive>
    requires i < |items.s0| && i < |items.s1| && i < |items.s2|
  {
    Trio(items.s0[i], items.s1[i], items.s2[i])
  }

  /** The client's order, regrouped by the three parsers, keys every predicate's leaves. */
  lemma EmittedIsKeyed(c: Cipher, items: Trio<seq<Primitive>>, l: Layout, tags: seq<nat>, masks: seq<LeafMask>)
    requires FssMaterial(c, items, l, tags, masks) && Contiguous(tags)
    ensures AllKeyed(c, items, l, MasksByPred(masks, tags))
  {
    hide LeafKeyed, Alternating, Select, Positions, PredCount, TagCount;
    SelectOfAlternating(items.s0, tags, 0);
    SelectOfAlternating(items.s1, tags, 0);
    SelectOfAlternating(items.s2, tags, 0);
    var groups := MasksByPred(masks, tags);
    forall p | 0 <= p < |groups| ensures PredKeyed(c, items, l, p, groups[p]) {
      SelectOfAlternating(items.s0, tags, p);
      SelectOfAlternating(items.s1, tags, p);
      SelectOfAlternating(items.s2, tags, p);
    }
  }
}
