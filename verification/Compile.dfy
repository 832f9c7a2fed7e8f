/** Query compilation (client.cpp): points and ranges over buckets become block x offset leaves. */
module Compile {
  import opened Bits
  import opened VectorFss

  // numBuckets == blockNum * blockSize, both nonzero.
  datatype Layout = Layout(blockNum: nat, blockSize: nat)

  ghost predicate ValidLayout(l: Layout) { l.blockNum > 0 && l.blockSize > 0 }

  function Buckets(l: Layout): nat { l.blockNum * l.blockSize }

  // A leaf before sharing: the blocks blockLo..blockHi crossed with the offsets offLo..offHi.
  datatype Box = Box(blockLo: nat, blockHi: nat, offLo: nat, offHi: nat)

  predicate Covers(b: Box, block: nat, off: nat)
  {
    b.blockLo <= block <= b.blockHi && b.offLo <= off <= b.offHi
  }

  predicate InBounds(b: Box, l: Layout)
  {
    b.blockLo <= b.blockHi < l.blockNum && b.offLo <= b.offHi < l.blockSize
  }

  function BlockOf(l: Layout, x: nat): nat
    requires ValidLayout(l)
  {
    x / l.blockSize
  }

  function OffsetOf(l: Layout, x: nat): nat
    requires ValidLayout(l)
  {
    x % l.blockSize
  }

  lemma BucketFits(l: Layout, x: nat)
    requires ValidLayout(l) && x < Buckets(l)
    ensures BlockOf(l, x) < l.blockNum && OffsetOf(l, x) < l.blockSize
  {
    var s, q := l.blockSize, x / l.blockSize;
    assert x == s * q + x % s;
    if q >= l.blockNum {
      assert s * q == s * l.blockNum + s * (q - l.blockNum);
    }
  }

  // Buckets are ordered by block, then by offset.
  lemma BucketOrder(l: Layout, x: nat, y: nat)
    requires ValidLayout(l)
    ensures x <= y <==> BlockOf(l, x) < BlockOf(l, y) || (BlockOf(l, x) == BlockOf(l, y)
                                                          && OffsetOf(l, x) <= OffsetOf(l, y))
  {
    var s := l.blockSize;
    var a, b, c, d := x / s, x % s, y / s, y % s;
    assert x == s * a + b && y == s * c + d;
    if a < c { MulGap(s, a, c); }
    if c < a { MulGap(s, c, a); }
  }

  // The last bucket is the last offset of the last block.
  lemma LastBucket(l: Layout)
    requires ValidLayout(l)
    ensures Buckets(l) > 0 && BlockOf(l, Buckets(l) - 1) == l.blockNum - 1
            && OffsetOf(l, Buckets(l) - 1) == l.blockSize - 1
  {
    var s, n := l.blockSize, l.blockNum;
    assert n * s == s * (n - 1) + s;
    DivUnique(n * s - 1, s, n - 1, s - 1);
  }

  lemma FirstBucket(l: Layout)
    requires ValidLayout(l)
    ensures BlockOf(l, 0) == 0 && OffsetOf(l, 0) == 0
  {
  }

  // ----- materialized leaves (GenerateCombinedBOFilter) -----

  function PointBox(l: Layout, x: nat): Box
    requires ValidLayout(l)
  {
    Box(BlockOf(l, x), BlockOf(l, x), OffsetOf(l, x), OffsetOf(l, x))
  }

  // The leaves of one interval, in the order they are emitted.
  function RangeBoxes(l: Layout, left: nat, right: nat): seq<Box>
    requires ValidLayout(l) && left <= right < Buckets(l)
  {
    var last := Buckets(l) - 1;
    var bL, oL, bR, oR := BlockOf(l, left), OffsetOf(l, left), BlockOf(l, right), OffsetOf(l, right);
    var top := l.blockSize - 1;
    if left == 0 && right < last then
      (if bR > 0 then [Box(0, bR - 1, 0, top)] else []) + [Box(bR, bR, 0, oR)]
    else if right == last && left > 0 then
      (if bL + 1 < l.blockNum then [Box(bL + 1, l.blockNum - 1, 0, top)] else []) + [Box(bL, bL, oL, top)]
    else if bL == bR then [Box(bL, bL, oL, oR)]
    else
      var midL := bL + (if oL > 0 then 1 else 0);
      var midR := bR - (if oR + 1 < l.blockSize then 1 else 0);
      (if oL > 0 then [Box(bL, bL, oL, top)] else [])
      + (if oR + 1 < l.blockSize then [Box(bR, bR, 0, oR)] else [])
      + (if midL <= midR then [Box(midL, midR, 0, top)] else [])
  }

  ghost predicate Disjoint(boxes: seq<Box>)
  {
    forall i, j, block, off :: 0 <= i < j < |boxes| && Covers(boxes[i], block, off) ==> !Covers(boxes[j], block, off)
  }

  ghost predicate Union(boxes: seq<Box>, block: nat, off: nat)
  {
    exists i :: 0 <= i < |boxes| && Covers(boxes[i], block, off)
  }

  // What compiling one interval must achieve.
  ghost predicate Exact(l: Layout, boxes: seq<Box>, left: nat, right: nat)
    requires ValidLayout(l)
  {
    && (forall i :: 0 <= i < |boxes| ==> InBounds(boxes[i], l))
    && Disjoint(boxes)
    && (forall x :: 0 <= x < Buckets(l) ==> (Union(boxes, BlockOf(l, x), OffsetOf(l, x)) <==> left <= x <= right))
  }

  // Order comparisons against the two ends, spelled on blocks and offsets.
  lemma RangeByBlocks(l: Layout, left: nat, right: nat, x: nat)
    requires ValidLayout(l) && left <= right < Buckets(l) && x < Buckets(l)
    ensures
      var b, o := BlockOf(l, x), OffsetOf(l, x);
      var bL, oL, bR, oR := BlockOf(l, left), OffsetOf(l, left), BlockOf(l, right), OffsetOf(l, right);
      && b < l.blockNum && o < l.blockSize && bL < l.blockNum && oL < l.blockSize && bR < l.blockNum && oR < l.blockSize
      && (bL < bR || (bL == bR && oL <= oR))
      && (left <= x <==> bL < b || (bL == b && oL <= o))
      && (x <= right <==> b < bR || (b == bR && o <= oR))
      && (left == 0 ==> bL == 0 && oL == 0)
      && (right == Buckets(l) - 1 ==> bR == l.blockNum - 1 && oR == l.blockSize - 1)
  {
    hide BlockOf, OffsetOf, Buckets;
    BucketFits(l, x);
    BucketFits(l, left);
    BucketFits(l, right);
    BucketOrder(l, left, x);
    BucketOrder(l, x, right);
    BucketOrder(l, left, right);
    FirstBucket(l);
    LastBucket(l);
  }

  /** Interval compilation preserves meaning: for every layout and every interval, in every branch, the
      leaves are in bounds, pairwise disjoint, between one and three, and cover exactly the interval. */
  lemma RangeExact(l: Layout, left: nat, right: nat)
    requires ValidLayout(l) && left <= right < Buckets(l)
    ensures 1 <= |RangeBoxes(l, left, right)| <= 3
    ensures Exact(l, RangeBoxes(l, left, right), left, right)
  {
    hide BlockOf, OffsetOf, Buckets, Union, RangeBoxes, Disjoint;
    var boxes := RangeBoxes(l, left, right);
    RangeLeaves(l, left, right);
    forall x | 0 <= x < Buckets(l)
      ensures Union(boxes, BlockOf(l, x), OffsetOf(l, x)) <==> left <= x <= right
    {
      RangeByBlocks(l, left, right, x);
      RangeUnion(l, left, right, BlockOf(l, x), OffsetOf(l, x));
    }
  }

  lemma RangeLeaves(l: Layout, left: nat, right: nat)
    requires ValidLayout(l) && left <= right < Buckets(l)
    ensures
      var boxes := RangeBoxes(l, left, right);
      1 <= |boxes| <= 3 && Disjoint(boxes) && forall i :: 0 <= i < |boxes| ==> InBounds(boxes[i], l)
  {
    hide BlockOf, OffsetOf, Buckets;
    RangeByBlocks(l, left, right, left);
  }

  lemma RangeUnion(l: Layout, left: nat, right: nat, block: nat, off: nat)
    requires ValidLayout(l) && left <= right < Buckets(l)
    requires block < l.blockNum && off < l.blockSize
    ensures
      var bL, oL, bR, oR := BlockOf(l, left), OffsetOf(l, left), BlockOf(l, right), OffsetOf(l, right);
      Union(RangeBoxes(l, left, right), block, off)
      <==> (bL < block || (bL == block && oL <= off)) && (block < bR || (block == bR && off <= oR))
  {
    hide BlockOf, OffsetOf, Buckets;
    var boxes := RangeBoxes(l, left, right);
    RangeByBlocks(l, left, right, left);
    UnionOfFew(boxes, block, off);
  }

  // A union of at most three leaves, spelled out.
  lemma UnionOfFew(boxes: seq<Box>, block: nat, off: nat)
    requires |boxes| <= 3
    ensures Union(boxes, block, off) <==>
      || (|boxes| > 0 && Covers(boxes[0], block, off))
      || (|boxes| > 1 && Covers(boxes[1], block, off))
      || (|boxes| > 2 && Covers(boxes[2], block, off))
  {
    hide Covers;
  }

  lemma PointExact(l: Layout, x: nat)
    requires ValidLayout(l) && x < Buckets(l)
    ensures Exact(l, [PointBox(l, x)], x, x)
  {
    hide BlockOf, OffsetOf, Buckets;
    var boxes := [PointBox(l, x)];
    BucketFits(l, x);
    forall y | 0 <= y < Buckets(l) ensures Union(boxes, BlockOf(l, y), OffsetOf(l, y)) <==> x <= y <= x {
      UnionOfFew(boxes, BlockOf(l, y), OffsetOf(l, y));
      BucketOrder(l, x, y);
      BucketOrder(l, y, x);
    }
  }

  // ----- leaves of function secret sharing primitives (GenerateCombinedBOFSSFilter) -----

  datatype Prim = Point(x: nat) | Compare(op: CompareOp, t: nat)

  predicate PrimHolds(p: Prim, v: nat)
  {
    match p
    case Point(x) => v == x
    case Compare(op, t) => Holds(op, v, t)
  }

  datatype PrimLeaf = PrimLeaf(block: Prim, offset: Prim)

  predicate LeafHolds(f: PrimLeaf, block: nat, off: nat)
  {
    PrimHolds(f.block, block) && PrimHolds(f.offset, off)
  }

  predicate SingleSided(l: Layout, left: nat, right: nat) { left == 0 || right == Buckets(l) - 1 }

  // Two leaves an interval: the full blocks, then the boundary block.
  function FssLeaves(l: Layout, left: nat, right: nat): seq<PrimLeaf>
    requires ValidLayout(l) && SingleSided(l, left, right)
  {
    if left == 0 then
      [PrimLeaf(Compare(LT, BlockOf(l, right)), Compare(GE, 0)),
       PrimLeaf(Point(BlockOf(l, right)), Compare(LE, OffsetOf(l, right)))]
    else
      [PrimLeaf(Compare(GT, BlockOf(l, left)), Compare(GE, 0)),
       PrimLeaf(Point(BlockOf(l, left)), Compare(GE, OffsetOf(l, left)))]
  }

  /** The two leaves of a single-sided interval never hold together, and one of them holds exactly on
      the interval. */
  lemma FssExact(l: Layout, left: nat, right: nat, x: nat)
    requires ValidLayout(l) && SingleSided(l, left, right) && left <= right < Buckets(l) && x < Buckets(l)
    ensures
      var f, b, o := FssLeaves(l, left, right), BlockOf(l, x), OffsetOf(l, x);
      && !(LeafHolds(f[0], b, o) && LeafHolds(f[1], b, o))
      && (LeafHolds(f[0], b, o) || LeafHolds(f[1], b, o) <==> left <= x <= right)
  {
    hide BlockOf, OffsetOf, Buckets;
    RangeByBlocks(l, left, right, x);
  }

  // ----- the other two encodings of a single-sided interval -----

  // The bucket mask of VBAggQuery.
  function VbMask(l: Layout, left: nat, right: nat, x: nat): nat
    requires SingleSided(l, left, right)
  {
    if left == 0 then (if x <= right then 1 else 0) else (if left <= x then 1 else 0)
  }

  // The sum of the two vector leaves of GenerateCombinedVBFSSFilter: ones on the full blocks, a partial
  // payload on the boundary block.
  function VbFssSum(l: Layout, left: nat, right: nat, block: nat, off: nat): nat
    requires ValidLayout(l) && SingleSided(l, left, right)
  {
    if left == 0 then
      var b, o := BlockOf(l, right), OffsetOf(l, right);
      (if Holds(LT, block, b) then 1 else 0) + (if block == b && off <= o then 1 else 0)
    else
      var b, o := BlockOf(l, left), OffsetOf(l, left);
      (if Holds(GT, block, b) then 1 else 0) + (if block == b && off >= o then 1 else 0)
  }

  /** All four encodings of a single-sided interval denote the same indicator of the bucket. */
  lemma EncodingsAgree(l: Layout, left: nat, right: nat, x: nat)
    requires ValidLayout(l) && SingleSided(l, left, right) && left <= right < Buckets(l) && x < Buckets(l)
    ensures
      var b, o, f := BlockOf(l, x), OffsetOf(l, x), FssLeaves(l, left, right);
      && (VbMask(l, left, right, x) == 1 <==> left <= x <= right)
      && VbMask(l, left, right, x) <= 1
      && VbFssSum(l, left, right, b, o) == VbMask(l, left, right, x)
      && (Union(RangeBoxes(l, left, right), b, o) <==> left <= x <= right)
      && (LeafHolds(f[0], b, o) || LeafHolds(f[1], b, o) <==> left <= x <= right)
  {
    hide BlockOf, OffsetOf, Buckets, RangeBoxes, Union;
    RangeByBlocks(l, left, right, x);
    RangeExact(l, left, right);
    FssExact(l, left, right, x);
  }

  // ----- folding the leaves of a predicate -----

  // AND or OR over a list of values, from the first on: a * b, or what OrFilters computes.
  function Fold(isAnd: bool, vs: seq<int>): int
    requires |vs| > 0
  {
    if |vs| == 1 then vs[0]
    else
      var a, b := Fold(isAnd, vs[..|vs| - 1]), vs[|vs| - 1];
      if isAnd then a * b else a + b + a * b
  }

  function ProductPlusOne(vs: seq<int>): int
  {
    if vs == [] then 1 else ProductPlusOne(vs[..|vs| - 1]) * (1 + vs[|vs| - 1])
  }

  /** The fold is the product of the values plus one, minus one -- not a union in general. */
  lemma {:induction false} OrFoldIsProduct(vs: seq<int>)
    requires |vs| > 0
    ensures Fold(false, vs) == ProductPlusOne(vs) - 1
  {
    if |vs| == 1 {
      assert ProductPlusOne(vs[..0]) == 1;
    } else {
      OrFoldIsProduct(vs[..|vs| - 1]);
      ExpandOr(Fold(false, vs[..|vs| - 1]), vs[|vs| - 1]);
    }
  }

  lemma ExpandOr(a: int, b: int)
    ensures a + b + a * b == (a + 1) * (1 + b) - 1
  {
  }

  ghost predicate Bits01(vs: seq<int>) { forall i :: 0 <= i < |vs| ==> vs[i] == 0 || vs[i] == 1 }

  // How many of the values are one.
  function Count(vs: seq<int>): nat
  {
    if vs == [] then 0 else Count(vs[..|vs| - 1]) + (if vs[|vs| - 1] == 1 then 1 else 0)
  }

  /** On 0/1 values the fold is 2^k - 1, where k of them are one: a union exactly when at most one is. */
  lemma {:induction false} OrFoldOfBits(vs: seq<int>)
    requires |vs| > 0 && Bits01(vs)
    ensures Fold(false, vs) == Pow2(Count(vs)) - 1
  {
    OrFoldIsProduct(vs);
    ProductOfBits(vs);
  }

  lemma {:induction false} ProductOfBits(vs: seq<int>)
    requires Bits01(vs)
    ensures ProductPlusOne(vs) == Pow2(Count(vs))
  {
    if vs != [] { ProductOfBits(vs[..|vs| - 1]); }
  }

  lemma UnionIffAtMostOne(vs: seq<int>)
    requires |vs| > 0 && Bits01(vs)
    ensures (Fold(false, vs) == if Count(vs) > 0 then 1 else 0) <==> Count(vs) <= 1
  {
    OrFoldOfBits(vs);
    if Count(vs) > 1 { Pow2Mono(2, Count(vs)); }
  }

  lemma {:induction false} CountOfDisjoint(vs: seq<int>)
    requires Bits01(vs) && forall i, j :: 0 <= i < j < |vs| ==> vs[i] == 0 || vs[j] == 0
    ensures Count(vs) == if exists i :: 0 <= i < |vs| && vs[i] == 1 then 1 else 0
  {
    if vs != [] {
      var init := vs[..|vs| - 1];
      CountOfDisjoint(init);
      if vs[|vs| - 1] == 1 {
        assert forall i :: 0 <= i < |init| ==> init[i] == 0;
      } else if exists i :: 0 <= i < |vs| && vs[i] == 1 {
        var i :| 0 <= i < |vs| && vs[i] == 1;
        assert init[i] == 1;
      }
    }
  }

  // Disjoint 0/1 leaves fold to the 0/1 indicator of their union.
  lemma OrFoldOfDisjoint(vs: seq<int>)
    requires |vs| > 0 && Bits01(vs) && forall i, j :: 0 <= i < j < |vs| ==> vs[i] == 0 || vs[j] == 0
    ensures Fold(false, vs) == if exists i :: 0 <= i < |vs| && vs[i] == 1 then 1 else 0
  {
    CountOfDisjoint(vs);
    OrFoldOfBits(vs);
  }
}
