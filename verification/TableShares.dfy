/** What the three servers' shared tables and the leaves of a query stand for. */
module TableShares {
  import opened Arith
  import opened Rss
  import opened Compile
  import opened Filters
  import opened QS = QueryServer

  // The plaintext selectors of one leaf: a weight a block and a weight an offset.
  datatype LeafMask = LeafMask(block: seq<int>, offset: seq<int>)

  ghost predicate MaskFits(m: LeafMask, l: Layout) { |m.block| == l.blockNum && |m.offset| == l.blockSize }

  ghost predicate InDomain(buckets: seq<nat>, l: Layout) { forall r :: 0 <= r < |buckets| ==> buckets[r] < Buckets(l) }

  // The three servers' words for one leaf are material for its selectors.
  ghost predicate LeafMaterial(q: Trio<QueryVecs>, l: Layout, m: LeafMask)
  {
    && Material(BlockFirst(q), BlockSecond(q), l.blockNum, m.block)
    && Material(OffsetFirst(q), OffsetSecond(q), l.blockSize, m.offset)
  }

  function BlockFirst(q: Trio<QueryVecs>): Trio<Vec> { Trio(q.s0.block0, q.s1.block0, q.s2.block0) }

  function BlockSecond(q: Trio<QueryVecs>): Trio<Vec> { Trio(q.s0.block1, q.s1.block1, q.s2.block1) }

  function OffsetFirst(q: Trio<QueryVecs>): Trio<Vec> { Trio(q.s0.offset0, q.s1.offset0, q.s2.offset0) }

  function OffsetSecond(q: Trio<QueryVecs>): Trio<Vec> { Trio(q.s0.offset1, q.s1.offset1, q.s2.offset1) }

  function BlockRows(t: Trio<BoTable>): Trio<seq<Vec>> { Trio(t.s0.block0, t.s1.block0, t.s2.block0) }

  function BlockCopies(t: Trio<BoTable>): Trio<seq<Vec>> { Trio(t.s0.block1, t.s1.block1, t.s2.block1) }

  function OffsetRows(t: Trio<BoTable>): Trio<seq<Vec>> { Trio(t.s0.offset0, t.s1.offset0, t.s2.offset0) }

  function OffsetCopies(t: Trio<BoTable>): Trio<seq<Vec>> { Trio(t.s0.offset1, t.s1.offset1, t.s2.offset1) }

  // One table kept as replicated shares: rows as long as n, server i's second copy its successor's first,
  // and row r one-hot at hots[r].
  ghost predicate SharedRows(first: Trio<seq<Vec>>, second: Trio<seq<Vec>>, n: nat, hots: seq<nat>)
  {
    && |first.s0| == |first.s1| == |first.s2| == |hots|
    && second.s0 == first.s1 && second.s1 == first.s2 && second.s2 == first.s0
    && forall r :: 0 <= r < |hots| ==> OneHot(Trio(first.s0[r], first.s1[r], first.s2[r]), n, hots[r])
  }

  function BlocksOf(l: Layout, buckets: seq<nat>): (hots: seq<nat>)
    requires ValidLayout(l)
    ensures |hots| == |buckets|
  {
    seq<nat>(|buckets|, r requires 0 <= r < |buckets| => BlockOf(l, buckets[r]))
  }

  function OffsetsOf(l: Layout, buckets: seq<nat>): (hots: seq<nat>)
    requires ValidLayout(l)
    ensures |hots| == |buckets|
  {
    seq<nat>(|buckets|, r requires 0 <= r < |buckets| => OffsetOf(l, buckets[r]))
  }

  // The three servers hold shares of the one-hot block and offset of every row's bucket.
  ghost predicate HoldsBuckets(t: Trio<BoTable>, l: Layout, buckets: seq<nat>)
  {
    && ValidLayout(l) && InDomain(buckets, l)
    && t.s0.layout == t.s1.layout == t.s2.layout == l
    && t.s0.windowSize == t.s1.windowSize == t.s2.windowSize == |buckets|
    && SharedRows(BlockRows(t), BlockCopies(t), l.blockNum, BlocksOf(l, buckets))
    && SharedRows(OffsetRows(t), OffsetCopies(t), l.blockSize, OffsetsOf(l, buckets))
  }

  lemma HeldTablesShaped(t: Trio<BoTable>, l: Layout, buckets: seq<nat>)
    requires HoldsBuckets(t, l, buckets)
    ensures WellShaped(t.s0) && WellShaped(t.s1) && WellShaped(t.s2)
  {
    hide CongR;
    forall r | 0 <= r < |buckets|
      ensures |t.s0.block0[r]| == |t.s1.block0[r]| == |t.s2.block0[r]| == l.blockNum
      ensures |t.s0.offset0[r]| == |t.s1.offset0[r]| == |t.s2.offset0[r]| == l.blockSize
    {
      assert OneHot(Trio(t.s0.block0[r], t.s1.block0[r], t.s2.block0[r]), l.blockNum, BlocksOf(l, buckets)[r]);
      assert OneHot(Trio(t.s0.offset0[r], t.s1.offset0[r], t.s2.offset0[r]), l.blockSize, OffsetsOf(l, buckets)[r]);
    }
  }

  lemma HeldWindow(t: Trio<BoTable>, l: Layout, buckets: seq<nat>)
    requires HoldsBuckets(t, l, buckets)
    ensures t.s0.windowSize == |buckets| && t.s0.layout == t.s1.layout == t.s2.layout == l && ValidLayout(l)
            && InDomain(buckets, l)
  {
  }

  // The weight each row selects.
  function Selected(mask: seq<int>, hots: seq<nat>): (v: seq<int>)
    requires forall r :: 0 <= r < |hots| ==> hots[r] < |mask|
    ensures |v| == |hots|
  {
    seq<int>(|hots|, r requires 0 <= r < |hots| => mask[hots[r]])
  }

  lemma HotsFit(l: Layout, buckets: seq<nat>)
    requires ValidLayout(l) && InDomain(buckets, l)
    ensures forall r :: 0 <= r < |buckets| ==> BlocksOf(l, buckets)[r] < l.blockNum
    ensures forall r :: 0 <= r < |buckets| ==> OffsetsOf(l, buckets)[r] < l.blockSize
  {
    hide BlockOf, OffsetOf, Buckets;
    forall r | 0 <= r < |buckets|
      ensures BlocksOf(l, buckets)[r] < l.blockNum && OffsetsOf(l, buckets)[r] < l.blockSize
    {
      BucketFits(l, buckets[r]);
    }
  }

  // The value of one leaf on every row: the weight of its block times the weight of its offset.
  function LeafPlain(l: Layout, m: LeafMask, buckets: seq<nat>): (v: seq<int>)
    requires ValidLayout(l) && MaskFits(m, l) && InDomain(buckets, l)
    ensures |v| == |buckets|
  {
    HotsFit(l, buckets);
    Times(Selected(m.block, BlocksOf(l, buckets)), Selected(m.offset, OffsetsOf(l, buckets)))
  }

  // The three servers' dot products of one leaf half.
  ghost predicate TrioDots(s: Trio<Held>, q0: Trio<Vec>, q1: Trio<Vec>, first: Trio<seq<Vec>>, second: Trio<seq<Vec>>,
                           n: nat)
  {
    && DotPair(s.s0, q0.s0, q1.s0, first.s0, second.s0, n)
    && DotPair(s.s1, q0.s1, q1.s1, first.s1, second.s1, n)
    && DotPair(s.s2, q0.s2, q1.s2, first.s2, second.s2, n)
  }

  lemma DotsSized(s: Trio<Held>, q0: Trio<Vec>, q1: Trio<Vec>, n: nat, first: Trio<seq<Vec>>, second: Trio<seq<Vec>>,
                  hots: seq<nat>)
    requires SharedRows(first, second, n, hots) && TrioDots(s, q0, q1, first, second, n)
    ensures Sized(s, |hots|)
  {
  }

  /** Resharing the dot products of one leaf half gives a filter that selects each row by its own hot
      column. */
  lemma SelectionStands(q0: Trio<Vec>, q1: Trio<Vec>, n: nat, mask: seq<int>, first: Trio<seq<Vec>>,
                        second: Trio<seq<Vec>>,
                        hots: seq<nat>, s: Trio<Held>, out: Trio<Held>)
    requires Material(q0, q1, n, mask) && SharedRows(first, second, n, hots)
    requires TrioDots(s, q0, q1, first, second, n) && Reshared(out, s, |hots|)
    requires forall r :: 0 <= r < |hots| ==> hots[r] < n
    ensures StandsFor(out, |hots|, Selected(mask, hots))
  {
    hide Open, Dot, Cong, CongR;
    forall r | 0 <= r < |hots| ensures Cong(Open(out, r), mask[hots[r]]) {
      var t := Trio(first.s0[r], first.s1[r], first.s2[r]);
      assert OneHot(t, n, hots[r]);
      DotsOpen(q0, q1, t, n, mask, hots[r], n);
      CongWrap(SixDots(q0, q1, t, n));
      CongTrans(SixDots(q0, q1, t, n) % R, SixDots(q0, q1, t, n), mask[hots[r]]);
    }
  }

  // The dot products of both halves of a leaf.
  ghost predicate LeafDots(bs: Trio<Held>, os: Trio<Held>, q: Trio<QueryVecs>, t: Trio<BoTable>, l: Layout, w: nat)
  {
    && TrioDots(bs, BlockFirst(q), BlockSecond(q), BlockRows(t), BlockCopies(t), l.blockNum)
    && TrioDots(os, OffsetFirst(q), OffsetSecond(q), OffsetRows(t), OffsetCopies(t), l.blockSize)
    && Sized(bs, w) && Sized(os, w)
  }

  lemma LeafDotsSized(bs: Trio<Held>, os: Trio<Held>, q: Trio<QueryVecs>, t: Trio<BoTable>, l: Layout, w: nat)
    requires LeafDots(bs, os, q, t, l, w)
    ensures Sized(bs, w) && Sized(os, w)
  {
  }

  // A shared filter carries the value of one leaf.
  ghost predicate LeafValue(h: Trio<Held>, l: Layout, m: LeafMask, buckets: seq<nat>)
  {
    && ValidLayout(l) && MaskFits(m, l) && InDomain(buckets, l)
    && StandsFor(h, |buckets|, LeafPlain(l, m, buckets))
  }

  ghost predicate AllMaterial(qs: seq<Trio<QueryVecs>>, l: Layout, masks: seq<LeafMask>)
  {
    |masks| == |qs| && forall k :: 0 <= k < |qs| ==> MaskFits(masks[k], l) && LeafMaterial(qs[k], l, masks[k])
  }

  lemma AllMaterialCount(qs: seq<Trio<QueryVecs>>, l: Layout, masks: seq<LeafMask>)
    requires AllMaterial(qs, l, masks)
    ensures |qs| == |masks|
  {
  }

  /** The product of the two reshared halves of a leaf carries the leaf's value. */
  lemma LeafStands(q: Trio<QueryVecs>, t: Trio<BoTable>, l: Layout, buckets: seq<nat>, m: LeafMask, bs: Trio<Held>,
                   os: Trio<Held>,
                   block: Trio<Held>, offset: Trio<Held>, z: Trio<Vec>)
    requires HoldsBuckets(t, l, buckets) && MaskFits(m, l) && LeafMaterial(q, l, m)
    requires LeafDots(bs, os, q, t, l, |buckets|)
    requires Reshared(block, bs, |buckets|) && Reshared(offset, os, |buckets|) && ZeroRow(z, |buckets|)
    ensures Sized(block, |buckets|) && Sized(offset, |buckets|) && Rows(z, |buckets|)
    ensures LeafValue(And(block, offset, z, |buckets|), l, m, buckets)
  {
    hide TrioDots, ZeroRow, And, Material, SharedRows, Open, BlocksOf, OffsetsOf, Selected, LooseSum;
    ZeroRowSized(z, |buckets|);
    HotsFit(l, buckets);
    SelectionStands(BlockFirst(q), BlockSecond(q), l.blockNum, m.block, BlockRows(t), BlockCopies(t),
                    BlocksOf(l, buckets), bs, block);
    SelectionStands(OffsetFirst(q), OffsetSecond(q), l.blockSize, m.offset, OffsetRows(t), OffsetCopies(t),
                    OffsetsOf(l, buckets),
                    os, offset);
    AndStands(block, offset, z, |buckets|, Selected(m.block, BlocksOf(l, buckets)),
              Selected(m.offset, OffsetsOf(l, buckets)));
  }

  lemma ZeroRowSized(z: Trio<Vec>, n: nat)
    requires ZeroRow(z, n)
    ensures Rows(z, n)
  {
  }

  // ----- folds over lists of filters -----

  ghost predicate AllStand(hs: seq<Trio<Held>>, w: nat, vals: seq<seq<int>>)
  {
    |hs| == |vals| && forall k :: 0 <= k < |hs| ==> StandsFor(hs[k], w, vals[k])
  }

  function Column(vals: seq<seq<int>>, r: nat): (c: seq<int>)
    requires forall k :: 0 <= k < |vals| ==> r < |vals[k]|
    ensures |c| == |vals|
  {
    seq<int>(|vals|, k requires 0 <= k < |vals| => vals[k][r])
  }

  ghost predicate Wide(vals: seq<seq<int>>, w: nat) { forall k :: 0 <= k < |vals| ==> |vals[k]| == w }

  // The fold of a list of row vectors, row by row.
  function FoldRows(isAnd: bool, vals: seq<seq<int>>, w: nat): (f: seq<int>)
    requires |vals| > 0 && Wide(vals, w)
    ensures |f| == w
  {
    seq<int>(w, r requires 0 <= r < w => Fold(isAnd, Column(vals, r)))
  }

  lemma FoldOfOne(isAnd: bool, vals: seq<seq<int>>, w: nat)
    requires |vals| > 0 && Wide(vals, w)
    ensures FoldRows(isAnd, vals[..1], w) == vals[0]
  {
  }

  lemma FoldSnocRow(isAnd: bool, vals: seq<seq<int>>, w: nat, i: nat, r: nat)
    requires 0 < i < |vals| && Wide(vals, w) && r < w
    ensures
      var a, b := Fold(isAnd, Column(vals[..i], r)), vals[i][r];
      Fold(isAnd, Column(vals[..i + 1], r)) == if isAnd then a * b else a + b + a * b
  {
    var c := Column(vals[..i + 1], r);
    assert c[..i] == Column(vals[..i], r);
  }

  lemma FoldSnoc(isAnd: bool, vals: seq<seq<int>>, w: nat, i: nat)
    requires 0 < i < |vals| && Wide(vals, w)
    ensures
      var a := FoldRows(isAnd, vals[..i], w);
      FoldRows(isAnd, vals[..i + 1], w) == if isAnd then Times(a, vals[i]) else Either(a, vals[i])
  {
    hide Fold, Column;
    var a, f := FoldRows(isAnd, vals[..i], w), FoldRows(isAnd, vals[..i + 1], w);
    assert |vals[i]| == w;
    var goal := if isAnd then Times(a, vals[i]) else Either(a, vals[i]);
    forall r | 0 <= r < w ensures f[r] == goal[r] { FoldSnocRow(isAnd, vals, w, i, r); }
  }

  // ----- predicates and whole filters -----

  ghost predicate AllFit(ms: seq<LeafMask>, l: Layout) { forall k :: 0 <= k < |ms| ==> MaskFits(ms[k], l) }

  function LeafPlains(l: Layout, ms: seq<LeafMask>, buckets: seq<nat>): (v: seq<seq<int>>)
    requires ValidLayout(l) && AllFit(ms, l) && InDomain(buckets, l)
    ensures |v| == |ms| && Wide(v, |buckets|)
  {
    seq<seq<int>>(|ms|, k requires 0 <= k < |ms| => LeafPlain(l, ms[k], buckets))
  }

  // A predicate: the OR of its leaves.
  function PredPlain(l: Layout, ms: seq<LeafMask>, buckets: seq<nat>): (v: seq<int>)
    requires ValidLayout(l) && AllFit(ms, l) && InDomain(buckets, l) && ms != []
    ensures |v| == |buckets|
  {
    FoldRows(false, LeafPlains(l, ms, buckets), |buckets|)
  }

  ghost predicate GroupsFit(groups: seq<seq<LeafMask>>, l: Layout)
  {
    groups != [] && forall p :: 0 <= p < |groups| ==> groups[p] != [] && AllFit(groups[p], l)
  }

  function PredPlains(l: Layout, groups: seq<seq<LeafMask>>, buckets: seq<nat>): (v: seq<seq<int>>)
    requires ValidLayout(l) && GroupsFit(groups, l) && InDomain(buckets, l)
    ensures |v| == |groups| && Wide(v, |buckets|)
  {
    seq<seq<int>>(|groups|, p requires 0 <= p < |groups| => PredPlain(l, groups[p], buckets))
  }

  // A filter: its predicates combined by AND or by OR.
  function FilterPlain(isAnd: bool, l: Layout, groups: seq<seq<LeafMask>>, buckets: seq<nat>): (v: seq<int>)
    requires ValidLayout(l) && GroupsFit(groups, l) && InDomain(buckets, l)
    ensures |v| == |buckets|
  {
    FoldRows(isAnd, PredPlains(l, groups, buckets), |buckets|)
  }

  // The shared leaves of one predicate.
  ghost predicate LeafValues(hs: seq<Trio<Held>>, l: Layout, ms: seq<LeafMask>, buckets: seq<nat>)
  {
    |hs| == |ms| && forall k :: 0 <= k < |hs| ==> LeafValue(hs[k], l, ms[k], buckets)
  }

  lemma LeafValuesStand(hs: seq<Trio<Held>>, l: Layout, ms: seq<LeafMask>, buckets: seq<nat>)
    requires LeafValues(hs, l, ms, buckets) && ms != []
    ensures ValidLayout(l) && AllFit(ms, l) && InDomain(buckets, l)
    ensures AllStand(hs, |buckets|, LeafPlains(l, ms, buckets))
  {
    hide StandsFor, LeafPlain, MaskFits, InDomain;
    assert LeafValue(hs[0], l, ms[0], buckets);
    forall k | 0 <= k < |hs| ensures MaskFits(ms[k], l) { assert LeafValue(hs[k], l, ms[k], buckets); }
    forall k | 0 <= k < |hs| ensures StandsFor(hs[k], |buckets|, LeafPlains(l, ms, buckets)[k]) {
      assert LeafValue(hs[k], l, ms[k], buckets);
    }
  }

  // A shared filter carries the value of one predicate.
  ghost predicate PredValue(h: Trio<Held>, l: Layout, ms: seq<LeafMask>, buckets: seq<nat>)
  {
    && ValidLayout(l) && AllFit(ms, l) && InDomain(buckets, l) && ms != []
    && StandsFor(h, |buckets|, PredPlain(l, ms, buckets))
  }

  lemma PredValuesStand(hs: seq<Trio<Held>>, l: Layout, groups: seq<seq<LeafMask>>, buckets: seq<nat>)
    requires groups != [] && |hs| == |groups|
    requires forall p :: 0 <= p < |hs| ==> PredValue(hs[p], l, groups[p], buckets)
    ensures ValidLayout(l) && GroupsFit(groups, l) && InDomain(buckets, l)
    ensures AllStand(hs, |buckets|, PredPlains(l, groups, buckets))
  {
    hide StandsFor, PredPlain, AllFit, InDomain;
    assert PredValue(hs[0], l, groups[0], buckets);
    forall p | 0 <= p < |hs| ensures groups[p] != [] && AllFit(groups[p],
                                                               l) { assert PredValue(hs[p], l, groups[p], buckets); }
    forall p | 0 <= p < |hs| ensures StandsFor(hs[p], |buckets|, PredPlains(l, groups, buckets)[p]) {
      assert PredValue(hs[p], l, groups[p], buckets);
    }
  }

  // ----- evaluation order -----

  function Flat(xss: seq<seq<nat>>): seq<nat>
  {
    if xss == [] then [] else Flat(xss[..|xss| - 1]) + xss[|xss| - 1]
  }

  lemma FlatEmpty(xss: seq<seq<nat>>)
    ensures Flat(xss[..0]) == []
  {
  }

  // Group p starts where the groups before it end.
  lemma {:induction false} FlatSlice(xss: seq<seq<nat>>, p: nat)
    requires p < |xss|
    ensures |Flat(xss[..p])| + |xss[p]| == |Flat(xss[..p + 1])| <= |Flat(xss)|
    ensures Flat(xss)[|Flat(xss[..p])|..|Flat(xss[..p + 1])|] == xss[p]
  {
    var n := |xss| - 1;
    assert xss[..p + 1][..p] == xss[..p];
    if p == n {
      assert xss[..p + 1] == xss;
    } else {
      var init := xss[..n];
      FlatSlice(init, p);
      assert init[..p] == xss[..p] && init[..p + 1] == xss[..p + 1];
    }
  }

  function Pick<T>(xs: seq<T>, ps: seq<nat>): (r: seq<T>)
    requires forall k :: 0 <= k < |ps| ==> ps[k] < |xs|
    ensures |r| == |ps|
  {
    seq(|ps|, k requires 0 <= k < |ps| => xs[ps[k]])
  }

  // The positions of a grouping stay inside the list they were taken from.
  ghost predicate PositionsFit(preds: seq<seq<nat>>, n: nat)
  {
    forall p, k :: 0 <= p < |preds| && 0 <= k < |preds[p]| ==> preds[p][k] < n
  }

  lemma {:induction false} FlatFits(preds: seq<seq<nat>>, n: nat)
    requires PositionsFit(preds, n)
    ensures forall k :: 0 <= k < |Flat(preds)| ==> Flat(preds)[k] < n
  {
    if preds != [] {
      var init := preds[..|preds| - 1];
      assert forall p, k :: 0 <= p < |init| && 0 <= k < |init[p]| ==> init[p][k] == preds[p][k];
      FlatFits(init, n);
    }
  }

  // The masks of each predicate, in leaf order.
  function GroupMasks(masks: seq<LeafMask>, preds: seq<seq<nat>>): (g: seq<seq<LeafMask>>)
    requires PositionsFit(preds, |masks|)
    ensures |g| == |preds|
  {
    seq<seq<LeafMask>>(|preds|, p requires 0 <= p < |preds| => Pick(masks, preds[p]))
  }

  // The slice of the evaluated leaves that belongs to predicate p.
  lemma GroupSlice(hs: seq<Trio<Held>>, l: Layout, masks: seq<LeafMask>, preds: seq<seq<nat>>, buckets: seq<nat>,
                   p: nat, at: nat)
    requires PositionsFit(preds, |masks|) && p < |preds| && at == |Flat(preds[..p])| && |hs| == |Flat(preds)|
    requires forall k :: 0 <= k < |Flat(preds)| ==>
               Flat(preds)[k] < |masks| && LeafValue(hs[k], l, masks[Flat(preds)[k]], buckets)
    ensures at + |preds[p]| == |Flat(preds[..p + 1])| <= |hs|
    ensures LeafValues(hs[at..at + |preds[p]|], l, Pick(masks, preds[p]), buckets)
  {
    hide LeafValue, Flat;
    FlatSlice(preds, p);
    forall k | 0 <= k < |preds[p]| ensures LeafValue(hs[at + k], l, masks[preds[p][k]], buckets) {
      assert preds[p][k] == Flat(preds)[at..at + |preds[p]|][k] == Flat(preds)[at + k];
    }
  }

  // ----- a BO filter, as the three servers receive it -----

  // The three messages differ only in their shares.
  ghost predicate SameShape(f: Trio<BoFilter>)
  {
    && f.s0.isAnd == f.s1.isAnd == f.s2.isAnd
    && |f.s0.leaves| == |f.s1.leaves| == |f.s2.leaves|
    && forall i :: 0 <= i < |f.s0.leaves| ==>
         && f.s0.leaves[i].id == f.s1.leaves[i].id == f.s2.leaves[i].id
         && f.s0.leaves[i].pred == f.s1.leaves[i].pred == f.s2.leaves[i].pred
  }

  function LeafAt(f: Trio<BoFilter>, i: nat): Trio<QueryVecs>
    requires i < |f.s0.leaves| && i < |f.s1.leaves| && i < |f.s2.leaves|
  {
    Trio(f.s0.leaves[i].q, f.s1.leaves[i].q, f.s2.leaves[i].q)
  }

  lemma SameTags(f: Trio<BoFilter>)
    requires SameShape(f)
    ensures Tags(f.s0.leaves) == Tags(f.s1.leaves) == Tags(f.s2.leaves)
  {
  }

  // The material of every leaf of a message.
  ghost predicate FilterMaterial(f: Trio<BoFilter>, l: Layout, masks: seq<LeafMask>)
  {
    && SameShape(f) && |masks| == |f.s0.leaves|
    && forall i :: 0 <= i < |masks| ==> MaskFits(masks[i], l) && LeafMaterial(LeafAt(f, i), l, masks[i])
  }

  // The masks of a message by predicate.
  function MasksByPred(masks: seq<LeafMask>, tags: seq<nat>): (g: seq<seq<LeafMask>>)
    requires |masks| == |tags|
    ensures |g| == TagCount(tags)
  {
    GroupMasks(masks, PredPositions(tags))
  }

  // A shared filter carries the value of a grouped filter.
  ghost predicate FilterValue(h: Trio<Held>, isAnd: bool, l: Layout, groups: seq<seq<LeafMask>>, buckets: seq<nat>)
  {
    && ValidLayout(l) && GroupsFit(groups, l) && InDomain(buckets, l)
    && StandsFor(h, |buckets|, FilterPlain(isAnd, l, groups, buckets))
  }

  // ----- loading a table -----

  // One server's table of the given shape.
  ghost predicate TableOf(t: BoTable, l: Layout, w: nat) { WellShaped(t) && t.layout == l && t.windowSize == w }

  // The first n rows of the three tables carry the first n buckets.
  ghost predicate Loaded(t: Trio<BoTable>, l: Layout, w: nat, data: seq<nat>, n: nat)
  {
    && n <= w <= |data| && ValidLayout(l)
    && TableOf(t.s0, l, w) && TableOf(t.s1, l, w) && TableOf(t.s2, l, w)
    && t.s0.block1 == t.s1.block0 && t.s1.block1 == t.s2.block0 && t.s2.block1 == t.s0.block0
    && t.s0.offset1 == t.s1.offset0 && t.s1.offset1 == t.s2.offset0 && t.s2.offset1 == t.s0.offset0
    && forall r :: 0 <= r < n ==>
         && OneHot(Trio(t.s0.block0[r], t.s1.block0[r], t.s2.block0[r]), l.blockNum, BlockOf(l, data[r]))
         && OneHot(Trio(t.s0.offset0[r], t.s1.offset0[r], t.s2.offset0[r]), l.blockSize, OffsetOf(l, data[r]))
  }

  function WithRow(t: BoTable, row: nat, index0: Vec, index1: Vec, offset0: Vec, offset1: Vec): BoTable
    requires WellShaped(t) && row < t.windowSize
  {
    t.(block0 := t.block0[row := index0], block1 := t.block1[row := index1],
       offset0 := t.offset0[row := offset0], offset1 := t.offset1[row := offset1])
  }

  lemma FreshLoaded(l: Layout, w: nat, data: seq<nat>)
    requires ValidLayout(l) && w <= |data|
    ensures Loaded(Trio(FreshTable(w, l), FreshTable(w, l), FreshTable(w, l)), l, w, data, 0)
  {
  }

  // Server i receives share i and share i + 1 of the row.
  lemma LoadRow(t: Trio<BoTable>, l: Layout, w: nat, data: seq<nat>, n: nat, b: Trio<Vec>, o: Trio<Vec>)
    requires Loaded(t, l, w, data, n) && n < w
    requires OneHot(b, l.blockNum, BlockOf(l, data[n])) && OneHot(o, l.blockSize, OffsetOf(l, data[n]))
    ensures Loaded(Trio(WithRow(t.s0, n, b.s0, b.s1, o.s0, o.s1), WithRow(t.s1, n, b.s1, b.s2, o.s1, o.s2),
                        WithRow(t.s2, n, b.s2, b.s0, o.s2, o.s0)), l, w, data, n + 1)
  {
    hide CongR, BlockOf, OffsetOf;
  }

  lemma LoadedAll(t: Trio<BoTable>, l: Layout, w: nat, data: seq<nat>)
    requires Loaded(t, l, w, data, w) && InDomain(data[..w], l)
    ensures HoldsBuckets(t, l, data[..w])
  {
    hide OneHot, BlockOf, OffsetOf, Buckets;
  }

  /** What a row of a held table is: server i's first copies are shares i of a one at the row's block, and at its
      offset, and zeros elsewhere; its second copies are its successor's first. */
  lemma RowIsShared(t: Trio<BoTable>, l: Layout, buckets: seq<nat>, r: nat)
    requires HoldsBuckets(t, l, buckets) && r < |buckets|
    ensures l.blockSize > 0 && buckets[r] / l.blockSize < l.blockNum
    ensures |t.s0.block0| == |t.s1.block0| == |t.s2.block0| == |t.s0.offset0| == |t.s1.offset0| == |t.s2.offset0|
            == |buckets|
    ensures t.s0.block1 == t.s1.block0 && t.s1.block1 == t.s2.block0 && t.s2.block1 == t.s0.block0
    ensures t.s0.offset1 == t.s1.offset0 && t.s1.offset1 == t.s2.offset0 && t.s2.offset1 == t.s0.offset0
    ensures |t.s0.block0[r]| == |t.s1.block0[r]| == |t.s2.block0[r]| == l.blockNum
    ensures |t.s0.offset0[r]| == |t.s1.offset0[r]| == |t.s2.offset0[r]| == l.blockSize
    ensures forall c :: 0 <= c < l.blockNum ==>
              Sum3(t.s0.block0[r][c], t.s1.block0[r][c], t.s2.block0[r][c]) % R
              == if c == buckets[r] / l.blockSize then 1 else 0
    ensures forall c :: 0 <= c < l.blockSize ==>
              Sum3(t.s0.offset0[r][c], t.s1.offset0[r][c], t.s2.offset0[r][c]) % R
              == if c == buckets[r] % l.blockSize then 1 else 0
  {
    hide CongR;
    BucketFits(l, buckets[r]);
    var b, o := Trio(t.s0.block0[r], t.s1.block0[r], t.s2.block0[r]),
        Trio(t.s0.offset0[r], t.s1.offset0[r], t.s2.offset0[r]);
    assert OneHot(b, l.blockNum, BlocksOf(l, buckets)[r]) && OneHot(o, l.blockSize, OffsetsOf(l, buckets)[r]);
    forall c | 0 <= c < l.blockNum
      ensures Sum3(b.s0[c], b.s1[c], b.s2[c]) % R == if c == buckets[r] / l.blockSize then 1 else 0
    {
      CongRMod(Sum3(b.s0[c], b.s1[c], b.s2[c]), if c == buckets[r] / l.blockSize then 1 else 0);
    }
    forall c | 0 <= c < l.blockSize
      ensures Sum3(o.s0[c], o.s1[c], o.s2[c]) % R == if c == buckets[r] % l.blockSize then 1 else 0
    {
      CongRMod(Sum3(o.s0[c], o.s1[c], o.s2[c]), if c == buckets[r] % l.blockSize then 1 else 0);
    }
  }
}
