/** What a BOFSS query emits and what its leaves mean, domains of one point included. */
module BofssMeaning {
  import opened Arith
  import opened Rss
  import opened Compile
  import opened Filters
  import opened QS = QueryServer
  import opened TableShares
  import opened Emission
  import opened BofssLeaves
  import Regroup
  import Blocks

  // Where BOFSS points and ranges are evaluated as meant: a point key opens to nothing on a domain of a
  // single point.
  predicate Supported(l: Layout, isPoint: bool) { l.blockNum >= 2 && (isPoint ==> l.blockSize >= 2) }

  // An interval the BOFSS client compiles.
  predicate Compilable(v: Interval, l: Layout, isPoint: bool)
  {
    Inside(v, l) && if isPoint then v.left == v.right else SingleSided(l, v.left, v.right)
  }

  ghost predicate AllCompilable(vs: seq<Interval>, l: Layout, isPoint: bool)
  {
    forall i :: 0 <= i < |vs| ==> Compilable(vs[i], l, isPoint)
  }

  function FssLeavesOf(l: Layout, v: Interval, isPoint: bool): (fs: seq<PrimLeaf>)
    requires ValidLayout(l) && Compilable(v, l, isPoint)
    ensures fs != []
  {
    if isPoint then [PrimLeaf(Point(BlockOf(l, v.left)), Point(OffsetOf(l, v.left)))]
    else FssLeaves(l, v.left, v.right)
  }

  function FssLists(l: Layout, vs: seq<Interval>, isPoint: bool): (fss: seq<seq<PrimLeaf>>)
    requires ValidLayout(l) && AllCompilable(vs, l, isPoint)
    ensures |fss| == |vs| && AllNonempty(fss)
  {
    seq<seq<PrimLeaf>>(|vs|, p requires 0 <= p < |vs| => FssLeavesOf(l, vs[p], isPoint))
  }

  function PrimLeafMask(l: Layout, f: PrimLeaf): (m: LeafMask)
    ensures MaskFits(m, l)
  {
    LeafMask(PrimMask(l.blockNum, f.block), PrimMask(l.blockSize, f.offset))
  }

  function FssMasks(l: Layout, fs: seq<PrimLeaf>): (ms: seq<LeafMask>)
    ensures |ms| == |fs| && AllFit(ms, l)
  {
    seq<LeafMask>(|fs|, k requires 0 <= k < |fs| => PrimLeafMask(l, fs[k]))
  }

  lemma PickFssMasks(l: Layout, fs: seq<PrimLeaf>, ps: seq<nat>)
    requires forall k :: 0 <= k < |ps| ==> ps[k] < |fs|
    ensures Pick(FssMasks(l, fs), ps) == FssMasks(l, Pick(fs, ps))
  {
    hide PrimLeafMask;
  }

  // Both halves of a leaf open on a bucket.
  predicate LeafOpens(l: Layout, f: PrimLeaf, block: nat, off: nat)
  {
    Opens(f.block, l.blockNum, block) && Opens(f.offset, l.blockSize, off)
  }

  lemma PrimLeafPlain(l: Layout, f: PrimLeaf, buckets: seq<nat>, r: nat)
    requires ValidLayout(l) && InDomain(buckets, l) && r < |buckets|
    ensures LeafPlain(l, PrimLeafMask(l, f), buckets)[r]
         == if LeafOpens(l, f, BlockOf(l, buckets[r]), OffsetOf(l, buckets[r])) then 1 else 0
  {
    hide BlockOf, OffsetOf, Buckets, Opens;
    HotsFit(l, buckets);
    var m := PrimLeafMask(l, f);
    assert LeafPlain(l, m, buckets)[r] == m.block[BlocksOf(l, buckets)[r]] * m.offset[OffsetsOf(l, buckets)[r]];
  }

  // The leaves of one interval open together on the interval, at most one at a time.
  lemma FssLeavesOpen(l: Layout, v: Interval, isPoint: bool, x: nat)
    requires ValidLayout(l) && Compilable(v, l, isPoint) && x < Buckets(l)
    ensures
      var fs, b, o := FssLeavesOf(l, v, isPoint), BlockOf(l, x), OffsetOf(l, x);
      && |fs| == (if isPoint then 1 else 2)
      && !(|fs| == 2 && LeafOpens(l, fs[0], b, o) && LeafOpens(l, fs[1], b, o))
      && (LeafOpens(l, fs[0], b, o) || (|fs| == 2 && LeafOpens(l, fs[1], b, o))
          <==> Supported(l, isPoint) && v.left <= x <= v.right)
  {
    hide BlockOf, OffsetOf, Buckets;
    BucketFits(l, x);
    BucketFits(l, v.left);
    BucketFits(l, v.right);
    if isPoint {
      BucketOrder(l, x, v.left);
      BucketOrder(l, v.left, x);
    } else {
      FssExact(l, v.left, v.right, x);
    }
  }

  // A fold of one or two 0/1 values of which at most one is set.
  lemma FoldOfFew(vs: seq<int>)
    requires 1 <= |vs| <= 2 && Bits01(vs) && !(|vs| == 2 && vs[0] == 1 && vs[1] == 1)
    ensures Fold(false, vs) == if vs[0] == 1 || (|vs| == 2 && vs[1] == 1) then 1 else 0
  {
    if |vs| == 2 { assert vs[..1] == [vs[0]]; }
  }

  /** The leaves of an interval answer as the interval does, if the layout supports it, and never
      otherwise. */
  lemma FssAnswers(l: Layout, v: Interval, isPoint: bool, buckets: seq<nat>)
    requires ValidLayout(l) && Compilable(v, l, isPoint) && InDomain(buckets, l)
    ensures AnswersAs(l, FssMasks(l, FssLeavesOf(l, v, isPoint)), buckets, x => Supported(l, isPoint)
                      && v.left <= x <= v.right)
  {
    hide BlockOf, OffsetOf, Buckets, FssLeaves, FssLeavesOf, LeafOpens, LeafPlain, Fold, PrimLeafMask, Supported;
    var fs := FssLeavesOf(l, v, isPoint);
    var ms := FssMasks(l, fs);
    forall r | 0 <= r < |buckets|
      ensures PredPlain(l, ms, buckets)[r] == if Supported(l, isPoint) && v.left <= buckets[r] <= v.right then 1 else 0
    {
      FssLeavesOpen(l, v, isPoint, buckets[r]);
      var column := Column(LeafPlains(l, ms, buckets), r);
      forall k | 0 <= k < |fs|
        ensures column[k] == if LeafOpens(l, fs[k], BlockOf(l, buckets[r]), OffsetOf(l, buckets[r])) then 1 else 0
      {
        PrimLeafPlain(l, fs[k], buckets, r);
      }
      FoldOfFew(column);
    }
  }

  // The intervals a layout actually answers: the query's own, or empty ones.
  function Effective(vs: seq<Interval>, supported: bool): (ws: seq<Interval>)
    ensures |ws| == |vs|
  {
    if supported then vs else seq<Interval>(|vs|, _ => Interval(1, 0))
  }

  /** The grouped leaves of a BOFSS query weigh every row as the query does on supported layouts, and
      weigh nothing on the others. */
  lemma FssMeaning(l: Layout, vs: seq<Interval>, isPoint: bool, isAnd: bool, buckets: seq<nat>)
    requires ValidLayout(l) && AllCompilable(vs, l, isPoint) && InDomain(buckets, l) && vs != []
    ensures
      var es := Emitted(FssLists(l, vs, isPoint));
      var groups := MasksByPred(FssMasks(l, ItemsOf(es)), PredsOf(es));
      && GroupsFit(groups, l)
      && FilterPlain(isAnd, l, groups, buckets) == Weights(isAnd, Effective(vs, Supported(l, isPoint)), buckets)
  {
    hide Buckets, FssLeavesOf, Emitted, Positions, TagCount, AnswersAs, Weights, FilterPlain, FssMasks, PredsOf,
      ItemsOf, GroupsFit, Supported;
    var xss := FssLists(l, vs, isPoint);
    var es := Emitted(xss);
    var groups := MasksByPred(FssMasks(l, ItemsOf(es)), PredsOf(es));
    var ws := Effective(vs, Supported(l, isPoint));
    GroupsOfEmitted(xss, 0);
    forall p | 0 <= p < |vs| ensures AnswersAs(l, groups[p], buckets, x => ws[p].left <= x <= ws[p].right) {
      GroupsOfEmitted(xss, p);
      PickFssMasks(l, ItemsOf(es), Positions(PredsOf(es), p));
      FssAnswers(l, vs[p], isPoint, buckets);
      SameAnswers(l, groups[p], buckets, x => Supported(l, isPoint) && vs[p].left <= x <= vs[p].right,
                  x => ws[p].left <= x <= ws[p].right);
    }
    GroupsWeigh(l, ws, isAnd, groups, buckets);
  }

  lemma SameAnswers(l: Layout, ms: seq<LeafMask>, buckets: seq<nat>, f: nat -> bool, g: nat -> bool)
    requires AnswersAs(l, ms, buckets, f) && forall x: nat :: f(x) == g(x)
    ensures AnswersAs(l, ms, buckets, g)
  {
    hide PredPlain, AllFit;
  }

  // Empty intervals weigh nothing, under AND and under OR.
  lemma {:induction false} NothingWeighs(vals: seq<uint128>, vs: seq<Interval>, isAnd: bool, buckets: seq<nat>, k: nat)
    requires k <= |vals| && k <= |buckets| && vs != []
    ensures WeightedSum(vals, Weights(isAnd, Effective(vs, false), buckets), k) == 0
  {
    hide Weights, Effective;
    if k > 0 {
      NothingWeighs(vals, vs, isAnd, buckets, k - 1);
      RowWeighsNothing(vs, isAnd, buckets, k - 1);
    }
  }

  lemma RowWeighsNothing(vs: seq<Interval>, isAnd: bool, buckets: seq<nat>, r: nat)
    requires r < |buckets| && vs != []
    ensures Weights(isAnd, Effective(vs, false), buckets)[r] == 0
  {
    hide Hits, Count;
    var ws := Effective(vs, false);
    var x := buckets[r];
    if isAnd {
      assert !(ws[0].left <= x <= ws[0].right);
    } else {
      NothingHit(ws, x);
      NoHits(Hits(ws, x));
    }
  }

  lemma NothingHit(ws: seq<Interval>, x: nat)
    requires forall p :: 0 <= p < |ws| ==> ws[p] == Interval(1, 0)
    ensures forall i :: 0 <= i < |Hits(ws, x)| ==> Hits(ws, x)[i] == 0
  {
  }

  lemma {:induction false} NoHits(h: seq<int>)
    requires forall i :: 0 <= i < |h| ==> h[i] == 0
    ensures Count(h) == 0
  {
    if h != [] { NoHits(h[..|h| - 1]); }
  }

  // ----- messages -----

  ghost predicate FitsAll(items: seq<Regroup.Primitive>, id: string, l: Layout)
  {
    forall i :: 0 <= i < |items| ==> Regroup.Fits(items[i], id, l)
  }

  // The primitives under construction carry the emission so far.
  ghost predicate FssBuilt(c: Blocks.Cipher, items: Trio<seq<Regroup.Primitive>>, id: string, l: Layout,
                           es: seq<Emit<PrimLeaf>>)
  {
    && FssMaterial(c, items, l, PredsOf(es), FssMasks(l, ItemsOf(es)))
    && FitsAll(items.s0, id, l) && FitsAll(items.s1, id, l) && FitsAll(items.s2, id, l)
  }

  lemma NothingFssBuilt(c: Blocks.Cipher, id: string, l: Layout)
    ensures FssBuilt(c, Trio([], [], []), id, l, Emitted<PrimLeaf>([]))
  {
  }

  // One more leaf: its block primitive, then its offset primitive.
  lemma FssBuiltSnoc(c: Blocks.Cipher, items: Trio<seq<Regroup.Primitive>>, id: string, l: Layout,
                     es: seq<Emit<PrimLeaf>>,
                     pred: nat, f: PrimLeaf, b: Trio<Regroup.Primitive>, o: Trio<Regroup.Primitive>)
    requires FssBuilt(c, items, id, l, es) && LeafKeyed(c, b, o, l, PrimLeafMask(l, f))
    requires b.s0.pred == b.s1.pred == b.s2.pred == o.s0.pred == o.s1.pred == o.s2.pred == pred
    requires b.s0.domainType == b.s1.domainType == b.s2.domainType == Regroup.BlockDomain
    requires o.s0.domainType == o.s1.domainType == o.s2.domainType == Regroup.OffsetDomain
    requires FitsAll([b.s0, o.s0], id, l) && FitsAll([b.s1, o.s1], id, l) && FitsAll([b.s2, o.s2], id, l)
    ensures FssBuilt(c, Trio(items.s0 + [b.s0, o.s0], items.s1 + [b.s1, o.s1], items.s2 + [b.s2, o.s2]), id, l,
                     es + [Emit(pred, f)])
  {
    hide LeafKeyed, PrimLeafMask, Regroup.Fits;
    AlternatingSnoc(items.s0, PredsOf(es), b.s0, o.s0, pred);
    AlternatingSnoc(items.s1, PredsOf(es), b.s1, o.s1, pred);
    AlternatingSnoc(items.s2, PredsOf(es), b.s2, o.s2, pred);
    FitsSnoc(items.s0, b.s0, o.s0, id, l);
    FitsSnoc(items.s1, b.s1, o.s1, id, l);
    FitsSnoc(items.s2, b.s2, o.s2, id, l);
    var next := Trio(items.s0 + [b.s0, o.s0], items.s1 + [b.s1, o.s1], items.s2 + [b.s2, o.s2]);
    var fs := ItemsOf(es) + [f];
    assert ItemsOf(es + [Emit(pred, f)]) == fs && PredsOf(es + [Emit(pred, f)]) == PredsOf(es) + [pred];
    forall k | 0 <= k < |fs| ensures LeafKeyed(c, PrimAt(next, 2 * k), PrimAt(next, 2 * k + 1), l, FssMasks(l, fs)[k]) {
      if k < |es| {
        assert LeafKeyed(c, PrimAt(items, 2 * k), PrimAt(items, 2 * k + 1), l, FssMasks(l, ItemsOf(es))[k]);
      }
    }
  }

  lemma AlternatingSnoc(items: seq<Regroup.Primitive>, tags: seq<nat>, b: Regroup.Primitive, o: Regroup.Primitive,
                        pred: nat)
    requires Alternating(items, tags) && b.pred == o.pred == pred
    requires b.domainType == Regroup.BlockDomain && o.domainType == Regroup.OffsetDomain
    ensures Alternating(items + [b, o], tags + [pred])
  {
  }

  lemma FitsSnoc(items: seq<Regroup.Primitive>, b: Regroup.Primitive, o: Regroup.Primitive, id: string, l: Layout)
    requires FitsAll(items, id, l) && FitsAll([b, o], id, l)
    ensures FitsAll(items + [b, o], id, l)
  {
    hide Regroup.Fits;
    assert [b, o][0] == b && [b, o][1] == o;
  }

  // What the client sends to a server that has the table is accepted there.
  lemma SentFssIsAccepted(items: seq<Regroup.Primitive>, tags: seq<nat>, id: string, l: Layout,
                          metas: map<string, Layout>)
    requires Alternating(items, tags) && Contiguous(tags) && tags != [] && FitsAll(items, id, l)
    requires id in metas && metas[id] == l
    ensures Regroup.Acceptable(items, metas) && items[0].id == id
  {
    hide Positions, TagCount, Regroup.Select, Regroup.PredCount;
    assert Regroup.Fits(items[0], id, l);
    SelectOfAlternating(items, tags, 0);
    forall p | 0 <= p < Regroup.PredCount(items)
      ensures 0 < |Regroup.Select(items, p, Regroup.BlockDomain)| == |Regroup.Select(items, p, Regroup.OffsetDomain)|
    {
      SelectOfAlternating(items, tags, p);
    }
  }
}
