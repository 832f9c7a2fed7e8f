/** What a BO query emits, and what the emitted leaves mean once the server has grouped them. */
module Emission {
  import opened Arith
  import opened Bits
  import opened Compile
  import opened Filters
  import opened QS = QueryServer
  import opened TableShares

  // One interval of a query: left <= x <= right. A point is an interval of one bucket.
  datatype Interval = Interval(left: nat, right: nat)

  predicate Inside(v: Interval, l: Layout) { v.left <= v.right < Buckets(l) }

  ghost predicate AllInside(vs: seq<Interval>, l: Layout) { forall i :: 0 <= i < |vs| ==> Inside(vs[i], l) }

  // The leaves of one predicate.
  function BoxesOf(l: Layout, v: Interval, isPoint: bool): seq<Box>
    requires ValidLayout(l) && Inside(v, l)
  {
    if isPoint then [PointBox(l, v.left)] else RangeBoxes(l, v.left, v.right)
  }

  // The leaves of every predicate.
  function BoxLists(l: Layout, vs: seq<Interval>, isPoint: bool): (bss: seq<seq<Box>>)
    requires ValidLayout(l) && AllInside(vs, l)
    ensures |bss| == |vs|
  {
    seq<seq<Box>>(|vs|, p requires 0 <= p < |vs| => BoxesOf(l, vs[p], isPoint))
  }

  // A 0/1 selector of n places.
  function IntervalMask(n: nat, lo: nat, hi: nat): (m: seq<uint128>)
    ensures |m| == n
  {
    seq<uint128>(n, i requires 0 <= i < n => if lo <= i <= hi then 1 else 0)
  }

  function BoxMask(l: Layout, b: Box): LeafMask
  {
    LeafMask(IntervalMask(l.blockNum, b.blockLo, b.blockHi), IntervalMask(l.blockSize, b.offLo, b.offHi))
  }

  function BoxMasks(l: Layout, boxes: seq<Box>): (ms: seq<LeafMask>)
    ensures |ms| == |boxes|
  {
    seq<LeafMask>(|boxes|, k requires 0 <= k < |boxes| => BoxMask(l, boxes[k]))
  }

  // ----- grouping undoes emission -----

  // A leaf as the client emits it, with its predicate index.
  datatype Emit<T> = Emit(pred: nat, item: T)

  function Tagged<T>(p: nat, xs: seq<T>): (es: seq<Emit<T>>)
    ensures |es| == |xs|
  {
    seq(|xs|, k requires 0 <= k < |xs| => Emit(p, xs[k]))
  }

  // All predicates' leaves, one predicate after the other.
  function Emitted<T>(xss: seq<seq<T>>): seq<Emit<T>>
  {
    if xss == [] then []
    else
      var n := |xss| - 1;
      Emitted(xss[..n]) + Tagged(n, xss[n])
  }

  lemma EmittedSnoc<T>(xss: seq<seq<T>>, xs: seq<T>)
    ensures Emitted(xss + [xs]) == Emitted(xss) + Tagged(|xss|, xs)
  {
    assert (xss + [xs])[..|xss|] == xss;
  }

  function PredsOf<T>(es: seq<Emit<T>>): (ts: seq<nat>)
    ensures |ts| == |es|
  {
    seq<nat>(|es|, k requires 0 <= k < |es| => es[k].pred)
  }

  function ItemsOf<T>(es: seq<Emit<T>>): (xs: seq<T>)
    ensures |xs| == |es|
  {
    seq<T>(|es|, k requires 0 <= k < |es| => es[k].item)
  }

  ghost predicate AllNonempty<T>(xss: seq<seq<T>>) { forall p :: 0 <= p < |xss| ==> xss[p] != [] }

  // A block of equal tags after the others: it becomes its own group and leaves the others alone.
  lemma {:induction false} PositionsOfBlock(tags: seq<nat>, t: nat, m: nat, p: nat)
    requires TagCount(tags) <= t
    ensures
      var all := tags + seq<nat>(m, _ => t);
      && Positions(all, p) == (if p == t then seq<nat>(m, k => |tags| + k) else Positions(tags, p))
      && TagCount(all) == if m == 0 then TagCount(tags) else t + 1
  {
    hide Positions, TagCount;
    var all := tags + seq<nat>(m, _ => t);
    if m == 0 {
      assert all == tags;
      if p == t { NoPositions(tags, t); }
    } else {
      PositionsOfBlock(tags, t, m - 1, p);
      assert all == tags + seq<nat>(m - 1, _ => t) + [t];
      PositionsSnoc(tags + seq<nat>(m - 1, _ => t), t, p);
      CountedOn(|tags|, m - 1);
    }
  }

  lemma CountedOn(from: nat, m: nat)
    ensures seq<nat>(m + 1, k => from + k) == seq<nat>(m, k => from + k) + [from + m]
  {
  }

  // One more tag.
  lemma PositionsSnoc(tags: seq<nat>, t: nat, p: nat)
    ensures Positions(tags + [t], p) == Positions(tags, p) + (if p == t then [|tags|] else [])
    ensures TagCount(tags + [t]) == if TagCount(tags) > t then TagCount(tags) else t + 1
  {
    assert (tags + [t])[..|tags|] == tags;
  }

  lemma TagsOfTagged<T>(es: seq<Emit<T>>, t: nat, xs: seq<T>)
    ensures PredsOf(es + Tagged(t, xs)) == PredsOf(es) + seq<nat>(|xs|, _ => t)
  {
  }

  // Positions among the earlier leaves pick what they picked before; positions of the new ones pick
  // the new leaves.
  lemma PickOfTagged<T>(es: seq<Emit<T>>, t: nat, xs: seq<T>, ps: seq<nat>)
    requires forall k :: 0 <= k < |ps| ==> ps[k] < |es|
    ensures Pick(ItemsOf(es + Tagged(t, xs)), ps) == Pick(ItemsOf(es), ps)
    ensures Pick(ItemsOf(es + Tagged(t, xs)), seq<nat>(|xs|, k => |es| + k)) == xs
  {
  }

  /** Regrouping undoes emission: as many groups as predicates, each the leaves of its own predicate in
      the order they were emitted. */
  lemma {:induction false} GroupsOfEmitted<T>(xss: seq<seq<T>>, p: nat)
    requires AllNonempty(xss) && p < |xss|
    ensures
      var es := Emitted(xss);
      && TagCount(PredsOf(es)) == |xss|
      && Pick(ItemsOf(es), Positions(PredsOf(es), p)) == xss[p]
  {
    hide Positions, TagCount, PredsOf, ItemsOf, Pick, Tagged;
    var n := |xss| - 1;
    var init, xs := Emitted(xss[..n]), xss[n];
    if n == 0 { NoTags(PredsOf(init)); } else { GroupsOfEmitted(xss[..n], if p < n then p else 0); }
    TagsOfTagged(init, n, xs);
    PositionsOfBlock(PredsOf(init), n, |xs|, p);
    PickOfTagged(init, n, xs, if p < n then Positions(PredsOf(init), p) else []);
  }

  // Every predicate has a leaf.
  lemma EmittedContiguous<T>(xss: seq<seq<T>>)
    requires AllNonempty(xss) && xss != []
    ensures Emitted(xss) != [] && Contiguous(PredsOf(Emitted(xss)))
  {
    hide Positions, TagCount, Emitted;
    var es := Emitted(xss);
    GroupsOfEmitted(xss, 0);
    forall p | 0 <= p < TagCount(PredsOf(es)) ensures Positions(PredsOf(es), p) != [] { GroupsOfEmitted(xss, p); }
    if es == [] { NoTags(PredsOf(es)); }
  }

  lemma NoTags(tags: seq<nat>)
    requires tags == []
    ensures TagCount(tags) == 0
  {
  }

  // ----- the value of a predicate -----

  lemma BoxPlain(l: Layout, b: Box, buckets: seq<nat>, r: nat)
    requires ValidLayout(l) && InDomain(buckets, l) && r < |buckets|
    ensures MaskFits(BoxMask(l, b), l)
    ensures LeafPlain(l, BoxMask(l, b), buckets)[r]
         == if Covers(b, BlockOf(l, buckets[r]), OffsetOf(l, buckets[r])) then 1 else 0
  {
    hide BlockOf, OffsetOf, Buckets;
    HotsFit(l, buckets);
    var m := BoxMask(l, b);
    assert LeafPlain(l, m, buckets)[r] == m.block[BlocksOf(l, buckets)[r]] * m.offset[OffsetsOf(l, buckets)[r]];
  }

  // Exact leaves fold to the indicator of their interval.
  lemma ExactPlain(l: Layout, boxes: seq<Box>, left: nat, right: nat, buckets: seq<nat>, r: nat)
    requires ValidLayout(l) && InDomain(buckets, l) && r < |buckets| && boxes != []
    requires Exact(l, boxes, left, right)
    ensures AllFit(BoxMasks(l, boxes), l)
    ensures PredPlain(l, BoxMasks(l, boxes), buckets)[r] == if left <= buckets[r] <= right then 1 else 0
  {
    hide BlockOf, OffsetOf, Buckets, LeafPlain, BoxMask, Fold, Covers, InBounds;
    var ms := BoxMasks(l, boxes);
    var b, o := BlockOf(l, buckets[r]), OffsetOf(l, buckets[r]);
    forall k | 0 <= k < |boxes|
      ensures MaskFits(ms[k], l) && LeafPlain(l, ms[k], buckets)[r] == if Covers(boxes[k], b, o) then 1 else 0
    {
      BoxPlain(l, boxes[k], buckets, r);
    }
    var column := Column(LeafPlains(l, ms, buckets), r);
    forall i, j | 0 <= i < j < |column| ensures column[i] == 0 || column[j] == 0 {
      assert Covers(boxes[i], b, o) ==> !Covers(boxes[j], b, o);
    }
    OrFoldOfDisjoint(column);
    assert Union(boxes, b, o) <==> exists i :: 0 <= i < |column| && column[i] == 1 by {
      if Union(boxes, b, o) {
        var i :| 0 <= i < |boxes| && Covers(boxes[i], b, o);
        assert column[i] == 1;
      }
      if exists i :: 0 <= i < |column| && column[i] == 1 {
        var i :| 0 <= i < |column| && column[i] == 1;
        assert Covers(boxes[i], b, o);
      }
    }
  }

  // The 0/1 answers of the predicates on one bucket.
  function Hits(vs: seq<Interval>, x: nat): (h: seq<int>)
    ensures |h| == |vs| && Bits01(h)
  {
    seq<int>(|vs|, p requires 0 <= p < |vs| => if vs[p].left <= x <= vs[p].right then 1 else 0)
  }

  // What a row counts for: 1 or 0 under AND, 2^k - 1 for k satisfied predicates under OR.
  function Weight(isAnd: bool, vs: seq<Interval>, x: nat): int
  {
    if isAnd then (if forall p :: 0 <= p < |vs| ==> vs[p].left <= x <= vs[p].right then 1 else 0)
    else Pow2(Count(Hits(vs, x))) - 1
  }

  function Weights(isAnd: bool, vs: seq<Interval>, buckets: seq<nat>): (w: seq<int>)
    ensures |w| == |buckets|
  {
    seq<int>(|buckets|, r requires 0 <= r < |buckets| => Weight(isAnd, vs, buckets[r]))
  }

  // The plaintext answer of a conjunction: the values of the rows that satisfy every predicate.
  function SumWhere(vals: seq<uint128>, vs: seq<Interval>, buckets: seq<nat>, k: nat): nat
    requires k <= |vals| && k <= |buckets|
  {
    if k == 0 then 0
    else SumWhere(vals, vs, buckets, k - 1)
         + (if forall p :: 0 <= p < |vs| ==> vs[p].left <= buckets[k - 1] <= vs[p].right then vals[k - 1] else 0)
  }

  /** Under AND the weighted sum is the sum over the satisfying rows. */
  lemma {:induction false} AndSumsRows(vals: seq<uint128>, vs: seq<Interval>, buckets: seq<nat>, k: nat)
    requires k <= |vals| && k <= |buckets|
    ensures WeightedSum(vals, Weights(true, vs, buckets), k) == SumWhere(vals, vs, buckets, k)
  {
    if k > 0 { AndSumsRows(vals, vs, buckets, k - 1); }
  }

  lemma FoldOfHits(isAnd: bool, vs: seq<Interval>, x: nat)
    requires vs != []
    ensures Fold(isAnd, Hits(vs, x)) == Weight(isAnd, vs, x)
  {
    hide Fold;
    var h := Hits(vs, x);
    if isAnd {
      FoldOfAnds(h);
      assert forall p :: 0 <= p < |vs| ==> (h[p] == 1 <==> vs[p].left <= x <= vs[p].right);
    } else {
      OrFoldOfBits(h);
    }
  }

  lemma BoxesExact(l: Layout, v: Interval, isPoint: bool)
    requires ValidLayout(l) && Inside(v, l) && (isPoint ==> v.left == v.right)
    ensures BoxesOf(l, v, isPoint) != [] && Exact(l, BoxesOf(l, v, isPoint), v.left, v.right)
  {
    hide Exact, RangeBoxes;
    if isPoint { PointExact(l, v.left); } else { RangeExact(l, v.left, v.right); }
  }

  // A group whose value on every row is the 0/1 answer of its predicate.
  ghost predicate AnswersAs(l: Layout, ms: seq<LeafMask>, buckets: seq<nat>, answer: nat -> bool)
  {
    && ValidLayout(l) && InDomain(buckets, l) && ms != [] && AllFit(ms, l)
    && forall r :: 0 <= r < |buckets| ==> PredPlain(l, ms, buckets)[r] == if answer(buckets[r]) then 1 else 0
  }

  /** Groups that answer as their intervals weigh every row as the query does. */
  lemma GroupsWeigh(l: Layout, vs: seq<Interval>, isAnd: bool, groups: seq<seq<LeafMask>>, buckets: seq<nat>)
    requires ValidLayout(l) && InDomain(buckets, l) && |groups| == |vs| > 0
    requires forall p :: 0 <= p < |vs| ==> AnswersAs(l, groups[p], buckets, x => vs[p].left <= x <= vs[p].right)
    ensures GroupsFit(groups, l) && FilterPlain(isAnd, l, groups, buckets) == Weights(isAnd, vs, buckets)
  {
    hide Buckets, PredPlain, Fold, Weight, AllFit;
    forall p | 0 <= p < |groups| ensures groups[p] != [] && AllFit(groups[p], l) {
      assert AnswersAs(l, groups[p], buckets, x => vs[p].left <= x <= vs[p].right);
    }
    forall r | 0 <= r < |buckets|
      ensures FilterPlain(isAnd, l, groups, buckets)[r] == Weight(isAnd, vs, buckets[r])
    {
      var column := Column(PredPlains(l, groups, buckets), r);
      forall p | 0 <= p < |vs| ensures column[p] == Hits(vs, buckets[r])[p] {
        assert AnswersAs(l, groups[p], buckets, x => vs[p].left <= x <= vs[p].right);
      }
      assert column == Hits(vs, buckets[r]);
      FoldOfHits(isAnd, vs, buckets[r]);
    }
  }

  // The masks of an emitted BO query.
  function MasksOf(l: Layout, es: seq<Emit<Box>>): (ms: seq<LeafMask>)
    ensures |ms| == |es|
  {
    BoxMasks(l, ItemsOf(es))
  }

  lemma PickMasks(l: Layout, es: seq<Emit<Box>>, ps: seq<nat>)
    requires forall k :: 0 <= k < |ps| ==> ps[k] < |es|
    ensures Pick(MasksOf(l, es), ps) == BoxMasks(l, Pick(ItemsOf(es), ps))
  {
    hide BoxMask;
  }

  /** The grouped leaves of a BO query weigh every row as the query does. */
  lemma EmittedMeaning(l: Layout, vs: seq<Interval>, isPoint: bool, isAnd: bool, buckets: seq<nat>)
    requires ValidLayout(l) && AllInside(vs, l) && InDomain(buckets, l) && vs != []
    requires isPoint ==> forall i :: 0 <= i < |vs| ==> vs[i].left == vs[i].right
    ensures
      var es := Emitted(BoxLists(l, vs, isPoint));
      && AllNonempty(BoxLists(l, vs, isPoint))
      && GroupsFit(MasksByPred(MasksOf(l, es), PredsOf(es)), l)
      && FilterPlain(isAnd, l, MasksByPred(MasksOf(l, es), PredsOf(es)), buckets) == Weights(isAnd, vs, buckets)
  {
    hide Buckets, BoxesOf, Emitted, Exact, Positions, TagCount, AnswersAs, Weights, FilterPlain, MasksOf, PredsOf,
      ItemsOf, GroupsFit, BoxMasks;
    var xss := BoxLists(l, vs, isPoint);
    var es := Emitted(xss);
    var groups := MasksByPred(MasksOf(l, es), PredsOf(es));
    forall p | 0 <= p < |vs|
      ensures xss[p] != [] && Exact(l, xss[p], vs[p].left, vs[p].right)
    {
      BoxesExact(l, vs[p], isPoint);
    }
    GroupsOfEmitted(xss, 0);
    forall p | 0 <= p < |vs| ensures AnswersAs(l, groups[p], buckets, x => vs[p].left <= x <= vs[p].right) {
      GroupsOfEmitted(xss, p);
      PickMasks(l, es, Positions(PredsOf(es), p));
      assert groups[p] == BoxMasks(l, xss[p]);
      BoxesAnswer(l, xss[p], vs[p].left, vs[p].right, buckets);
    }
    GroupsWeigh(l, vs, isAnd, groups, buckets);
  }

  lemma BoxesAnswer(l: Layout, boxes: seq<Box>, left: nat, right: nat, buckets: seq<nat>)
    requires ValidLayout(l) && InDomain(buckets, l) && boxes != [] && Exact(l, boxes, left, right)
    ensures AnswersAs(l, BoxMasks(l, boxes), buckets, x => left <= x <= right)
  {
    hide Exact, PredPlain, MaskFits, Buckets;
    forall k | 0 <= k < |boxes| ensures MaskFits(BoxMasks(l, boxes)[k], l) { BoxFits(l, boxes[k]); }
    forall r | 0 <= r < |buckets|
      ensures PredPlain(l, BoxMasks(l, boxes), buckets)[r] == if left <= buckets[r] <= right then 1 else 0
    {
      ExactPlain(l, boxes, left, right, buckets, r);
    }
  }

  lemma BoxFits(l: Layout, b: Box)
    ensures MaskFits(BoxMask(l, b), l)
  {
  }
}
