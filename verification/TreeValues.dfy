/** Aggregates of a left-filling tree: one append, runs of appends, and what every node ends up holding. */
module TreeValues {
  import opened Arith
  import opened TreeShape

  datatype AggFunc = Sum | Mx | Mn

  // -1 as an aggregate: no value here yet.
  const NO_VALUE: uint128 := R - 1

  function ComputeAggregate(a: uint128, b: uint128, f: AggFunc): uint128
  {
    if a == NO_VALUE then b
    else if b == NO_VALUE then a
    else match f
         case Sum => Add(a, b)
         case Mx => if a < b then b else a
         case Mn => if b < a then b else a
  }

  lemma LeafDepth(maxDepth: nat, n: nat)
    requires maxDepth >= 2 && First(maxDepth) <= n <= 2 * First(maxDepth)
    ensures DepthOf(n) == maxDepth - 1
  {
    DepthBelow(n, maxDepth - 1);
    DepthBelow(n, maxDepth);
  }

  // The aggregate of node h after the walk has come up to ch.
  ghost function SummedAt(maxDepth: nat, was: seq<uint128>, val: uint128, news: seq<uint128>, ch: nat, h: nat): uint128
    requires maxDepth >= 2 && h <= |was| && |news| == maxDepth - 1 && First(maxDepth) <= |was| <= 2 * First(maxDepth)
  {
    if h == |was| then val
    else if OnPath(|was|, h) && h >= ch then
      LeafDepth(maxDepth, |was|);
      PathDepth(|was|, h);
      news[maxDepth - 2 - DepthOf(h)]
    else was[h]
  }

  // Ancestors are less deep.
  lemma {:induction false} PathDepth(n: nat, h: nat)
    requires OnPath(n, h)
    ensures DepthOf(h) <= DepthOf(n) && (h != n ==> DepthOf(h) < DepthOf(n))
  {
    if h != n { PathDepth((n - 1) / 2, h); }
  }

  // Coming up one node changes the aggregate of that node only.
  lemma SummedSame(maxDepth: nat, was: seq<uint128>, val: uint128, news: seq<uint128>, ch: nat, h: nat)
    requires maxDepth >= 2 && h <= |was| && |news| == maxDepth - 1 && First(maxDepth) <= |was| <= 2 * First(maxDepth)
    requires 0 < ch && OnPath(|was|, ch) && h != (ch - 1) / 2
    ensures SummedAt(maxDepth, was, val, news, (ch - 1) / 2, h) == SummedAt(maxDepth, was, val, news, ch, h)
  {
    hide First;
    if OnPath(|was|, h) && h < ch { PathGap(|was|, ch, h); }
  }

  lemma SummedHere(maxDepth: nat, was: seq<uint128>, val: uint128, news: seq<uint128>, ch: nat)
    requires maxDepth >= 2 && ch <= |was| && |news| == maxDepth - 1 && First(maxDepth) <= |was| <= 2 * First(maxDepth)
    requires 0 < ch && OnPath(|was|, ch) && maxDepth - 1 >= DepthOf(ch)
    ensures SummedAt(maxDepth, was, val, news, (ch - 1) / 2, (ch - 1) / 2) == news[maxDepth - 1 - DepthOf(ch)]
  {
    hide First;
    PathUp(|was|, ch);
  }

  /** The aggregates after one append: the leaf's own, the given ones on its path, the old ones elsewhere. */
  ghost function PathAggs(maxDepth: nat, was: seq<uint128>, val: uint128, news: seq<uint128>): (r: seq<uint128>)
    requires maxDepth >= 2 && |news| == maxDepth - 1 && First(maxDepth) <= |was| <= 2 * First(maxDepth)
    ensures |r| == |was| + 1
  {
    seq<uint128>(|was| + 1, h requires 0 <= h <= |was| => SummedAt(maxDepth, was, val, news, 0, h))
  }

  lemma PathToSelf(n: nat)
    ensures OnPath(n, n)
  {
  }

  lemma ParentDepth(ch: nat)
    requires ch > 0
    ensures DepthOf(ch) == DepthOf((ch - 1) / 2) + 1
  {
  }

  // ----- runs of appends -----

  // The aggregates after appending a value to a plaintext tree: the path takes the value in.
  function PlainAggs(f: AggFunc, was: seq<uint128>, val: uint128): (r: seq<uint128>)
    ensures |r| == |was| + 1
  {
    seq<uint128>(|was| + 1, h requires 0 <= h <= |was| =>
      if h == |was| then val else if OnPath(|was|, h) then ComputeAggregate(was[h], val, f) else was[h])
  }

  function PlainRun(maxDepth: nat, f: AggFunc, vals: seq<uint128>): (r: seq<uint128>)
    requires maxDepth >= 2
    ensures |r| == First(maxDepth) + |vals|
  {
    if vals == [] then seq<uint128>(First(maxDepth), _ => NO_VALUE)
    else PlainAggs(f, PlainRun(maxDepth, f, vals[..|vals| - 1]), vals[|vals| - 1])
  }

  lemma EmptyRun(maxDepth: nat, f: AggFunc)
    requires maxDepth >= 2
    ensures PlainRun(maxDepth, f, []) == seq<uint128>(First(maxDepth), _ => NO_VALUE)
  {
  }

  lemma PlainRunSnoc(maxDepth: nat, f: AggFunc, vals: seq<uint128>, i: nat)
    requires maxDepth >= 2 && i < |vals|
    ensures PlainRun(maxDepth, f, vals[..i + 1]) == PlainAggs(f, PlainRun(maxDepth, f, vals[..i]), vals[i])
  {
    hide PlainAggs, First;
    assert vals[..i + 1][..i] == vals[..i];
  }

  // The values of `aggs` on the path of the next leaf, from its parent to the root.
  ghost predicate PathList(maxDepth: nat, aggs: seq<uint128>, list: seq<uint128>)
    requires maxDepth >= 2
  {
    && |list| == maxDepth - 1
    && forall h: nat :: h < |aggs| && OnPath(|aggs|, h) ==>
         DepthOf(h) <= maxDepth - 2 && list[maxDepth - 2 - DepthOf(h)] == aggs[h]
  }

  // The ancestor of a given depth.
  lemma {:induction false} AncestorAt(n: nat, d: nat) returns (h: nat)
    requires d < DepthOf(n)
    ensures h < n && OnPath(n, h) && DepthOf(h) == d
  {
    var p := (n - 1) / 2;
    if DepthOf(p) == d {
      h := p;
    } else {
      h := AncestorAt(p, d);
    }
  }

  // The list of a path is determined by the aggregates.
  lemma PathListUnique(maxDepth: nat, aggs: seq<uint128>, a: seq<uint128>, b: seq<uint128>)
    requires maxDepth >= 2 && DepthOf(|aggs|) == maxDepth - 1
    requires PathList(maxDepth, aggs, a) && PathList(maxDepth, aggs, b)
    ensures a == b
  {
    hide OnPath, DepthOf;
    forall i | 0 <= i < maxDepth - 1 ensures a[i] == b[i] {
      var h := AncestorAt(|aggs|, maxDepth - 2 - i);
    }
  }

  // The part of that list collected once the walk has come up to ch.
  ghost predicate PathPart(maxDepth: nat, aggs: seq<uint128>, list: seq<uint128>, ch: nat)
    requires maxDepth >= 2
  {
    && ch <= |aggs| && OnPath(|aggs|, ch) && |list| + DepthOf(ch) == maxDepth - 1
    && forall h: nat :: ch <= h < |aggs| && OnPath(|aggs|, h) ==>
         0 <= maxDepth - 2 - DepthOf(h) < |list| && list[maxDepth - 2 - DepthOf(h)] == aggs[h]
  }

  lemma PathPartStart(maxDepth: nat, aggs: seq<uint128>)
    requires maxDepth >= 2 && DepthOf(|aggs|) == maxDepth - 1
    ensures PathPart(maxDepth, aggs, [], |aggs|)
  {
  }

  lemma PathPartNext(maxDepth: nat, aggs: seq<uint128>, list: seq<uint128>, ch: nat)
    requires maxDepth >= 2 && PathPart(maxDepth, aggs, list, ch) && ch > 0
    ensures PathPart(maxDepth, aggs, list + [aggs[(ch - 1) / 2]], (ch - 1) / 2)
  {
    hide OnPath, DepthOf;
    var p := (ch - 1) / 2;
    PathUp(|aggs|, ch);
    ParentDepth(ch);
    forall h: nat | p < h < ch && OnPath(|aggs|, h) ensures false { PathGap(|aggs|, ch, h); }
  }

  lemma PathPartEnd(maxDepth: nat, aggs: seq<uint128>, list: seq<uint128>)
    requires maxDepth >= 2 && PathPart(maxDepth, aggs, list, 0)
    ensures PathList(maxDepth, aggs, list)
  {
    hide OnPath;
  }

  function Raised(f: AggFunc, was: seq<uint128>, val: uint128): (r: seq<uint128>)
    ensures |r| == |was|
  {
    seq<uint128>(|was|, i requires 0 <= i < |was| => ComputeAggregate(was[i], val, f))
  }

  lemma PathListLength(maxDepth: nat, aggs: seq<uint128>, list: seq<uint128>)
    requires maxDepth >= 2 && PathList(maxDepth, aggs, list)
    ensures |list| == maxDepth - 1
  {
  }

  lemma RaisedAt(f: AggFunc, was: seq<uint128>, val: uint128)
    ensures forall i :: 0 <= i < |was| ==> Raised(f, was, val)[i] == ComputeAggregate(was[i], val, f)
  {
  }

  // Taking the value in along the path is a plaintext append.
  lemma PathIsPlain(maxDepth: nat, f: AggFunc, was: seq<uint128>, val: uint128, news: seq<uint128>)
    requires maxDepth >= 2 && First(maxDepth) <= |was| <= 2 * First(maxDepth)
    requires PathList(maxDepth, Raised(f, was, val), news)
    ensures PathAggs(maxDepth, was, val, news) == PlainAggs(f, was, val)
  {
    hide First, OnPath, ComputeAggregate;
  }

  // Raising the path's values is taking the path of the raised values.
  lemma PathRaised(maxDepth: nat, f: AggFunc, was: seq<uint128>, val: uint128, parents: seq<uint128>)
    requires maxDepth >= 2 && PathList(maxDepth, was, parents)
    ensures PathList(maxDepth, Raised(f, was, val), Raised(f, parents, val))
  {
    hide OnPath, ComputeAggregate;
  }

  // ----- what a node holds -----

  function FoldAgg(f: AggFunc, vs: seq<uint128>): uint128
  {
    if vs == [] then NO_VALUE else ComputeAggregate(FoldAgg(f, vs[..|vs| - 1]), vs[|vs| - 1], f)
  }

  // The values under node h among the first |vals| leaves.
  function Below(maxDepth: nat, vals: seq<uint128>, h: nat): seq<uint128>
    requires maxDepth >= 1 && h <= 2 * First(maxDepth)
  {
    var lo, hi := Lo(First(maxDepth), h), Hi(First(maxDepth), h);
    var top := if hi < |vals| then hi else |vals|;
    if lo < top then vals[lo..top] else []
  }

  // One more value belongs to the nodes of its path only.
  lemma BelowSnoc(maxDepth: nat, vals: seq<uint128>, val: uint128, h: nat)
    requires maxDepth >= 1 && h <= 2 * First(maxDepth) && |vals| <= First(maxDepth)
    ensures Below(maxDepth, vals + [val], h)
         == Below(maxDepth, vals, h) + if OnPath(First(maxDepth) + |vals|, h) then [val] else []
  {
    hide First, OnPath;
    UnderIsOnPath(maxDepth, h, |vals|);
    Nonempty(maxDepth, h);
  }

  /** After any number of appends every node holds the fold of the values below it, the sentinel if there
      are none -- whatever the values are. */
  lemma {:induction false} RunIsFold(maxDepth: nat, f: AggFunc, vals: seq<uint128>, h: nat)
    requires maxDepth >= 2 && |vals| <= First(maxDepth) + 1 && h < First(maxDepth) + |vals|
    ensures PlainRun(maxDepth, f, vals)[h] == FoldAgg(f, Below(maxDepth, vals, h))
  {
    hide First, OnPath, Below, ComputeAggregate;
    if vals == [] {
      NothingBelow(maxDepth, h);
    } else {
      var init, val := vals[..|vals| - 1], vals[|vals| - 1];
      assert init + [val] == vals;
      BelowSnoc(maxDepth, init, val, h);
      var below := Below(maxDepth, init, h);
      assert (below + [val])[..|below|] == below;
      if h < First(maxDepth) + |init| {
        assert below + [] == below;
        RunIsFold(maxDepth, f, init, h);
      } else {
        NewLeafBelow(maxDepth, init, h);
        FoldOfOneValue(f, val);
        PathToSelf(h);
      }
    }
  }

  lemma NothingBelow(maxDepth: nat, h: nat)
    requires maxDepth >= 1 && h <= 2 * First(maxDepth)
    ensures Below(maxDepth, [], h) == []
  {
    hide First;
  }

  lemma NewLeafBelow(maxDepth: nat, vals: seq<uint128>, h: nat)
    requires maxDepth >= 1 && |vals| <= First(maxDepth) && h == First(maxDepth) + |vals|
    ensures Below(maxDepth, vals, h) == []
  {
    hide First;
  }

  lemma FoldOfOneValue(f: AggFunc, val: uint128)
    ensures FoldAgg(f, [val]) == val
  {
    assert [val][..0] == [];
  }
}
