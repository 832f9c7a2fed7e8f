/** Building a full tree at once (the second constructor of Tree.cpp): nodes are paired first in, first
    out, level by level. */
module BulkBuild {
  import opened Arith
  import opened Bits
  import opened TreeShape
  import opened TreeValues
  import opened AggTree

  // ----- what a paired node holds -----

  function BulkFields(maxDepth: nat, keys: seq<uint64>, h: nat): Fields
    requires maxDepth >= 1 && h <= 2 * First(maxDepth) && |keys| == First(maxDepth) + 1
  {
    var f := First(maxDepth);
    Nonempty(maxDepth, h);
    if h < f then
      Halves(maxDepth, h);
      Fields(keys[Lo(f, h)], keys[Hi(f, 2 * h + 1)], keys[Hi(f, h) - 1])
    else Fields(keys[Lo(f, h)], keys[Lo(f, h)], keys[Hi(f, h) - 1])
  }

  function BulkAgg(maxDepth: nat, f: AggFunc, vals: seq<uint128>, h: nat): uint128
    requires maxDepth >= 1 && h <= 2 * First(maxDepth) && |vals| == First(maxDepth) + 1
    decreases 2 * First(maxDepth) - h
  {
    if h >= First(maxDepth) then vals[h - First(maxDepth)]
    else ComputeAggregate(BulkAgg(maxDepth, f, vals, 2 * h + 1), BulkAgg(maxDepth, f, vals, 2 * h + 2), f)
  }

  // ----- agreement with appends -----

  function Total(vs: seq<uint128>): nat
  {
    if vs == [] then 0 else Total(vs[..|vs| - 1]) + vs[|vs| - 1]
  }

  lemma {:induction false} TotalOfConcat(a: seq<uint128>, b: seq<uint128>)
    ensures Total(a + b) == Total(a) + Total(b)
  {
    if b == [] {
      assert a + b == a;
    } else {
      TotalOfConcat(a, b[..|b| - 1]);
      assert (a + b)[..|a + b| - 1] == a + b[..|b| - 1];
    }
  }

  // Combining two sums takes an operand that looks like the sentinel for an absent one: the result is then
  // one more than the wrapped sum.
  function Met(a: uint128, b: uint128): nat { if a == NO_VALUE || b == NO_VALUE then 1 else 0 }

  lemma CombineSums(a: uint128, b: uint128)
    ensures ComputeAggregate(a, b, Sum) == ((a + b) + Met(a, b)) % R
  {
  }

  // How often that happens when the values are appended one by one.
  function FoldMet(vs: seq<uint128>): nat
  {
    if |vs| <= 1 then 0
    else FoldMet(vs[..|vs| - 1]) + Met(FoldAgg(Sum, vs[..|vs| - 1]), vs[|vs| - 1])
  }

  // How often it happens when nodes are paired.
  function BulkMet(maxDepth: nat, vals: seq<uint128>, h: nat): nat
    requires maxDepth >= 1 && h <= 2 * First(maxDepth) && |vals| == First(maxDepth) + 1
    decreases 2 * First(maxDepth) - h
  {
    if h >= First(maxDepth) then 0
    else BulkMet(maxDepth, vals, 2 * h + 1) + BulkMet(maxDepth, vals, 2 * h + 2)
         + Met(BulkAgg(maxDepth, Sum, vals, 2 * h + 1), BulkAgg(maxDepth, Sum, vals, 2 * h + 2))
  }

  lemma AddWrapped(x: int, y: int, m: int)
    ensures (x % R + y % R + m) % R == (x + y + m) % R
  {
    var p, q := x / R, y / R;
    assert x + y + m == x % R + y % R + m + R * (p + q);
    WrapMultiple(x % R + y % R + m, p + q);
  }

  lemma WrapMultiple(x: int, k: int)
    ensures (x + R * k) % R == x % R
  {
  }

  // Two sums, each with its count, combine to the sum with the counts added and one more if either is the
  // sentinel.
  lemma CombineTotals(x: uint128, t: int, m: int, y: uint128, u: int, n: int)
    requires x == (t + m) % R && y == (u + n) % R
    ensures ComputeAggregate(x, y, Sum) == (t + u + (m + n + Met(x, y))) % R
  {
    CombineSums(x, y);
    AddWrapped(t + m, u + n, Met(x, y));
  }

  /** Appending one by one leaves the wrapped sum of the values, and one more for every sentinel met. */
  lemma {:induction false} FoldTotal(vs: seq<uint128>)
    requires vs != []
    ensures FoldAgg(Sum, vs) == (Total(vs) + FoldMet(vs)) % R
  {
    hide ComputeAggregate, Met;
    var init, v := vs[..|vs| - 1], vs[|vs| - 1];
    if init == [] {
      assert vs == [v] && Total(init) == 0;
      FoldOfOneValue(Sum, v);
    } else {
      FoldTotal(init);
      CombineTotals(FoldAgg(Sum, init), Total(init), FoldMet(init), v, v, 0);
    }
  }

  // A full node covers a run of leaves.
  lemma FullBelow(maxDepth: nat, vals: seq<uint128>, h: nat)
    requires maxDepth >= 1 && h <= 2 * First(maxDepth) && |vals| == First(maxDepth) + 1
    ensures
      var f := First(maxDepth);
      && Lo(f, h) < Hi(f, h) <= |vals| && Below(maxDepth, vals, h) == vals[Lo(f, h)..Hi(f, h)]
      && (h < f ==> Below(maxDepth, vals, h) == Below(maxDepth, vals, 2 * h + 1) + Below(maxDepth, vals, 2 * h + 2)
                    && Below(maxDepth, vals, 2 * h + 1) != [] && Below(maxDepth, vals, 2 * h + 2) != [])
      && (h >= f ==> Below(maxDepth, vals, h) == [vals[h - f]])
  {
    hide First;
    Nonempty(maxDepth, h);
    if h < First(maxDepth) {
      Halves(maxDepth, h);
    }
  }

  lemma TotalOfOne(v: uint128)
    ensures Total([v]) == v
  {
    assert [v][..0] == [];
    assert Total([v]) == Total([v][..0]) + v;
  }

  /** Pairing leaves the wrapped sum of the values, and one more for every sentinel met. */
  lemma {:induction false} BulkTotal(maxDepth: nat, vals: seq<uint128>, h: nat)
    requires maxDepth >= 1 && h <= 2 * First(maxDepth) && |vals| == First(maxDepth) + 1
    ensures BulkAgg(maxDepth, Sum, vals, h) == (Total(Below(maxDepth, vals, h)) + BulkMet(maxDepth, vals, h)) % R
    decreases 2 * First(maxDepth) - h
  {
    hide First, Below, ComputeAggregate, Met, Total;
    FullBelow(maxDepth, vals, h);
    if h >= First(maxDepth) {
      TotalOfOne(vals[h - First(maxDepth)]);
    } else {
      var l, r := 2 * h + 1, 2 * h + 2;
      BulkTotal(maxDepth, vals, l);
      BulkTotal(maxDepth, vals, r);
      TotalOfConcat(Below(maxDepth, vals, l), Below(maxDepth, vals, r));
      CombineTotals(BulkAgg(maxDepth, Sum, vals, l), Total(Below(maxDepth, vals, l)), BulkMet(maxDepth, vals, l),
                    BulkAgg(maxDepth, Sum, vals, r), Total(Below(maxDepth, vals, r)), BulkMet(maxDepth, vals, r));
    }
  }

  // Maxima and minima combine in any grouping: the sentinel is neutral, and never the outcome of others.
  lemma CombineAssociates(f: AggFunc, a: uint128, b: uint128, c: uint128)
    requires f != Sum
    ensures ComputeAggregate(ComputeAggregate(a, b, f), c, f) == ComputeAggregate(a, ComputeAggregate(b, c, f), f)
  {
  }

  lemma {:induction false} FoldOfConcat(f: AggFunc, a: seq<uint128>, b: seq<uint128>)
    requires f != Sum
    ensures FoldAgg(f, a + b) == ComputeAggregate(FoldAgg(f, a), FoldAgg(f, b), f)
  {
    if b == [] {
      assert a + b == a;
    } else {
      hide ComputeAggregate;
      var init, v := b[..|b| - 1], b[|b| - 1];
      assert (a + b)[..|a + b| - 1] == a + init;
      FoldOfConcat(f, a, init);
      CombineAssociates(f, FoldAgg(f, a), FoldAgg(f, init), v);
    }
  }

  lemma {:induction false} BulkIsFold(maxDepth: nat, f: AggFunc, vals: seq<uint128>, h: nat)
    requires maxDepth >= 1 && h <= 2 * First(maxDepth) && |vals| == First(maxDepth) + 1 && f != Sum
    ensures BulkAgg(maxDepth, f, vals, h) == FoldAgg(f, Below(maxDepth, vals, h))
    decreases 2 * First(maxDepth) - h
  {
    hide First, Below, ComputeAggregate;
    FullBelow(maxDepth, vals, h);
    if h >= First(maxDepth) {
      FoldOfOneValue(f, vals[h - First(maxDepth)]);
    } else {
      BulkIsFold(maxDepth, f, vals, 2 * h + 1);
      BulkIsFold(maxDepth, f, vals, 2 * h + 2);
      FoldOfConcat(f, Below(maxDepth, vals, 2 * h + 1), Below(maxDepth, vals, 2 * h + 2));
    }
  }

  /** Bulk build against sequential appends, at every node and for all values. Maxima and minima always
      agree. Sums agree exactly when pairing and appending meet the sentinel equally often below the node,
      modulo 2^128. */
  lemma BulkAgreesWithAppends(maxDepth: nat, f: AggFunc, vals: seq<uint128>, h: nat)
    requires maxDepth >= 2 && h <= 2 * First(maxDepth) && |vals| == First(maxDepth) + 1
    ensures BulkAgg(maxDepth, f, vals, h) == PlainRun(maxDepth, f, vals)[h]
            <==> f != Sum || BulkMet(maxDepth, vals, h) % R == FoldMet(Below(maxDepth, vals, h)) % R
  {
    hide First, Below, BulkAgg, PlainRun, BulkMet, FoldMet, Total, FoldAgg;
    RunIsFold(maxDepth, f, vals, h);
    if f != Sum {
      BulkIsFold(maxDepth, f, vals, h);
    } else {
      FullBelow(maxDepth, vals, h);
      var below := Below(maxDepth, vals, h);
      BulkTotal(maxDepth, vals, h);
      FoldTotal(below);
      CancelTotal(Total(below), BulkMet(maxDepth, vals, h), FoldMet(below));
    }
  }

  lemma CancelTotal(t: int, a: int, b: int)
    ensures (t + a) % R == (t + b) % R <==> a % R == b % R
  {
    AddWrapped(t, a, 0);
    AddWrapped(t, b, 0);
    AddWrapped(t + a, -t, 0);
    AddWrapped(t + b, -t, 0);
    if (t + a) % R == (t + b) % R {
      assert (t + a) + -t + 0 == a && (t + b) + -t + 0 == b;
    }
  }

  // No run of neighbouring values adds up to what looks like the sentinel.
  ghost predicate Unmistaken(vs: seq<uint128>)
  {
    forall i, j :: 0 <= i < j <= |vs| ==> Total(vs[i..j]) % R != NO_VALUE
  }

  lemma SliceOfSlice<T>(s: seq<T>, lo: nat, hi: nat, i: nat, j: nat)
    requires lo <= hi <= |s| && i <= j <= hi - lo
    ensures s[lo..hi][i..j] == s[lo + i..lo + j]
  {
    var a, b := s[lo..hi][i..j], s[lo + i..lo + j];
    forall k | 0 <= k < j - i ensures a[k] == b[k] {
      assert a[k] == s[lo..hi][i + k] == s[lo + i + k];
    }
  }

  lemma UnmistakenPart(vs: seq<uint128>, lo: nat, hi: nat)
    requires lo <= hi <= |vs| && Unmistaken(vs)
    ensures Unmistaken(vs[lo..hi])
  {
    forall i, j | 0 <= i < j <= hi - lo ensures Total(vs[lo..hi][i..j]) % R != NO_VALUE {
      SliceOfSlice(vs, lo, hi, i, j);
    }
  }

  lemma UnmistakenWhole(vs: seq<uint128>)
    requires vs != [] && Unmistaken(vs)
    ensures Total(vs) % R != NO_VALUE
  {
    assert vs[0..|vs|] == vs;
  }

  lemma {:induction false} FoldUnmistaken(vs: seq<uint128>)
    requires vs != [] && Unmistaken(vs)
    ensures FoldMet(vs) == 0
  {
    hide Unmistaken, Total;
    var n := |vs| - 1;
    var init, v := vs[..n], vs[n];
    if n > 0 {
      UnmistakenPart(vs, 0, n);
      UnmistakenPart(vs, n, n + 1);
      assert vs[0..n] == init && vs[n..n + 1] == [v];
      FoldUnmistaken(init);
      FoldTotal(init);
      UnmistakenWhole(init);
      UnmistakenWhole([v]);
      TotalOfOne(v);
    }
  }

  lemma {:induction false} BulkUnmistaken(maxDepth: nat, vals: seq<uint128>, h: nat)
    requires maxDepth >= 1 && h <= 2 * First(maxDepth) && |vals| == First(maxDepth) + 1
    requires Unmistaken(Below(maxDepth, vals, h))
    ensures BulkMet(maxDepth, vals, h) == 0
    decreases 2 * First(maxDepth) - h
  {
    hide First, Below, Unmistaken, Total, BulkAgg;
    FullBelow(maxDepth, vals, h);
    if h < First(maxDepth) {
      var l, r := 2 * h + 1, 2 * h + 2;
      var a, b, ab := Below(maxDepth, vals, l), Below(maxDepth, vals, r), Below(maxDepth, vals, h);
      assert ab[0..|a|] == a && ab[|a|..|ab|] == b;
      UnmistakenPart(ab, 0, |a|);
      UnmistakenPart(ab, |a|, |ab|);
      BulkUnmistaken(maxDepth, vals, l);
      BulkUnmistaken(maxDepth, vals, r);
      BulkTotal(maxDepth, vals, l);
      BulkTotal(maxDepth, vals, r);
      UnmistakenWhole(a);
      UnmistakenWhole(b);
    }
  }

  /** When no run of neighbouring values below a node adds up to the sentinel, both ways of building leave
      the wrapped sum there. */
  lemma SumsAgree(maxDepth: nat, vals: seq<uint128>, h: nat)
    requires maxDepth >= 2 && h <= 2 * First(maxDepth) && |vals| == First(maxDepth) + 1
    requires Unmistaken(Below(maxDepth, vals, h))
    ensures BulkAgg(maxDepth, Sum, vals, h) == PlainRun(maxDepth, Sum, vals)[h] == Total(Below(maxDepth, vals, h)) % R
  {
    hide First, Below, BulkAgg, PlainRun, BulkMet, FoldMet, Total, FoldAgg, Unmistaken;
    FullBelow(maxDepth, vals, h);
    RunIsFold(maxDepth, Sum, vals, h);
    BulkTotal(maxDepth, vals, h);
    BulkUnmistaken(maxDepth, vals, h);
    FoldTotal(Below(maxDepth, vals, h));
    FoldUnmistaken(Below(maxDepth, vals, h));
  }

  // Where they part: appending 1, 5, 2^128 - 7, 3 meets the sentinel after the third value; pairing never does.
  lemma SumsPart()
    ensures
      var vals: seq<uint128> := [1, 5, R - 7, 3];
      First(3) == 3 && BulkAgg(3, Sum, vals, 0) == 2 && PlainRun(3, Sum, vals)[0] == 3
  {
    hide PlainRun, FoldAgg, Below, BulkAgg, First;
    var vals: seq<uint128> := [1, 5, R - 7, 3];
    ThreeAboveLeaves();
    RunIsFold(3, Sum, vals, 0);
    AllBelowRoot(3, vals);
    FoldOfFour(1, 5, R - 7, 3);
    PairsOfFour(vals);
  }

  lemma ThreeAboveLeaves()
    ensures First(3) == 3
  {
    assert Pow2(0) == 1 && Pow2(1) == 2;
  }

  lemma PairsOfFour(vals: seq<uint128>)
    requires vals == [1, 5, R - 7, 3] && First(3) == 3
    ensures BulkAgg(3, Sum, vals, 0) == 2
  {
    hide First, BulkAgg;
    LeafPair(vals, 1);
    LeafPair(vals, 2);
    BulkAggAt(3, Sum, vals, 0);
  }

  lemma LeafPair(vals: seq<uint128>, h: nat)
    requires |vals| == 4 && First(3) == 3 && 1 <= h <= 2
    ensures BulkAgg(3, Sum, vals, h) == ComputeAggregate(vals[2 * h - 2], vals[2 * h - 1], Sum)
  {
    hide First, BulkAgg, ComputeAggregate;
    BulkAggAt(3, Sum, vals, h);
    BulkAggAt(3, Sum, vals, 2 * h + 1);
    BulkAggAt(3, Sum, vals, 2 * h + 2);
  }

  lemma BulkAggAt(maxDepth: nat, f: AggFunc, vals: seq<uint128>, h: nat)
    requires maxDepth >= 1 && h <= 2 * First(maxDepth) && |vals| == First(maxDepth) + 1
    ensures BulkAgg(maxDepth, f, vals, h)
         == if h >= First(maxDepth) then vals[h - First(maxDepth)]
            else ComputeAggregate(BulkAgg(maxDepth, f, vals, 2 * h + 1), BulkAgg(maxDepth, f, vals, 2 * h + 2), f)
  {
    hide First;
  }

  lemma AllBelowRoot(maxDepth: nat, vals: seq<uint128>)
    requires maxDepth >= 1 && |vals| == First(maxDepth) + 1
    ensures Below(maxDepth, vals, 0) == vals
  {
    hide First;
    RootCovers(maxDepth);
  }

  lemma FoldOfFour(a: uint128, b: uint128, c: uint128, d: uint128)
    ensures FoldAgg(Sum, [a, b, c, d])
         == ComputeAggregate(ComputeAggregate(ComputeAggregate(a, b, Sum), c, Sum), d, Sum)
  {
    hide ComputeAggregate;
    FoldOfOneValue(Sum, a);
    assert [a, b, c, d][..3] == [a, b, c] && [a, b, c][..2] == [a, b] && [a, b][..1] == [a];
    assert FoldAgg(Sum, [a, b]) == ComputeAggregate(a, b, Sum);
    assert FoldAgg(Sum, [a, b, c]) == ComputeAggregate(ComputeAggregate(a, b, Sum), c, Sum);
  }

  // The smallest value, or the largest one that is not the sentinel -- the sentinel when there is none.
  ghost predicate IsExtreme(f: AggFunc, vs: seq<uint128>, r: uint128)
  {
    && r in vs
    && forall i :: 0 <= i < |vs| ==> if f == Mn then r <= vs[i] else vs[i] == NO_VALUE || (r != NO_VALUE && vs[i] <= r)
  }

  lemma ExtremeSnoc(f: AggFunc, init: seq<uint128>, v: uint128, r: uint128)
    requires f != Sum && IsExtreme(f, init, r)
    ensures IsExtreme(f, init + [v], ComputeAggregate(r, v, f))
  {
    var vs, x := init + [v], ComputeAggregate(r, v, f);
    assert x in vs by {
      var i :| 0 <= i < |init| && init[i] == r;
      assert vs[i] == r && vs[|init|] == v;
    }
  }

  /** What appending leaves for maxima and minima. */
  lemma {:induction false} FoldIsExtreme(f: AggFunc, vs: seq<uint128>)
    requires vs != [] && f != Sum
    ensures IsExtreme(f, vs, FoldAgg(f, vs))
  {
    var init, v := vs[..|vs| - 1], vs[|vs| - 1];
    if init == [] {
      assert vs == [v];
      FoldOfOneValue(f, v);
    } else {
      hide IsExtreme, ComputeAggregate;
      FoldIsExtreme(f, init);
      ExtremeSnoc(f, init, v, FoldAgg(f, init));
      assert init + [v] == vs;
    }
  }

  /** Index fields of a full tree over increasing keys, built either way: the first and last index of every
      node agree; the middle one agrees at leaves, at parents of leaves, and elsewhere exactly when the
      right half's first key follows the left half's last one immediately. */
  lemma BulkFieldsAgree(maxDepth: nat, keys: seq<Key>, h: nat)
    requires maxDepth >= 2 && h <= 2 * First(maxDepth) && |keys| == First(maxDepth) + 1
    requires forall i, j :: 0 <= i < j < |keys| ==> keys[i] < keys[j]
    ensures
      var b, a := BulkFields(maxDepth, keys, h), FieldsOf(maxDepth, keys, h);
      && b.left == a.left && b.right == a.right
      && (2 * h + 1 >= First(maxDepth) ==> b.mid == a.mid)
      && (2 * h + 1 < First(maxDepth) ==>
           Lo(First(maxDepth), h) < Hi(First(maxDepth), 2 * h + 1) < |keys|
           && (b.mid == a.mid <==>
                keys[Hi(First(maxDepth), 2 * h + 1)] == keys[Hi(First(maxDepth), 2 * h + 1) - 1] + 1))
  {
    hide First;
    Nonempty(maxDepth, h);
    if h < First(maxDepth) {
      FirstIsOdd(maxDepth);
      Halves(maxDepth, h);
    }
  }

  // ----- pairing nodes, first in, first out -----

  // The nodes built so far, by heap number.
  type Cells = map<nat, Node>

  // A node's fields at one moment.
  datatype Snap = Snap(depth: nat, idx: Fields, agg: uint128, up: Node?, left: Node?, right: Node?)

  ghost function SnapOf(n: Node): Snap
    reads n
  {
    Snap(n.depth, n.Idx(), n.aggVal, n.parent, n.leftChild, n.rightChild)
  }

  // One finished node: its own fields, its children, and its parent once that exists.
  ghost predicate CellOk(m: Cells, snaps: map<nat, Snap>, maxDepth: nat, f: AggFunc, keys: seq<uint64>,
                         vals: seq<uint128>, h: nat)
    requires maxDepth >= 1 && |keys| == |vals| == First(maxDepth) + 1 && h in m && h in snaps
  {
    && h <= 2 * First(maxDepth)
    && snaps[h].depth == DepthOf(h) && snaps[h].idx == BulkFields(maxDepth, keys, h)
    && snaps[h].agg == BulkAgg(maxDepth, f, vals, h)
    && (if h < First(maxDepth) then
          && 2 * h + 1 in m && 2 * h + 2 in m
          && snaps[h].left == m[2 * h + 1] && snaps[h].right == m[2 * h + 2]
        else snaps[h].left == null && snaps[h].right == null)
    && snaps[h].up == (if h > 0 && (h - 1) / 2 in m then m[(h - 1) / 2] else null)
  }

  ghost predicate OneToOne(m: Cells)
  {
    forall a, b :: a in m && b in m && a != b ==> m[a] != m[b]
  }

  // The fields of all finished nodes.
  ghost predicate Consistent(m: Cells, snaps: map<nat, Snap>, maxDepth: nat, f: AggFunc, keys: seq<uint64>,
                             vals: seq<uint128>)
    requires maxDepth >= 1 && |keys| == |vals| == First(maxDepth) + 1
  {
    && m.Keys == snaps.Keys
    && forall h {:trigger CellOk(m, snaps, maxDepth, f, keys, vals, h)} :: h in m ==>
         CellOk(m, snaps, maxDepth, f, keys, vals, h)
  }

  ghost predicate Shows(m: Cells, snaps: map<nat, Snap>)
    reads m.Values
  {
    m.Keys == snaps.Keys && OneToOne(m) && forall h :: h in m ==> SnapOf(m[h]) == snaps[h]
  }

  lemma BulkFieldsUp(maxDepth: nat, keys: seq<uint64>, p: nat)
    requires maxDepth >= 1 && p < First(maxDepth) && |keys| == First(maxDepth) + 1
    ensures
      var l, r := BulkFields(maxDepth, keys, 2 * p + 1), BulkFields(maxDepth, keys, 2 * p + 2);
      BulkFields(maxDepth, keys, p) == Fields(l.left, r.left, r.right)
  {
    hide First;
    Halves(maxDepth, p);
  }

  // The fields after making a parent of two neighbours.
  ghost function Paired(snaps: map<nat, Snap>, parent: Node, f: AggFunc, left: Node, right: Node,
                        p: nat): map<nat, Snap>
    requires 2 * p + 1 in snaps && 2 * p + 2 in snaps && snaps[2 * p + 1].depth > 0
  {
    var l, r := snaps[2 * p + 1], snaps[2 * p + 2];
    snaps[2 * p + 1 := l.(up := parent)][2 * p + 2 := r.(up := parent)]
      [p := Snap(l.depth - 1, Fields(l.idx.left, r.idx.left, r.idx.right), ComputeAggregate(l.agg, r.agg, f), null,
                 left, right)]
  }

  lemma PairedConsistent(m: Cells, snaps: map<nat, Snap>, maxDepth: nat, f: AggFunc, keys: seq<uint64>,
                         vals: seq<uint128>,
                         parent: Node, p: nat)
    requires maxDepth >= 1 && |keys| == |vals| == First(maxDepth) + 1 && Consistent(m, snaps, maxDepth, f, keys, vals)
    requires p !in m && p < First(maxDepth) && (p > 0 ==> (p - 1) / 2 !in m) && 2 * p + 1 in m && 2 * p + 2 in m
    ensures snaps[2 * p + 1].depth > 0
    ensures Consistent(m[p := parent], Paired(snaps, parent, f, m[2 * p + 1], m[2 * p + 2], p), maxDepth, f, keys, vals)
  {
    hide First, BulkFields, BulkAgg, DepthOf, ComputeAggregate, CellOk;
    assert CellOk(m, snaps, maxDepth, f, keys, vals, 2 * p + 1) && CellOk(m, snaps, maxDepth, f, keys, vals, 2 * p + 2);
    ParentOk(m, snaps, maxDepth, f, keys, vals, parent, p);
    var m', snaps' := m[p := parent], Paired(snaps, parent, f, m[2 * p + 1], m[2 * p + 2], p);
    forall h | h in m' ensures CellOk(m', snaps', maxDepth, f, keys, vals, h) {
      if h != p {
        assert CellOk(m, snaps, maxDepth, f, keys, vals, h);
        OtherOk(m, snaps, maxDepth, f, keys, vals, parent, p, h);
      }
    }
  }

  lemma ParentOk(m: Cells, snaps: map<nat, Snap>, maxDepth: nat, f: AggFunc, keys: seq<uint64>, vals: seq<uint128>,
                 parent: Node, p: nat)
    requires maxDepth >= 1 && |keys| == |vals| == First(maxDepth) + 1 && m.Keys == snaps.Keys
    requires p !in m && p < First(maxDepth) && (p > 0 ==> (p - 1) / 2 !in m) && 2 * p + 1 in m && 2 * p + 2 in m
    requires CellOk(m, snaps, maxDepth, f, keys, vals, 2 * p + 1)
             && CellOk(m, snaps, maxDepth, f, keys, vals, 2 * p + 2)
    ensures snaps[2 * p + 1].depth > 0
    ensures CellOk(m[p := parent], Paired(snaps, parent, f, m[2 * p + 1], m[2 * p + 2], p), maxDepth, f, keys, vals, p)
  {
    hide First, BulkFields, BulkAgg, DepthOf, ComputeAggregate;
    ChildDepths(p);
    BulkFieldsUp(maxDepth, keys, p);
    BulkAggUp(maxDepth, f, vals, p);
  }

  lemma OtherOk(m: Cells, snaps: map<nat, Snap>, maxDepth: nat, f: AggFunc, keys: seq<uint64>, vals: seq<uint128>,
                parent: Node, p: nat, h: nat)
    requires maxDepth >= 1 && |keys| == |vals| == First(maxDepth) + 1 && m.Keys == snaps.Keys && h in m
    requires p !in m && 2 * p + 1 in m && 2 * p + 2 in m && snaps[2 * p + 1].depth > 0
    requires CellOk(m, snaps, maxDepth, f, keys, vals, h)
    ensures CellOk(m[p := parent], Paired(snaps, parent, f, m[2 * p + 1], m[2 * p + 2], p), maxDepth, f, keys, vals, h)
  {
    hide First, BulkFields, BulkAgg, DepthOf, ComputeAggregate;
    IsChildOf(h, p);
  }

  // Once the two neighbours point to their new parent, and the others are as they were, the fields are the
  // paired ones.
  lemma PairedShows(m: Cells, snaps: map<nat, Snap>, parent: Node, f: AggFunc, p: nat)
    requires m.Keys == snaps.Keys && OneToOne(m) && p !in m && 2 * p + 1 in m && 2 * p + 2 in m
    requires snaps[2 * p + 1].depth > 0 && parent !in m.Values
    requires forall h :: h in m && h != 2 * p + 1 && h != 2 * p + 2 ==> SnapOf(m[h]) == snaps[h]
    requires SnapOf(m[2 * p + 1]) == snaps[2 * p + 1].(up := parent)
    requires SnapOf(m[2 * p + 2]) == snaps[2 * p + 2].(up := parent)
    requires SnapOf(parent) == Paired(snaps, parent, f, m[2 * p + 1], m[2 * p + 2], p)[p]
    ensures Shows(m[p := parent], Paired(snaps, parent, f, m[2 * p + 1], m[2 * p + 2], p))
  {
    hide ComputeAggregate, SnapOf;
  }

  // A new node over two others.
  method Join(left: Node, right: Node, aggFunc: AggFunc) returns (parent: Node)
    requires left != right && left.depth > 0
    modifies left`parent, right`parent
    ensures fresh(parent)
    ensures SnapOf(left) == old(SnapOf(left)).(up := parent) && SnapOf(right) == old(SnapOf(right)).(up := parent)
    ensures SnapOf(parent)
         == Snap(left.depth - 1, Fields(left.leftIdx, right.leftIdx, right.rightIdx),
                 ComputeAggregate(left.aggVal, right.aggVal, aggFunc), null, left, right)
  {
    hide ComputeAggregate;
    parent := new Node(left.leftIdx, ComputeAggregate(left.aggVal, right.aggVal, aggFunc), null, left.depth - 1);
    parent.midIdx := right.leftIdx;
    parent.rightIdx := right.rightIdx;
    left.parent := parent;
    right.parent := parent;
    parent.leftChild := left;
    parent.rightChild := right;
  }

  // Makes the parent of two neighbours.
  method PairUp(left: Node, right: Node, aggFunc: AggFunc, ghost m: Cells, ghost snaps: map<nat, Snap>, ghost p: nat)
    returns (parent: Node)
    requires Shows(m, snaps) && p !in m && 2 * p + 1 in m && 2 * p + 2 in m && left == m[2 * p + 1]
             && right == m[2 * p + 2]
    requires snaps[2 * p + 1].depth > 0
    modifies left`parent, right`parent
    ensures fresh(parent) && Shows(m[p := parent], Paired(snaps, parent, aggFunc, left, right, p))
  {
    hide ComputeAggregate, Shows, OneToOne;
    ShownAt(m, snaps, 2 * p + 1);
    ShownAt(m, snaps, 2 * p + 2);
    ShownApart(m, snaps, 2 * p + 1, 2 * p + 2);
    parent := Join(left, right, aggFunc);
    PairedShows(m, snaps, parent, aggFunc, p);
  }

  lemma ShownAt(m: Cells, snaps: map<nat, Snap>, h: nat)
    requires Shows(m, snaps) && h in m
    ensures h in snaps && SnapOf(m[h]) == snaps[h]
  {
  }

  lemma ShownApart(m: Cells, snaps: map<nat, Snap>, a: nat, b: nat)
    requires Shows(m, snaps) && a in m && b in m && a != b
    ensures m.Keys == snaps.Keys && OneToOne(m) && m[a] != m[b]
    ensures forall h :: h in m && h != a && h != b ==> m[h] != m[a] && m[h] != m[b] && SnapOf(m[h]) == snaps[h]
  {
    hide SnapOf;
  }

  lemma IsChildOf(h: nat, p: nat)
    ensures h > 0 && (h - 1) / 2 == p <==> h == 2 * p + 1 || h == 2 * p + 2
  {
  }

  lemma BulkAggUp(maxDepth: nat, f: AggFunc, vals: seq<uint128>, p: nat)
    requires maxDepth >= 1 && p < First(maxDepth) && |vals| == First(maxDepth) + 1
    ensures BulkAgg(maxDepth, f, vals, p)
         == ComputeAggregate(BulkAgg(maxDepth, f, vals, 2 * p + 1), BulkAgg(maxDepth, f, vals, 2 * p + 2), f)
  {
  }

  // Which nodes exist while the parents start .. 2 start of one level are being made, up to p.
  ghost predicate Built(m: Cells, f: nat, start: nat, p: nat)
  {
    forall h: nat :: h in m <==> (2 * start + 1 <= h <= 2 * f || start <= h < p)
  }

  // The queue: the children not yet paired, then the parents already made.
  function QueueAt(start: nat, p: nat, t: nat): nat
    requires start <= p <= 2 * start + 1
  {
    var left := 2 * (2 * start + 1 - p);
    if t < left then 2 * p + 1 + t else start + (t - left)
  }

  ghost predicate Queue(next: seq<Node>, m: Cells, start: nat, p: nat)
  {
    && start <= p <= 2 * start + 1 && |next| == 2 * (2 * start + 1 - p) + (p - start)
    && forall t: nat :: t < |next| ==> QueueAt(start, p, t) in m && next[t] == m[QueueAt(start, p, t)]
  }

  // One pairing: two nodes leave the front, their parent joins the back.
  lemma QueueStep(next: seq<Node>, m: Cells, f: nat, start: nat, p: nat, x: Node)
    requires Queue(next, m, start, p) && Built(m, f, start, p) && p < 2 * start + 1 <= f
    ensures |next| >= 2 && p !in m && 2 * p + 1 in m && 2 * p + 2 in m && (p > 0 ==> (p - 1) / 2 !in m)
    ensures next[0] == m[2 * p + 1] && next[1] == m[2 * p + 2]
    ensures Queue(next[2..] + [x], m[p := x], start, p + 1) && Built(m[p := x], f, start, p + 1)
  {
    assert QueueAt(start, p, 0) == 2 * p + 1 && QueueAt(start, p, 1) == 2 * p + 2;
    var next', m' := next[2..] + [x], m[p := x];
    forall t: nat | t < |next'| ensures QueueAt(start, p + 1, t) in m' && next'[t] == m'[QueueAt(start, p + 1, t)] {
      if t < |next| - 2 {
        assert QueueAt(start, p + 1, t) == QueueAt(start, p, t + 2);
        assert next'[t] == next[t + 2];
      } else {
        assert QueueAt(start, p + 1, t) == p;
      }
    }
  }

  // A level is done: its nodes are the children of the next one.
  lemma QueueRoll(next: seq<Node>, m: Cells, f: nat, start: nat)
    requires Queue(next, m, start, 2 * start + 1) && Built(m, f, start, 2 * start + 1) && start % 2 == 1 && start <= f
    ensures Queue(next, m, (start - 1) / 2, (start - 1) / 2) && Built(m, f, (start - 1) / 2, (start - 1) / 2)
  {
    var s := (start - 1) / 2;
    forall t: nat | t < |next| ensures QueueAt(s, s, t) in m && next[t] == m[QueueAt(s, s, t)] {
      assert QueueAt(s, s, t) == QueueAt(start, 2 * start + 1, t);
    }
  }

  // The leaves, in order.
  method MakeLeaves(maxDepth: nat, keys: seq<uint64>, vals: seq<uint128>) returns (next: seq<Node>)
    requires maxDepth >= 1 && |keys| == |vals|
    ensures |next| == |keys| && Distinct(next)
    ensures forall t :: 0 <= t < |next| ==>
              fresh(next[t])
              && SnapOf(next[t]) == Snap(maxDepth - 1, Fields(keys[t], keys[t], keys[t]), vals[t], null, null, null)
  {
    next := [];
    var i := 0;
    while i < |keys|
      invariant 0 <= i <= |keys| && |next| == i && Distinct(next)
      invariant forall t :: 0 <= t < i ==>
                  fresh(next[t])
                  && SnapOf(next[t]) == Snap(maxDepth - 1, Fields(keys[t], keys[t], keys[t]), vals[t], null, null, null)
    {
      var leaf := new Node(keys[i], vals[i], null, maxDepth - 1);
      next := next + [leaf];
      i := i + 1;
    }
  }

  ghost function Span(f: nat, n: nat): (r: set<nat>)
    ensures forall h :: h in r <==> f <= h < f + n
  {
    if n == 0 then {} else Span(f, n - 1) + {f + n - 1}
  }

  ghost function LeafCells(next: seq<Node>, f: nat): (m: Cells)
  {
    map h | h in Span(f, |next|) :: next[h - f]
  }

  ghost function LeafSnaps(maxDepth: nat, keys: seq<uint64>, vals: seq<uint128>): map<nat, Snap>
    requires maxDepth >= 1 && |keys| == |vals| == First(maxDepth) + 1
  {
    var f := First(maxDepth);
    map h | h in Span(f, |keys|) :: Snap(maxDepth - 1, Fields(keys[h - f], keys[h - f], keys[h - f]), vals[h - f], null,
                                         null, null)
  }

  lemma LeafCellsAre(next: seq<Node>, f: nat)
    ensures forall h: nat :: h in LeafCells(next, f) <==> f <= h < f + |next|
    ensures forall h: nat :: h in LeafCells(next, f) ==> LeafCells(next, f)[h] == next[h - f]
  {
  }

  // The leaves alone are consistent.
  lemma LeavesConsistent(next: seq<Node>, maxDepth: nat, f: AggFunc, keys: seq<uint64>, vals: seq<uint128>)
    requires maxDepth >= 1 && |next| == |keys| == |vals| == First(maxDepth) + 1
    ensures Consistent(LeafCells(next, First(maxDepth)), LeafSnaps(maxDepth, keys, vals), maxDepth, f, keys, vals)
  {
    hide First, BulkFields, BulkAgg, DepthOf;
    var m, snaps := LeafCells(next, First(maxDepth)), LeafSnaps(maxDepth, keys, vals);
    forall h | h in m ensures CellOk(m, snaps, maxDepth, f, keys, vals, h) {
      LeafCell(maxDepth, f, keys, vals, h);
    }
  }

  lemma LeafCell(maxDepth: nat, f: AggFunc, keys: seq<uint64>, vals: seq<uint128>, h: nat)
    requires maxDepth >= 1 && |keys| == |vals| == First(maxDepth) + 1 && First(maxDepth) <= h <= 2 * First(maxDepth)
    ensures DepthOf(h) == maxDepth - 1 && BulkAgg(maxDepth, f, vals, h) == vals[h - First(maxDepth)]
    ensures
      var k := keys[h - First(maxDepth)];
      BulkFields(maxDepth, keys, h) == Fields(k, k, k)
    ensures h > 0 ==> (h - 1) / 2 < First(maxDepth)
  {
    DepthBelow(h, maxDepth - 1);
    DepthBelow(h, maxDepth);
  }

  // The tree the queue ends with.
  ghost predicate BulkTree(root: Node, at: seq<Node>, maxDepth: nat, f: AggFunc, keys: seq<uint64>, vals: seq<uint128>)
    requires maxDepth >= 1 && |keys| == |vals| == First(maxDepth) + 1
    reads at
  {
    && |at| == 2 * First(maxDepth) + 1 && at[0] == root && Distinct(at) && AllLinked(at)
    && forall h :: 0 <= h < |at| ==>
         at[h].Idx() == BulkFields(maxDepth, keys, h) && at[h].aggVal == BulkAgg(maxDepth, f, vals, h)
  }

  lemma ReadOff(m: Cells, snaps: map<nat, Snap>, maxDepth: nat, f: AggFunc, keys: seq<uint64>, vals: seq<uint128>,
                at: seq<Node>)
    requires maxDepth >= 1 && |keys| == |vals| == First(maxDepth) + 1
    requires Shows(m, snaps) && Consistent(m, snaps, maxDepth, f, keys, vals) && Built(m, First(maxDepth), 0, 1)
    requires |at| == 2 * First(maxDepth) + 1 && forall h :: 0 <= h < |at| ==> h in m && at[h] == m[h]
    ensures BulkTree(m[0], at, maxDepth, f, keys, vals)
  {
    hide First, BulkFields, BulkAgg, DepthOf;
    forall h | 0 <= h < |at|
      ensures Linked(at, h) && at[h].Idx() == BulkFields(maxDepth, keys, h)
              && at[h].aggVal == BulkAgg(maxDepth, f, vals, h)
    {
      assert CellOk(m, snaps, maxDepth, f, keys, vals, h) && SnapOf(m[h]) == snaps[h];
    }
  }

  lemma LeavesShown(next: seq<Node>, maxDepth: nat, keys: seq<uint64>, vals: seq<uint128>)
    requires maxDepth >= 1 && |next| == |keys| == |vals| == First(maxDepth) + 1 && Distinct(next)
    requires forall t :: 0 <= t < |next| ==>
               SnapOf(next[t]) == Snap(maxDepth - 1, Fields(keys[t], keys[t], keys[t]), vals[t], null, null, null)
    ensures Shows(LeafCells(next, First(maxDepth)), LeafSnaps(maxDepth, keys, vals))
  {
    hide First, SnapOf;
    var m := LeafCells(next, First(maxDepth));
    forall a, b | a in m && b in m && a != b ensures m[a] != m[b] {
      if a < b { assert next[a - First(maxDepth)] != next[b - First(maxDepth)]; }
      else { assert next[b - First(maxDepth)] != next[a - First(maxDepth)]; }
    }
  }

  // Where pairing starts: at the level above the leaves, if there is one.
  lemma LevelAbove(maxDepth: nat, next: seq<Node>) returns (start: nat, p: nat)
    requires maxDepth >= 1 && |next| == First(maxDepth) + 1
    ensures
      var f := First(maxDepth);
      && Queue(next, LeafCells(next, f), start, p) && Built(LeafCells(next, f), f, start, p)
      && IsPow2(start + 1) && (p < 2 * start + 1 <= f || (start == 0 && p == 1))
  {
    hide IsPow2, Queue, Built, LeafCells;
    if maxDepth == 1 {
      start, p := 0, 1;
      PowerIsPow2(0);
      LeavesQueued(next, 0, 0, 1);
    } else {
      FirstIsOdd(maxDepth);
      start := (First(maxDepth) - 1) / 2;
      p := start;
      PowerIsPow2(maxDepth - 2);
      LeavesQueued(next, First(maxDepth), start, start);
    }
  }

  lemma LeavesQueued(next: seq<Node>, f: nat, start: nat, p: nat)
    requires |next| == f + 1 && ((f == 0 && start == 0 && p == 1) || (f == 2 * start + 1 && p == start))
    ensures Queue(next, LeafCells(next, f), start, p) && Built(LeafCells(next, f), f, start, p)
  {
    LeafCellsAre(next, f);
    var m := LeafCells(next, f);
    hide LeafCells, QueueAt, Built;
    forall t: nat | t < |next| ensures QueueAt(start, p, t) in m && next[t] == m[QueueAt(start, p, t)] {
      FirstQueue(f, start, p, t);
      assert f + t in m;
    }
    LeavesBuilt(m, |next|, f, start, p);
  }

  // The queue starts with the leaves.
  lemma FirstQueue(f: nat, start: nat, p: nat, t: nat)
    requires (f == 0 && start == 0 && p == 1 && t == 0) || (f == 2 * start + 1 && p == start && t <= f)
    ensures QueueAt(start, p, t) == f + t
  {
  }

  lemma LeavesBuilt(m: Cells, n: nat, f: nat, start: nat, p: nat)
    requires n == f + 1 && ((f == 0 && start == 0 && p == 1) || (f == 2 * start + 1 && p == start))
    requires forall h: nat :: h in m <==> f <= h < f + n
    ensures Built(m, f, start, p)
  {
  }

  lemma QueueLength(next: seq<Node>, m: Cells, start: nat, p: nat)
    requires Queue(next, m, start, p)
    ensures start <= p <= 2 * start + 1 && |next| == 2 * (2 * start + 1 - p) + (p - start)
  {
  }

  lemma StartIsOdd(start: nat)
    requires IsPow2(start + 1) && start > 0
    ensures start % 2 == 1 && IsPow2((start - 1) / 2 + 1)
  {
    var e: nat :| start + 1 == Pow2(e);
    PowerParity(e);
    DoubleOfPow2((start - 1) / 2 + 1);
  }

  lemma LastOne(next: seq<Node>, m: Cells, f: nat, start: nat, p: nat)
    requires Queue(next, m, start, p) && Built(m, f, start, p) && |next| < 2
    requires p < 2 * start + 1 <= f || (start == 0 && p == 1)
    ensures start == 0 && p == 1 && |next| == 1 && next[0] == m[0] && Built(m, f, 0, 1)
    ensures forall h: nat :: h <= 2 * f ==> h in m
  {
    assert QueueAt(0, 1, 0) == 0;
  }

  lemma RootDepth(at: seq<Node>)
    requires AllLinked(at) && |at| > 0
    ensures at[0].depth == 0
  {
    assert Linked(at, 0);
  }

  // One turn of the queue.
  method PairFront(next: seq<Node>, aggFunc: AggFunc, ghost m: Cells, ghost snaps: map<nat, Snap>, ghost start: nat,
                   ghost p: nat,
                   ghost maxDepth: nat, ghost keys: seq<uint64>, ghost vals: seq<uint128>)
    returns (rest: seq<Node>, ghost m': Cells, ghost snaps': map<nat, Snap>)
    requires maxDepth >= 1 && |keys| == |vals| == First(maxDepth) + 1 && |next| >= 2
    requires Shows(m, snaps) && Consistent(m, snaps, maxDepth, aggFunc, keys, vals)
    requires Queue(next, m, start, p) && Built(m, First(maxDepth), start, p) && p < 2 * start + 1 <= First(maxDepth)
    modifies {next[0], next[1]}`parent
    ensures Shows(m', snaps') && Consistent(m', snaps', maxDepth, aggFunc, keys, vals)
    ensures Queue(rest, m', start, p + 1) && Built(m', First(maxDepth), start, p + 1) && |rest| == |next| - 1
    ensures p in m' && fresh(m'[p]) && m' == m[p := m'[p]]
  {
    hide First, Consistent, Shows, Queue, Built, Paired;
    var left, right := next[0], next[1];
    QueueStep(next, m, First(maxDepth), start, p, left);
    PairedConsistent(m, snaps, maxDepth, aggFunc, keys, vals, left, p);
    SameKeys(m, snaps);
    var parent := PairUp(left, right, aggFunc, m, snaps, p);
    PairedConsistent(m, snaps, maxDepth, aggFunc, keys, vals, parent, p);
    QueueStep(next, m, First(maxDepth), start, p, parent);
    m', snaps' := m[p := parent], Paired(snaps, parent, aggFunc, left, right, p);
    rest := next[2..] + [parent];
  }

  lemma SameKeys(m: Cells, snaps: map<nat, Snap>)
    requires Shows(m, snaps)
    ensures m.Keys == snaps.Keys
  {
  }

  // Where the pairing of a queue stands: the fields of what is built, and the place in the level.
  ghost predicate Pairing(next: seq<Node>, m: Cells, snaps: map<nat, Snap>, start: nat, p: nat,
                          maxDepth: nat, f: AggFunc, keys: seq<uint64>, vals: seq<uint128>)
    requires maxDepth >= 1 && |keys| == |vals| == First(maxDepth) + 1
    reads m.Values
  {
    && Shows(m, snaps) && Consistent(m, snaps, maxDepth, f, keys, vals)
    && Queue(next, m, start, p) && Built(m, First(maxDepth), start, p)
    && IsPow2(start + 1) && (p < 2 * start + 1 <= First(maxDepth) || (start == 0 && p == 1))
  }

  // After a level's last pair the next level starts.
  lemma NextPlace(next: seq<Node>, m: Cells, f: nat, start: nat, p: nat) returns (start': nat, p': nat)
    requires Queue(next, m, start, p) && Built(m, f, start, p) && IsPow2(start + 1) && start < p <= 2 * start + 1 <= f
    ensures Queue(next, m, start', p') && Built(m, f, start', p')
    ensures IsPow2(start' + 1) && (p' < 2 * start' + 1 <= f || (start' == 0 && p' == 1))
  {
    hide Queue, Built, IsPow2;
    if p == 2 * start + 1 && start > 0 {
      StartIsOdd(start);
      QueueRoll(next, m, f, start);
      start', p' := (start - 1) / 2, (start - 1) / 2;
    } else {
      start', p' := start, p;
    }
  }

  // One turn of the loop.
  method Turn(next: seq<Node>, aggFunc: AggFunc, ghost m: Cells, ghost snaps: map<nat, Snap>, ghost start: nat,
              ghost p: nat,
              ghost maxDepth: nat, ghost keys: seq<uint64>, ghost vals: seq<uint128>)
    returns (rest: seq<Node>, ghost m': Cells, ghost snaps': map<nat, Snap>, ghost start': nat, ghost p': nat)
    requires maxDepth >= 1 && |keys| == |vals| == First(maxDepth) + 1 && |next| >= 2
    requires Pairing(next, m, snaps, start, p, maxDepth, aggFunc, keys, vals)
    modifies {next[0], next[1]}`parent
    ensures Pairing(rest, m', snaps', start', p', maxDepth, aggFunc, keys, vals) && |rest| == |next| - 1
    ensures p in m' && fresh(m'[p]) && m' == m[p := m'[p]]
  {
    hide First, Consistent, Shows, Queue, Built, IsPow2;
    QueueLength(next, m, start, p);
    rest, m', snaps' := PairFront(next, aggFunc, m, snaps, start, p, maxDepth, keys, vals);
    start', p' := NextPlace(rest, m', First(maxDepth), start, p + 1);
  }

  // The front of the queue is built.
  lemma FrontIsBuilt(next: seq<Node>, m: Cells, snaps: map<nat, Snap>, start: nat, p: nat,
                     maxDepth: nat, f: AggFunc, keys: seq<uint64>, vals: seq<uint128>)
    requires maxDepth >= 1 && |keys| == |vals| == First(maxDepth) + 1 && |next| >= 2
    requires Pairing(next, m, snaps, start, p, maxDepth, f, keys, vals)
    ensures 2 * p + 1 in m && 2 * p + 2 in m && next[0] == m[2 * p + 1] && next[1] == m[2 * p + 2]
  {
    hide First, Consistent, Shows, Queue, Built, IsPow2;
    QueueLength(next, m, start, p);
    QueueStep(next, m, First(maxDepth), start, p, next[0]);
  }

  // The queue of leaves.
  lemma PairingStarts(next: seq<Node>, maxDepth: nat, f: AggFunc, keys: seq<uint64>, vals: seq<uint128>)
    returns (start: nat, p: nat)
    requires maxDepth >= 1 && |next| == |keys| == |vals| == First(maxDepth) + 1 && Distinct(next)
    requires forall t :: 0 <= t < |next| ==>
               SnapOf(next[t]) == Snap(maxDepth - 1, Fields(keys[t], keys[t], keys[t]), vals[t], null, null, null)
    ensures Pairing(next, LeafCells(next, First(maxDepth)), LeafSnaps(maxDepth, keys, vals), start, p, maxDepth, f,
                    keys, vals)
  {
    hide First, Consistent, Shows, Queue, Built, IsPow2, LeafCells, LeafSnaps, SnapOf, Distinct;
    LeavesConsistent(next, maxDepth, f, keys, vals);
    LeavesShown(next, maxDepth, keys, vals);
    start, p := LevelAbove(maxDepth, next);
  }

  // A queue of one node is the root of everything built.
  lemma PairingEnds(next: seq<Node>, m: Cells, snaps: map<nat, Snap>, start: nat, p: nat,
                    maxDepth: nat, f: AggFunc, keys: seq<uint64>, vals: seq<uint128>)
    returns (at: seq<Node>)
    requires maxDepth >= 1 && |keys| == |vals| == First(maxDepth) + 1 && |next| < 2
    requires Pairing(next, m, snaps, start, p, maxDepth, f, keys, vals)
    ensures |next| == 1 && BulkTree(next[0], at, maxDepth, f, keys, vals) && next[0].depth == 0
  {
    hide First, Consistent, Shows, Queue, Built, IsPow2, AllLinked, BulkFields, BulkAgg, Distinct;
    LastOne(next, m, First(maxDepth), start, p);
    at := seq(2 * First(maxDepth) + 1, h requires 0 <= h <= 2 * First(maxDepth) => m[h]);
    ReadOff(m, snaps, maxDepth, f, keys, vals, at);
    RootDepth(at);
  }

  /** Builds a full tree from exactly 2^(maxDepth - 1) entries: the pairing ends with one root of depth
      zero, over a perfect tree whose leaves are the entries in order. */
  method BuildFromEntries(maxDepth: nat, aggFunc: AggFunc, keys: seq<uint64>, vals: seq<uint128>)
    returns (root: Node, ghost at: seq<Node>)
    requires maxDepth >= 1 && |keys| == |vals| == Pow2(maxDepth - 1)
    ensures BulkTree(root, at, maxDepth, aggFunc, keys, vals) && root.depth == 0
    ensures |at| == 2 * |keys| - 1 && at[0] == root
    ensures forall t :: 0 <= t < |keys| ==> IsLeaf(at[|keys| - 1 + t], keys[t], vals[t])
    ensures forall h :: 0 <= h < |keys| - 1 ==> IsPair(at[h], at[2 * h + 1], at[2 * h + 2], aggFunc)
  {
    hide Pairing, BulkTree, LeafCells, LeafSnaps, Distinct;
    ghost var f := First(maxDepth);
    var next := MakeLeaves(maxDepth, keys, vals);
    ghost var m: Cells, snaps: map<nat, Snap> := LeafCells(next, f), LeafSnaps(maxDepth, keys, vals);
    ghost var start: nat, p: nat := PairingStarts(next, maxDepth, aggFunc, keys, vals);
    LeafCellsAre(next, f);
    while |next| >= 2
      invariant Pairing(next, m, snaps, start, p, maxDepth, aggFunc, keys, vals)
      invariant forall h: nat :: h in m ==> fresh(m[h])
      decreases |next|
    {
      FrontIsBuilt(next, m, snaps, start, p, maxDepth, aggFunc, keys, vals);
      next, m, snaps, start, p := Turn(next, aggFunc, m, snaps, start, p, maxDepth, keys, vals);
    }
    at := PairingEnds(next, m, snaps, start, p, maxDepth, aggFunc, keys, vals);
    root := next[0];
    TreeOfPairs(root, at, maxDepth, aggFunc, keys, vals);
  }

  // An entry as a leaf.
  ghost predicate IsLeaf(n: Node, key: uint64, val: uint128)
    reads n
  {
    n.leftIdx == n.midIdx == n.rightIdx == key && n.aggVal == val && n.leftChild == n.rightChild == null
  }

  // A node over two others: its first index is the left one's first, its middle the right one's first, its last
  // the right one's last, and its aggregate the two aggregates'.
  ghost predicate IsPair(n: Node, left: Node, right: Node, f: AggFunc)
    reads n, left, right
  {
    && n.leftChild == left && n.rightChild == right && left.parent == right.parent == n
    && n.leftIdx == left.leftIdx && n.midIdx == right.leftIdx && n.rightIdx == right.rightIdx
    && n.aggVal == ComputeAggregate(left.aggVal, right.aggVal, f)
  }

  lemma TreeOfPairs(root: Node, at: seq<Node>, maxDepth: nat, f: AggFunc, keys: seq<uint64>, vals: seq<uint128>)
    requires maxDepth >= 1 && |keys| == |vals| == First(maxDepth) + 1
    requires BulkTree(root, at, maxDepth, f, keys, vals)
    ensures |at| == 2 * |keys| - 1 && at[0] == root
    ensures forall t :: 0 <= t < |keys| ==> IsLeaf(at[|keys| - 1 + t], keys[t], vals[t])
    ensures forall h :: 0 <= h < |keys| - 1 ==> IsPair(at[h], at[2 * h + 1], at[2 * h + 2], f)
  {
    hide First, Lo, Hi, ComputeAggregate, Distinct, IsLeaf, IsPair, AllLinked, BulkFields, BulkAgg;
    forall t | 0 <= t < |keys| ensures IsLeaf(at[|keys| - 1 + t], keys[t], vals[t]) {
      OneLeaf(root, at, maxDepth, f, keys, vals, t);
    }
    forall h | 0 <= h < |keys| - 1 ensures IsPair(at[h], at[2 * h + 1], at[2 * h + 2], f) {
      OnePair(root, at, maxDepth, f, keys, vals, h);
    }
  }

  lemma OneLeaf(root: Node, at: seq<Node>, maxDepth: nat, f: AggFunc, keys: seq<uint64>, vals: seq<uint128>, t: nat)
    requires maxDepth >= 1 && |keys| == |vals| == First(maxDepth) + 1
    requires BulkTree(root, at, maxDepth, f, keys, vals) && t < |keys|
    ensures IsLeaf(at[|keys| - 1 + t], keys[t], vals[t])
  {
    hide First, Distinct;
    LinkedAt(at, |keys| - 1 + t);
  }

  lemma OnePair(root: Node, at: seq<Node>, maxDepth: nat, f: AggFunc, keys: seq<uint64>, vals: seq<uint128>, h: nat)
    requires maxDepth >= 1 && |keys| == |vals| == First(maxDepth) + 1
    requires BulkTree(root, at, maxDepth, f, keys, vals) && h < |keys| - 1
    ensures IsPair(at[h], at[2 * h + 1], at[2 * h + 2], f)
  {
    hide First, Distinct, ComputeAggregate, BulkFields, BulkAgg, DepthOf, AllLinked;
    LinkedAt(at, h);
    LinkedAt(at, 2 * h + 1);
    LinkedAt(at, 2 * h + 2);
    BulkAggAt(maxDepth, f, vals, h);
    PairFields(maxDepth, keys, h);
  }

  lemma PairFields(maxDepth: nat, keys: seq<uint64>, h: nat)
    requires maxDepth >= 1 && h < First(maxDepth) && |keys| == First(maxDepth) + 1
    ensures
      var n, l, r := BulkFields(maxDepth, keys, h), BulkFields(maxDepth, keys, 2 * h + 1),
                     BulkFields(maxDepth, keys, 2 * h + 2);
      n == Fields(l.left, r.left, r.right)
  {
    hide First;
    Halves(maxDepth, h);
    Nonempty(maxDepth, 2 * h + 1);
    Nonempty(maxDepth, 2 * h + 2);
  }
}
