/** The placement of vector leaves (the VBFSS filters of client.cpp): server i is sent the first half of pair
    i and the second half of pair i - 1, so that each share of the table meets halves of different pairs. */
module MixedPlacement {
  import opened Arith
  import opened Bits
  import opened Blocks
  import opened SeedTree
  import opened Rss
  import opened Results
  import opened Filters
  import opened VectorFss
  import opened VectorFssOps
  import opened Shares
  import opened Keys
  import DPF

  // ----- when query vectors answer right -----

  function Unit(n: nat, l: nat): (v: Vec)
    ensures |v| == n
  {
    seq<uint128>(n, i requires 0 <= i < n => if i == l then 1 else 0)
  }

  lemma OneMore(a: uint128, b: uint128)
    ensures Add(a, Mul(b, 0)) == a && Add(0, Mul(b, 1)) == b
  {
  }

  lemma {:induction false} DotOfUnit(q: Vec, n: nat, l: nat, k: nat)
    requires |q| == n && k <= n
    ensures Dot(q, Unit(n, l), k) == if l < k then q[l] else 0
  {
    hide Add, Mul;
    if k > 0 {
      DotOfUnit(q, n, l, k - 1);
      OneMore(if l < k - 1 then q[l] else 0, q[k - 1]);
    }
  }

  // A row shared with everything in one share.
  function Lonely(n: nat, l: nat, share: nat): (t: Trio<Vec>)
    requires share < 3
  {
    var u, z := Unit(n, l), Unit(n, n);
    if share == 0 then Trio(u, z, z) else if share == 1 then Trio(z, u, z) else Trio(z, z, u)
  }

  lemma LonelyIsOneHot(n: nat, l: nat, share: nat)
    requires l < n && share < 3
    ensures OneHot(Lonely(n, l, share), n, l)
  {
  }

  lemma DotsOfLonely(q0: Trio<Vec>, q1: Trio<Vec>, n: nat, l: nat, share: nat)
    requires Rows(q0, n) && Rows(q1, n) && l < n && share < 3
    ensures SixDots(q0, q1, Lonely(n, l, share), n)
         == if share == 0 then q0.s0[l] as int + q1.s2[l]
            else if share == 1 then q0.s1[l] as int + q1.s0[l]
            else q0.s2[l] as int + q1.s1[l]
  {
    hide Dot, Unit;
    DotOfUnit(q0.s0, n, l, n); DotOfUnit(q0.s1, n, l, n); DotOfUnit(q0.s2, n, l, n);
    DotOfUnit(q1.s0, n, l, n); DotOfUnit(q1.s1, n, l, n); DotOfUnit(q1.s2, n, l, n);
    DotOfUnit(q0.s0, n, n, n); DotOfUnit(q0.s1, n, n, n); DotOfUnit(q0.s2, n, n, n);
    DotOfUnit(q1.s0, n, n, n); DotOfUnit(q1.s1, n, n, n); DotOfUnit(q1.s2, n, n, n);
  }

  // The three servers' dot products open to the mask at the row's bucket, for every bucket and every way of
  // sharing the row.
  ghost predicate AnswersRight(q0: Trio<Vec>, q1: Trio<Vec>, n: nat, mask: seq<int>)
    requires Rows(q0, n) && Rows(q1, n) && |mask| == n
  {
    forall t: Trio<Vec>, hot: nat :: OneHot(t, n, hot) ==> Cong(SixDots(q0, q1, t, n), mask[hot])
  }

  /** Query vectors answer right on every sharing of every row if and only if, share by share, the two words
      that meet a share of the table sum to the mask. */
  lemma AnswersRightIff(q0: Trio<Vec>, q1: Trio<Vec>, n: nat, mask: seq<int>)
    requires Rows(q0, n) && Rows(q1, n) && |mask| == n
    ensures AnswersRight(q0, q1, n, mask) <==> Material(q0, q1, n, mask)
  {
    hide SixDots, Cong, Lonely;
    if Material(q0, q1, n, mask) {
      forall t: Trio<Vec>, hot: nat | OneHot(t, n, hot) ensures Cong(SixDots(q0, q1, t, n), mask[hot]) {
        DotsOpen(q0, q1, t, n, mask, hot, n);
      }
    }
    if AnswersRight(q0, q1, n, mask) {
      forall l: nat | l < n
        ensures Cong(q0.s0[l] as int + q1.s2[l], mask[l]) && Cong(q0.s1[l] as int + q1.s0[l], mask[l])
                && Cong(q0.s2[l] as int + q1.s1[l], mask[l])
      {
        LonelyIsOneHot(n, l, 0); LonelyIsOneHot(n, l, 1); LonelyIsOneHot(n, l, 2);
        DotsOfLonely(q0, q1, n, l, 0); DotsOfLonely(q0, q1, n, l, 1); DotsOfLonely(q0, q1, n, l, 2);
      }
    }
  }

  // ----- three pairs, mixed -----

  // Three pairs of vectors, each opening to a mask.
  ghost predicate ThreePairs(a: Trio<Vec>, b: Trio<Vec>, n: nat, mask: seq<int>)
  {
    && |mask| == n && Rows(a, n) && Rows(b, n)
    && forall l :: 0 <= l < n ==>
         Cong(a.s0[l] as int + b.s0[l], mask[l]) && Cong(a.s1[l] as int + b.s1[l], mask[l])
         && Cong(a.s2[l] as int + b.s2[l], mask[l])
  }

  // Where the second halves go.
  function Mixed(b: Trio<Vec>): Trio<Vec> { Trio(b.s2, b.s0, b.s1) }

  ghost predicate SameHalves(a: Trio<Vec>, n: nat)
    requires Rows(a, n)
  {
    forall l :: 0 <= l < n ==> Cong(a.s0[l], a.s1[l]) && Cong(a.s1[l], a.s2[l])
  }

  // A first half fits another pair's second half exactly when it agrees with that pair's first half.
  lemma CrossPair(x: int, y: int, z: int, m: int)
    requires Cong(y + z, m)
    ensures Cong(x + z, m) <==> Cong(x, y)
  {
    CongMod(x + z, m);
    CongMod(y + z, m);
  }

  /** Mixed pairs answer right on every sharing of every row if and only if the three pairs have the same
      first halves, modulo the group order. */
  lemma MixedRightIff(a: Trio<Vec>, b: Trio<Vec>, n: nat, mask: seq<int>)
    requires ThreePairs(a, b, n, mask)
    ensures AnswersRight(a, Mixed(b), n, mask) <==> SameHalves(a, n)
  {
    hide Cong, SixDots;
    AnswersRightIff(a, Mixed(b), n, mask);
    forall l | 0 <= l < n
      ensures Cong(a.s0[l] as int + b.s1[l], mask[l]) <==> Cong(a.s0[l], a.s1[l])
      ensures Cong(a.s1[l] as int + b.s2[l], mask[l]) <==> Cong(a.s1[l], a.s2[l])
      ensures Cong(a.s2[l] as int + b.s0[l], mask[l]) <==> Cong(a.s2[l], a.s0[l])
    {
      CrossPair(a.s0[l], a.s1[l], b.s1[l], mask[l]);
      CrossPair(a.s1[l], a.s2[l], b.s2[l], mask[l]);
      CrossPair(a.s2[l], a.s0[l], b.s0[l], mask[l]);
    }
    forall l | 0 <= l < n && Cong(a.s0[l], a.s1[l]) && Cong(a.s1[l], a.s2[l]) ensures Cong(a.s2[l], a.s0[l]) {
      CongTrans(a.s0[l], a.s1[l], a.s2[l]);
      CongSym(a.s0[l], a.s2[l]);
    }
  }

  // ----- the packs the client generates -----

  // One side of a leaf: its point pack, evaluated flat.
  function PointHalf(c: Cipher, seeds: seq<Pair>, domainSize: uint32, target: nat, depth: nat, payload: seq<uint128>,
                     party: bool): (v: Vec)
    requires |seeds| == |payload| < 0x1_0000_0000
    ensures |v| == domainSize * |payload|
  {
    var p := PointPack(c, seeds, domainSize, target, depth, payload, party);
    PackShape(c, seeds, domainSize, target, depth, payload);
    seq<uint128>(domainSize * |payload|, i requires 0 <= i < domainSize * |payload| =>
      RowAndColumn(i, domainSize, |payload|);
      PointShare(c, p, depth, party, i / |payload|, i % |payload|))
  }

  function PointMask(domainSize: uint32, target: nat, payload: seq<uint128>): (m: seq<int>)
    ensures |m| == domainSize * |payload|
  {
    seq<int>(domainSize * |payload|, i requires 0 <= i < domainSize * |payload| =>
      RowAndColumn(i, domainSize, |payload|);
      if domainSize >= 2 && i / |payload| == target then payload[i % |payload|] else 0)
  }

  // One side of a comparison leaf.
  function CompareHalf(c: Cipher, seeds: seq<Pair>, rands: seq<uint64>, domainSize: uint32, plan: Plan, depth: nat,
                       payload: seq<uint128>, party: bool): (v: Vec)
    requires |seeds| == |rands| == |payload| < 0x1_0000_0000
    ensures |v| == domainSize * |payload|
  {
    var p := ComparePack(c, seeds, rands, domainSize, plan, depth, payload, party);
    seq<uint128>(domainSize * |payload|, i requires 0 <= i < domainSize * |payload| =>
      RowAndColumn(i, domainSize, |payload|);
      CompareShare(c, p, depth, party, i / |payload|, i % |payload|))
  }

  function CompareMask(domainSize: uint32, op: CompareOp, t: uint32, payload: seq<uint128>): (m: seq<int>)
    ensures |m| == domainSize * |payload|
  {
    seq<int>(domainSize * |payload|, i requires 0 <= i < domainSize * |payload| =>
      RowAndColumn(i, domainSize, |payload|);
      if Holds(op, i / |payload|, t) then payload[i % |payload|] else 0)
  }

  lemma PointPairOpens(c: Cipher, seeds: seq<Pair>, domainSize: uint32, target: nat, depth: nat, payload: seq<uint128>,
                       i: nat)
    requires |seeds| == |payload| < 0x1_0000_0000 && DomainDepth(domainSize) == Ok(depth) && target < domainSize
    requires i < domainSize * |payload|
    ensures Cong(PointHalf(c, seeds, domainSize, target, depth, payload, false)[i] as int
                 + PointHalf(c, seeds, domainSize, target, depth, payload, true)[i],
                     PointMask(domainSize, target, payload)[i])
  {
    hide PointShare, PointPack, DomainDepth;
    RowAndColumn(i, domainSize, |payload|);
    PackShape(c, seeds, domainSize, target, depth, payload);
    PointVectorCorrect(c, seeds, domainSize, target, payload, depth, i / |payload|, i % |payload|);
    CongMod(PointHalf(c, seeds, domainSize, target, depth, payload, false)[i] as int
            + PointHalf(c, seeds, domainSize, target, depth, payload, true)[i],
                PointMask(domainSize, target, payload)[i]);
  }

  lemma ComparePairOpens(c: Cipher, seeds: seq<Pair>, rands: seq<uint64>, domainSize: uint32, op: CompareOp, t: uint32,
                         depth: nat, payload: seq<uint128>, i: nat)
    requires |seeds| == |rands| == |payload| < 0x1_0000_0000 && domainSize > 0 && DomainDepth(domainSize) == Ok(depth)
    requires i < domainSize * |payload|
    ensures
      var plan := MakePlan(domainSize, op, t);
      Cong(CompareHalf(c, seeds, rands, domainSize, plan, depth, payload, false)[i] as int
           + CompareHalf(c, seeds, rands, domainSize, plan, depth, payload, true)[i],
           CompareMask(domainSize, op, t, payload)[i])
  {
    hide MakePlan, DomainDepth, CompareKey, DcfValue, ConstShares;
    var plan := MakePlan(domainSize, op, t);
    RowAndColumn(i, domainSize, |payload|);
    CompareVectorCorrect(c, seeds, rands, domainSize, op, t, payload, depth, i / |payload|, i % |payload|);
    CongMod(CompareHalf(c, seeds, rands, domainSize, plan, depth, payload, false)[i] as int
            + CompareHalf(c, seeds, rands, domainSize, plan, depth, payload, true)[i],
            CompareMask(domainSize, op, t, payload)[i]);
  }

  /** A point leaf as the client sends it: three packs for one point, from any three lists of seeds. The
      servers answer right on every row if and only if the first halves agree -- as they do when the three
      lists are the same. */
  lemma PointLeafRightIff(c: Cipher, seeds: Trio<seq<Pair>>, domainSize: uint32, target: nat, depth: nat,
                          payload: seq<uint128>)
    requires |seeds.s0| == |seeds.s1| == |seeds.s2| == |payload| < 0x1_0000_0000
    requires DomainDepth(domainSize) == Ok(depth) && target < domainSize
    ensures
      var n, mask := domainSize * |payload|, PointMask(domainSize, target, payload);
      var a := Trio(PointHalf(c, seeds.s0, domainSize, target, depth, payload, false),
                    PointHalf(c, seeds.s1, domainSize, target, depth, payload, false),
                    PointHalf(c, seeds.s2, domainSize, target, depth, payload, false));
      var b := Trio(PointHalf(c, seeds.s0, domainSize, target, depth, payload, true),
                    PointHalf(c, seeds.s1, domainSize, target, depth, payload, true),
                    PointHalf(c, seeds.s2, domainSize, target, depth, payload, true));
      && (AnswersRight(a, Mixed(b), n, mask) <==> SameHalves(a, n))
      && (seeds.s0 == seeds.s1 == seeds.s2 ==> AnswersRight(a, Mixed(b), n, mask))
  {
    hide PointHalf, PointMask, Cong, AnswersRight, DomainDepth;
    var n, mask := domainSize * |payload|, PointMask(domainSize, target, payload);
    var a := Trio(PointHalf(c, seeds.s0, domainSize, target, depth, payload, false),
                  PointHalf(c, seeds.s1, domainSize, target, depth, payload, false),
                  PointHalf(c, seeds.s2, domainSize, target, depth, payload, false));
    var b := Trio(PointHalf(c, seeds.s0, domainSize, target, depth, payload, true),
                  PointHalf(c, seeds.s1, domainSize, target, depth, payload, true),
                  PointHalf(c, seeds.s2, domainSize, target, depth, payload, true));
    forall l | 0 <= l < n
      ensures Cong(a.s0[l] as int + b.s0[l], mask[l]) && Cong(a.s1[l] as int + b.s1[l], mask[l])
              && Cong(a.s2[l] as int + b.s2[l], mask[l])
    {
      PointPairOpens(c, seeds.s0, domainSize, target, depth, payload, l);
      PointPairOpens(c, seeds.s1, domainSize, target, depth, payload, l);
      PointPairOpens(c, seeds.s2, domainSize, target, depth, payload, l);
    }
    MixedRightIff(a, b, n, mask);
    if a.s0 == a.s1 == a.s2 { AlwaysSame(a, n); }
  }

  lemma AlwaysSame(a: Trio<Vec>, n: nat)
    requires Rows(a, n) && a.s0 == a.s1 == a.s2
    ensures SameHalves(a, n)
  {
    forall l | 0 <= l < n ensures Cong(a.s0[l], a.s1[l]) && Cong(a.s1[l], a.s2[l]) { CongRefl(a.s0[l]); }
  }

  /** The same for a comparison leaf, keyed or constant. */
  lemma CompareLeafRightIff(c: Cipher, seeds: Trio<seq<Pair>>, rands: Trio<seq<uint64>>, domainSize: uint32,
                            op: CompareOp,
                            t: uint32, depth: nat, payload: seq<uint128>)
    requires |seeds.s0| == |seeds.s1| == |seeds.s2| == |payload| < 0x1_0000_0000
    requires |rands.s0| == |rands.s1| == |rands.s2| == |payload|
    requires domainSize > 0 && DomainDepth(domainSize) == Ok(depth)
    ensures
      var n, mask, plan := domainSize * |payload|, CompareMask(domainSize, op, t, payload), MakePlan(domainSize, op, t);
      var a := Trio(CompareHalf(c, seeds.s0, rands.s0, domainSize, plan, depth, payload, false),
                    CompareHalf(c, seeds.s1, rands.s1, domainSize, plan, depth, payload, false),
                    CompareHalf(c, seeds.s2, rands.s2, domainSize, plan, depth, payload, false));
      var b := Trio(CompareHalf(c, seeds.s0, rands.s0, domainSize, plan, depth, payload, true),
                    CompareHalf(c, seeds.s1, rands.s1, domainSize, plan, depth, payload, true),
                    CompareHalf(c, seeds.s2, rands.s2, domainSize, plan, depth, payload, true));
      && (AnswersRight(a, Mixed(b), n, mask) <==> SameHalves(a, n))
      && (seeds.s0 == seeds.s1 == seeds.s2 && rands.s0 == rands.s1 == rands.s2 ==> AnswersRight(a, Mixed(b), n, mask))
  {
    hide CompareHalf, CompareMask, Cong, AnswersRight, MakePlan, DomainDepth;
    var n, mask, plan := domainSize * |payload|, CompareMask(domainSize, op, t, payload), MakePlan(domainSize, op, t);
    var a := Trio(CompareHalf(c, seeds.s0, rands.s0, domainSize, plan, depth, payload, false),
                  CompareHalf(c, seeds.s1, rands.s1, domainSize, plan, depth, payload, false),
                  CompareHalf(c, seeds.s2, rands.s2, domainSize, plan, depth, payload, false));
    var b := Trio(CompareHalf(c, seeds.s0, rands.s0, domainSize, plan, depth, payload, true),
                  CompareHalf(c, seeds.s1, rands.s1, domainSize, plan, depth, payload, true),
                  CompareHalf(c, seeds.s2, rands.s2, domainSize, plan, depth, payload, true));
    forall l | 0 <= l < n
      ensures Cong(a.s0[l] as int + b.s0[l], mask[l]) && Cong(a.s1[l] as int + b.s1[l], mask[l])
              && Cong(a.s2[l] as int + b.s2[l], mask[l])
    {
      ComparePairOpens(c, seeds.s0, rands.s0, domainSize, op, t, depth, payload, l);
      ComparePairOpens(c, seeds.s1, rands.s1, domainSize, op, t, depth, payload, l);
      ComparePairOpens(c, seeds.s2, rands.s2, domainSize, op, t, depth, payload, l);
    }
    MixedRightIff(a, b, n, mask);
    if a.s0 == a.s1 == a.s2 { AlwaysSame(a, n); }
  }

  // ----- a failure at generated keys -----

  // A cipher all of whose permutations are constant.
  const FLAT: Cipher := Cipher(_ => ZERO, _ => ZERO, _ => ZERO, _ => ZERO)

  // Roots that differ in which side the forced control bit falls on.
  function Roots(second: bool): Pair { Pair(ZERO, Block(0, false, second)) }

  lemma FlatExpand(s: Block, side: bool)
    requires s.hi == 0
    ensures Expand(Side(FLAT, side), s) == ZERO
  {
  }

  // The flat cipher's correction word for a step to the left, and what it does to an empty seed: nothing.
  lemma FlatStep(p: Pair, s: Block)
    requires p.s0.hi == p.s1.hi == s.hi == 0 && !s.mid
    ensures
      var cw := CorrectionWord(FLAT, p, false);
      cw == Block(0, true, false) && Traverse(FLAT, s, cw, false) == s
  {
    FlatExpand(p.s0, false); FlatExpand(p.s1, false); FlatExpand(p.s0, true); FlatExpand(p.s1, true);
    FlatExpand(s, false);
    assert Xor(ZERO, ZERO) == ZERO;
  }

  // One side of the key pair for point 0 of two, payload 1, evaluated at 0: the side whose control bit is
  // set holds the payload, the other nothing.
  lemma FlatHalf(second: bool, party: bool)
    ensures
      var target, seeds := PathOf(0, 1), Roots(second);
      DPF.Eval(FLAT, DPF.Gen(FLAT, seeds, target, 1, party), party, target) == if party == second then 1 else 0
  {
    var target, seeds := PathOf(0, 1), Roots(second);
    assert target == [false] by {
      PowZero();
      PathStep(0, 1, 0);
      assert !BitAt(0, 0);
    }
    var root := Root(seeds);
    var cw := CorrectionWord(FLAT, root, false);
    FlatStep(root, root.s0);
    FlatStep(root, root.s1);
    assert GenPair(FLAT, seeds, target, 0) == root;
    assert GenPair(FLAT, seeds, target, 1) == root;
    var mine := if party then root.s1 else root.s0;
    assert TreeKey(FLAT, seeds, target, party, 0) == [mine];
    var k := TreeKey(FLAT, seeds, target, party, 1);
    assert k == [mine] + [cw];
    assert StateAt(FLAT, k, target, 0) == mine;
    assert StateAt(FLAT, k, target, 1) == mine;
    assert Convert(mine) == 0 && Convert(root.s0) == 0 && Convert(root.s1) == 0;
    assert DPF.OutputWord(root, 1) == if second then M - 1 else 1 by { FlatWord(second); }
    FlatShare(second, party);
  }

  lemma FlatWord(second: bool)
    ensures DPF.OutputWord(Root(Roots(second)), 1) == if second then M - 1 else 1
  {
  }

  lemma FlatShare(second: bool, party: bool)
    ensures DPF.LeafShare(party, Block(0, false, if party then second else !second), if second then M - 1 else 1)
         == if party == second then 1 else 0
  {
    var t, word: uint128 := if party then second else !second, if second then M - 1 else 1;
    assert Convert(Block(0, false, t)) == 0;
    WordIf(t, word);
    if party == second {
      assert t && Term(party, 0, t, word) == Mul(Sign(party), word) by { hide Mul; assert Add(0, word) == word; }
      if second { LastTimesLast(); }
    } else {
      assert !t && Mul(Sign(party), 0) == 0;
    }
  }

  // -1 times -1, as the second party computes it.
  lemma LastTimesLast()
    ensures Mul(MINUS_ONE, M - 1) == R - M + 1 && (R - M + 1) % M == 1
  {
    DivUnique(R - M + 1, M, 7, 1);
    DivUnique((R - 1) * (M - 1), R, M - 2, R - M + 1);
  }

  /** Generated keys for which the mixed placement answers wrong: a leaf of two points and one coordinate,
      the payload 1 at point 0, the flat cipher, and seeds that give the payload to the first, the second and
      the first side. A row in bucket 0, shared as (1, 0) and two zero vectors, is answered with 2. */
  lemma MixedFails()
    ensures
      var sa, sb := [Roots(false)], [Roots(true)];
      var a := Trio(PointHalf(FLAT, sa, 2, 0, 1, [1], false), PointHalf(FLAT, sb, 2, 0, 1, [1], false),
                    PointHalf(FLAT, sa, 2, 0, 1, [1], false));
      var b := Trio(PointHalf(FLAT, sa, 2, 0, 1, [1], true), PointHalf(FLAT, sb, 2, 0, 1, [1], true),
                    PointHalf(FLAT, sa, 2, 0, 1, [1], true));
      && OneHot(Lonely(2, 0, 0), 2, 0) && PointMask(2, 0, [1])[0] == 1
      && SixDots(a, Mixed(b), Lonely(2, 0, 0), 2) == 2
      && !AnswersRight(a, Mixed(b), 2, PointMask(2, 0, [1]))
  {
    hide SixDots, PointHalf, Lonely;
    var sa, sb := [Roots(false)], [Roots(true)];
    HalfAtZero(false, false);
    HalfAtZero(true, true);
    LonelyIsOneHot(2, 0, 0);
    var a := Trio(PointHalf(FLAT, sa, 2, 0, 1, [1], false), PointHalf(FLAT, sb, 2, 0, 1, [1], false),
                  PointHalf(FLAT, sa, 2, 0, 1, [1], false));
    var b := Trio(PointHalf(FLAT, sa, 2, 0, 1, [1], true), PointHalf(FLAT, sb, 2, 0, 1, [1], true),
                  PointHalf(FLAT, sa, 2, 0, 1, [1], true));
    DotsOfLonely(a, Mixed(b), 2, 0, 0);
    MaskAtZero();
  }

  lemma MaskAtZero()
    ensures PointMask(2, 0, [1])[0] == 1
  {
  }

  // The packs of that leaf, read back and evaluated at point 0.
  lemma HalfAtZero(second: bool, party: bool)
    ensures PointHalf(FLAT, [Roots(second)], 2, 0, 1, [1], party)[0] == if party == second then 1 else 0
  {
    hide DPF.Eval, DPF.Gen, PathOf, DpfBytes, ReadDpf;
    FlatHalf(second, party);
    ReadBackPoint(DPF.Gen(FLAT, Roots(second), PathOf(0, 1), 1, party), 1);
    PackShape(FLAT, [Roots(second)], 2, 0, 1, [1]);
  }
}
