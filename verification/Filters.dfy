/** Filters: replicated vectors that stand for one plaintext number a row, modulo 2^125, and the dot
    products and sums evaluated over their shares. */
module Filters {
  import opened Arith
  import opened Rss
  import opened Compile

  // The words one server is sent to select blocks and offsets with, two shares each.
  datatype QueryVecs = QueryVecs(block0: Vec, block1: Vec, offset0: Vec, offset1: Vec)

  // A shared filter over w rows stands for a plaintext row vector.
  ghost predicate StandsFor(h: Trio<Held>, w: nat, plain: seq<int>)
  {
    && Replicated(h, w) && |plain| == w
    && forall r :: 0 <= r < w ==> Cong(Open(h, r), plain[r])
  }

  function Times(xs: seq<int>, ys: seq<int>): (zs: seq<int>)
    requires |xs| == |ys|
    ensures |zs| == |xs|
  {
    seq<int>(|xs|, r requires 0 <= r < |xs| => xs[r] * ys[r])
  }

  function Either(xs: seq<int>, ys: seq<int>): (zs: seq<int>)
    requires |xs| == |ys|
    ensures |zs| == |xs|
  {
    seq<int>(|xs|, r requires 0 <= r < |xs| => xs[r] + ys[r] + xs[r] * ys[r])
  }

  lemma ReplicatedIsSized(h: Trio<Held>, n: nat)
    requires Replicated(h, n)
    ensures Sized(h, n)
  {
  }

  lemma AndStands(x: Trio<Held>, y: Trio<Held>, z: Trio<Vec>, w: nat, px: seq<int>, py: seq<int>)
    requires StandsFor(x, w, px) && StandsFor(y, w, py) && ZeroRow(z, w)
    ensures StandsFor(And(x, y, z, w), w, Times(px, py))
  {
    hide And, Open, Mul;
    AndOpens(x, y, z, w);
    forall r | 0 <= r < w ensures Cong(Open(And(x, y, z, w), r), px[r] * py[r]) {
      MulCong(Open(x, r), px[r], Open(y, r), py[r]);
    }
  }

  lemma OrStands(x: Trio<Held>, y: Trio<Held>, z: Trio<Vec>, w: nat, px: seq<int>, py: seq<int>)
    requires StandsFor(x, w, px) && StandsFor(y, w, py) && ZeroRow(z, w)
    ensures StandsFor(Or(x, y, z, w), w, Either(px, py))
  {
    hide Or, Open, OrWord;
    OrOpens(x, y, z, w);
    forall r | 0 <= r < w ensures Cong(Open(Or(x, y, z, w), r), px[r] + py[r] + px[r] * py[r]) {
      OrWordCong(Open(x, r), px[r], Open(y, r), py[r]);
    }
  }

  lemma OrWordCong(a: uint128, x: int, b: uint128, y: int)
    requires Cong(a, x) && Cong(b, y)
    ensures Cong(OrWord(a, b), x + y + x * y)
  {
    var p: int, q: int := a, b;
    CongMul(a, x, b, y);
    CongAdd(a, x, b, y);
    CongAdd(p + q, x + y, p * q, x * y);
    CongWrap(p + q + p * q);
    CongTrans(OrWord(a, b), p + q + p * q, x + y + x * y);
  }

  // ----- folds of filters -----

  // A conjunction of 0/1 values is the indicator of all of them.
  lemma {:induction false} FoldOfAnds(vs: seq<int>)
    requires |vs| > 0 && Bits01(vs)
    ensures Fold(true, vs) == if forall i :: 0 <= i < |vs| ==> vs[i] == 1 then 1 else 0
  {
    if |vs| > 1 {
      var init := vs[..|vs| - 1];
      FoldOfAnds(init);
      if forall i :: 0 <= i < |init| ==> init[i] == 1 {
        assert (forall i :: 0 <= i < |vs| ==> vs[i] == 1) <==> vs[|vs| - 1] == 1 by {
          forall i | 0 <= i < |init| ensures vs[i] == 1 { assert init[i] == vs[i]; }
        }
      } else {
        var i :| 0 <= i < |init| && init[i] != 1;
        assert vs[i] != 1;
      }
    }
  }

  // ----- wrapping dot products -----

  function Dot(q: Vec, t: Vec, k: nat): uint128
    requires k <= |q| && k <= |t|
  {
    if k == 0 then 0 else Add(Dot(q, t, k - 1), Mul(q[k - 1], t[k - 1]))
  }

  // Shares of a one-hot row: the three words of every column sum to the indicator of one column.
  ghost predicate OneHot(t: Trio<Vec>, n: nat, hot: nat)
  {
    && |t.s0| == |t.s1| == |t.s2| == n && hot < n
    && forall l :: 0 <= l < n ==> CongR(Sum3(t.s0[l], t.s1[l], t.s2[l]), if l == hot then 1 else 0)
  }

  // Query material for a mask: for every share index j, the word held by the server that has table
  // share j first and the word held by the server that has it second sum to the mask.
  ghost predicate Material(q0: Trio<Vec>, q1: Trio<Vec>, n: nat, mask: seq<int>)
  {
    && |mask| == n
    && |q0.s0| == |q0.s1| == |q0.s2| == |q1.s0| == |q1.s1| == |q1.s2| == n
    && forall l :: 0 <= l < n ==>
         Cong(q0.s0[l] as int + q1.s2[l], mask[l]) && Cong(q0.s1[l] as int + q1.s0[l], mask[l])
         && Cong(q0.s2[l] as int + q1.s1[l], mask[l])
  }

  // The sum of the six partial dot products of the three servers.
  function SixDots(q0: Trio<Vec>, q1: Trio<Vec>, t: Trio<Vec>, k: nat): int
    requires k <= |q0.s0| && k <= |q0.s1| && k <= |q0.s2| && k <= |q1.s0| && k <= |q1.s1| && k <= |q1.s2|
    requires k <= |t.s0| && k <= |t.s1| && k <= |t.s2|
  {
    Sum3(Dot(q0.s0, t.s0, k), Dot(q0.s1, t.s1, k), Dot(q0.s2, t.s2, k))
    + Sum3(Dot(q1.s0, t.s1, k), Dot(q1.s1, t.s2, k), Dot(q1.s2, t.s0, k))
  }

  lemma TwoTerms(a: uint128, b: uint128, m: int, t: uint128)
    requires Cong(a as int + b, m)
    ensures Cong(Mul(a, t) as int + Mul(b, t), m * t)
  {
    CongRefl(a); CongRefl(b); CongRefl(t);
    var x: int, y: int, z: int := a, b, t;
    MulCong(a, x, t, z);
    MulCong(b, y, t, z);
    CongAdd(Mul(a, t), x * z, Mul(b, t), y * z);
    CongMul(x + y, m, z, z);
    assert x * z + y * z == (x + y) * z;
    CongTrans(Mul(a, t) as int + Mul(b, t), (x + y) * z, m * z);
  }

  lemma DotStep(d: uint128, p: uint128)
    ensures Cong(Add(d, p), d as int + p)
  {
    CongRefl(d);
    CongRefl(p);
    AddCong(d, d, p, p);
  }

  // One more column adds the mask at that column times the column's one-hot value.
  lemma ColumnOpens(a0: uint128, b0: uint128, a1: uint128, b1: uint128, a2: uint128, b2: uint128, m: int,
                    t0: uint128, t1: uint128, t2: uint128, bit: int)
    requires Cong(a0 as int + b0, m) && Cong(a1 as int + b1, m) && Cong(a2 as int + b2, m)
    requires CongR(Sum3(t0, t1, t2), bit)
    ensures Cong(Sum3(Mul(a0, t0), Mul(a1, t1), Mul(a2, t2)) + Sum3(Mul(b0, t0), Mul(b1, t1), Mul(b2, t2)), m * bit)
  {
    hide Mul, Cong, CongR;
    TwoTerms(a0, b0, m, t0);
    TwoTerms(a1, b1, m, t1);
    TwoTerms(a2, b2, m, t2);
    var x0: int, x1: int, x2: int := t0, t1, t2;
    var p0 := Mul(a0, t0) as int + Mul(b0, t0);
    var p1 := Mul(a1, t1) as int + Mul(b1, t1);
    var p2 := Mul(a2, t2) as int + Mul(b2, t2);
    CongAdd(p0, m * x0, p1, m * x1);
    CongAdd(p0 + p1, m * x0 + m * x1, p2, m * x2);
    CongRToCong(Sum3(t0, t1, t2), bit);
    CongRefl(m);
    CongMul(m, m, x0 + x1 + x2, bit);
    Distribute(m, x0, x1, x2);
    CongTrans(p0 + p1 + p2, m * (x0 + x1 + x2), m * bit);
  }

  lemma Distribute(m: int, x: int, y: int, z: int)
    ensures m * x + m * y + m * z == m * (x + y + z)
  {
  }

  lemma DotStepAt(q: Vec, t: Vec, k: nat)
    requires k < |q| && k < |t|
    ensures Cong(Dot(q, t, k + 1), Dot(q, t, k) as int + Mul(q[k], t[k]))
  {
    hide Mul;
    DotStep(Dot(q, t, k), Mul(q[k], t[k]));
  }

  lemma AddSix(n0: int, d0: int, p0: int, n1: int, d1: int, p1: int, n2: int, d2: int, p2: int,
               n3: int, d3: int, p3: int, n4: int, d4: int, p4: int, n5: int, d5: int, p5: int)
    requires Cong(n0, d0 + p0) && Cong(n1, d1 + p1) && Cong(n2, d2 + p2)
    requires Cong(n3, d3 + p3) && Cong(n4, d4 + p4) && Cong(n5, d5 + p5)
    ensures Cong(Sum3(n0, n1, n2) + Sum3(n3, n4, n5),
                 Sum3(d0, d1, d2) + Sum3(d3, d4, d5) + (Sum3(p0, p1, p2) + Sum3(p5, p3, p4)))
  {
    hide Cong;
    CongAdd(n0, d0 + p0, n1, d1 + p1);
    CongAdd(n0 + n1, d0 + p0 + (d1 + p1), n2, d2 + p2);
    CongAdd(n3, d3 + p3, n4, d4 + p4);
    CongAdd(n3 + n4, d3 + p3 + (d4 + p4), n5, d5 + p5);
    CongAdd(n0 + n1 + n2, d0 + p0 + (d1 + p1) + (d2 + p2), n3 + n4 + n5, d3 + p3 + (d4 + p4) + (d5 + p5));
  }

  lemma SixDotsStep(q0: Trio<Vec>, q1: Trio<Vec>, t: Trio<Vec>, k: nat)
    requires k < |q0.s0| && k < |q0.s1| && k < |q0.s2| && k < |q1.s0| && k < |q1.s1| && k < |q1.s2|
    requires k < |t.s0| && k < |t.s1| && k < |t.s2|
    ensures Cong(SixDots(q0, q1, t, k + 1),
                 SixDots(q0, q1, t, k)
                 + (Sum3(Mul(q0.s0[k], t.s0[k]), Mul(q0.s1[k], t.s1[k]), Mul(q0.s2[k], t.s2[k]))
                    + Sum3(Mul(q1.s2[k], t.s0[k]), Mul(q1.s0[k], t.s1[k]), Mul(q1.s1[k], t.s2[k]))))
  {
    hide Mul, Dot, Cong;
    DotStepAt(q0.s0, t.s0, k);
    DotStepAt(q0.s1, t.s1, k);
    DotStepAt(q0.s2, t.s2, k);
    DotStepAt(q1.s0, t.s1, k);
    DotStepAt(q1.s1, t.s2, k);
    DotStepAt(q1.s2, t.s0, k);
    AddSix(Dot(q0.s0, t.s0, k + 1), Dot(q0.s0, t.s0, k), Mul(q0.s0[k], t.s0[k]),
           Dot(q0.s1, t.s1, k + 1), Dot(q0.s1, t.s1, k), Mul(q0.s1[k], t.s1[k]),
           Dot(q0.s2, t.s2, k + 1), Dot(q0.s2, t.s2, k), Mul(q0.s2[k], t.s2[k]),
           Dot(q1.s0, t.s1, k + 1), Dot(q1.s0, t.s1, k), Mul(q1.s0[k], t.s1[k]),
           Dot(q1.s1, t.s2, k + 1), Dot(q1.s1, t.s2, k), Mul(q1.s1[k], t.s2[k]),
           Dot(q1.s2, t.s0, k + 1), Dot(q1.s2, t.s0, k), Mul(q1.s2[k], t.s0[k]));
  }

  // The six dot products of the three servers open to the mask at the hot column.
  lemma {:induction false} DotsOpen(q0: Trio<Vec>, q1: Trio<Vec>, t: Trio<Vec>, n: nat, mask: seq<int>, hot: nat,
                                    k: nat)
    requires Material(q0, q1, n, mask) && OneHot(t, n, hot) && k <= n
    ensures Cong(SixDots(q0, q1, t, k), if hot < k then mask[hot] else 0)
  {
    hide Dot, Mul, Cong, SixDots;
    if k == 0 {
      assert SixDots(q0, q1, t, 0) == 0 by { SixDotsZero(q0, q1, t); }
      CongRefl(0);
    } else {
      var l := k - 1;
      DotsOpen(q0, q1, t, n, mask, hot, l);
      SixDotsStep(q0, q1, t, l);
      var bit := if l == hot then 1 else 0;
      ColumnOpens(q0.s0[l], q1.s2[l], q0.s1[l], q1.s0[l], q0.s2[l], q1.s1[l], mask[l], t.s0[l], t.s1[l], t.s2[l], bit);
      var before, column := SixDots(q0, q1, t, l),
        Sum3(Mul(q0.s0[l], t.s0[l]), Mul(q0.s1[l], t.s1[l]), Mul(q0.s2[l], t.s2[l]))
        + Sum3(Mul(q1.s2[l], t.s0[l]), Mul(q1.s0[l], t.s1[l]), Mul(q1.s1[l], t.s2[l]));
      var goal := if hot < l then mask[hot] else 0;
      CongAdd(before, goal, column, mask[l] * bit);
      CongTrans(SixDots(q0, q1, t, k), before + column, goal + mask[l] * bit);
    }
  }

  lemma SixDotsZero(q0: Trio<Vec>, q1: Trio<Vec>, t: Trio<Vec>)
    ensures SixDots(q0, q1, t, 0) == 0
  {
  }

  // One server's dot products of a leaf half: its first words with its first table, second with second.
  ghost predicate DotPair(h: Held, q0: Vec, q1: Vec, rows0: seq<Vec>, rows1: seq<Vec>, n: nat)
  {
    && |q0| == |q1| == n && |rows0| == |rows1| == |h.first| == |h.second|
    && (forall r :: 0 <= r < |rows0| ==> |rows0[r]| == n && h.first[r] == Dot(q0, rows0[r], n))
    && (forall r :: 0 <= r < |rows1| ==> |rows1[r]| == n && h.second[r] == Dot(q1, rows1[r], n))
  }

  // ----- aggregation -----

  // One server's share of the aggregate over the first k rows.
  function AggShare(v: Held, f: Held, k: nat): uint128
    requires k <= |v.first| && k <= |v.second| && k <= |f.first| && k <= |f.second|
  {
    if k == 0 then 0
    else
      var r := k - 1;
      Add(Add(Add(AggShare(v, f, r), Mul(v.first[r], f.first[r])), Mul(v.second[r], f.first[r])),
          Mul(v.first[r], f.second[r]))
  }

  // Shares of a value list, aligned as the tables are: server i holds share i and share i + 1.
  ghost predicate Values(v: Trio<Held>, vals: seq<uint128>)
  {
    && Sized(v, |vals|)
    && v.s0.second == v.s1.first && v.s1.second == v.s2.first && v.s2.second == v.s0.first
    && forall r :: 0 <= r < |vals| ==> CongR(Sum3(v.s0.first[r], v.s1.first[r], v.s2.first[r]), vals[r])
  }

  // The plaintext aggregate.
  function WeightedSum(vals: seq<uint128>, weights: seq<int>, k: nat): int
    requires k <= |vals| && k <= |weights|
  {
    if k == 0 then 0 else WeightedSum(vals, weights, k - 1) + vals[k - 1] * weights[k - 1]
  }

  // Adding three words one after the other, or their sum at once.
  lemma AddInTurn(acc: uint128, p: uint128, q: uint128, s: uint128)
    ensures CongR(Add(Add(Add(acc, p), q), s), acc as int + Add(Add(Add(p, q), s), 0))
  {
    hide Add, CongR;
    var a: int, b: int, c: int, d: int := acc, p, q, s;
    CongRRefl(a); CongRRefl(b); CongRRefl(c); CongRRefl(d); CongRRefl(0);
    AddR(acc, a, p, b);
    AddR(Add(acc, p), a + b, q, c);
    AddR(Add(Add(acc, p), q), a + b + c, s, d);
    AddR(p, b, q, c);
    AddR(Add(p, q), b + c, s, d);
    AddR(Add(Add(p, q), s), b + c + d, 0, 0);
    var m: int := Add(Add(Add(p, q), s), 0);
    CongRSym(m, b + c + d);
    CongRAdd(a, a, b + c + d, m);
    CongRTrans(Add(Add(Add(acc, p), q), s), a + (b + c + d), a + m);
  }

  lemma AggStep(acc: uint128, x0: uint128, x1: uint128, y0: uint128, y1: uint128)
    ensures CongR(Add(Add(Add(acc, Mul(x0, y0)), Mul(x1, y0)), Mul(x0, y1)), acc as int + MulLocal(x0, x1, y0, y1, 0))
  {
    hide Add, CongR, Mul;
    AddInTurn(acc, Mul(x0, y0), Mul(x1, y0), Mul(x0, y1));
  }

  lemma CongRSym(a: int, b: int)
    requires CongR(a, b)
    ensures CongR(b, a)
  {
  }

  // The three shares of a row's contribution open to value times filter.
  lemma RowOpens(v0: uint128, v1: uint128, v2: uint128, f0: uint128, f1: uint128, f2: uint128, val: uint128,
                 weight: int)
    requires CongR(Sum3(v0, v1, v2), val) && Cong(Sum3(f0, f1, f2) % R, weight)
    ensures Cong(Sum3(MulLocal(v0, v1, f0, f1, 0), MulLocal(v1, v2, f1, f2, 0), MulLocal(v2, v0, f2, f0, 0)),
                 val * weight)
  {
    hide MulLocal;
    MulSharesOpen(v0, v1, v2, f0, f1, f2, 0, 0, 0);
    var m := Sum3(MulLocal(v0, v1, f0, f1, 0), MulLocal(v1, v2, f1, f2, 0), MulLocal(v2, v0, f2, f0, 0));
    var sv, sf := Sum3(v0, v1, v2), Sum3(f0, f1, f2);
    CongRToCong(m, sv * sf);
    CongRToCong(sv, val);
    CongWrap(sf);
    CongTrans(sf, sf % R, weight);
    CongMul(sv, val, sf, weight);
    CongTrans(m, sv * sf, val * weight);
  }

  /** The three servers' answers open to the plaintext aggregate. */
  lemma {:induction false} AggregateOpens(v: Trio<Held>, vals: seq<uint128>, f: Trio<Held>, w: nat, weights: seq<int>,
                                          k: nat)
    requires Values(v, vals) && StandsFor(f, w, weights) && k <= |vals| <= w
    ensures Cong(Sum3(AggShare(v.s0, f.s0, k), AggShare(v.s1, f.s1, k), AggShare(v.s2, f.s2, k)),
                 WeightedSum(vals, weights, k))
  {
    hide Mul, Add, Cong, CongR;
    if k == 0 {
      CongRefl(0);
    } else {
      AggregateOpens(v, vals, f, w, weights, k - 1);
      OneRowMore(v, vals, f, w, weights, k - 1);
    }
  }

  // One more row at one server.
  lemma ShareStep(v: Held, f: Held, r: nat)
    requires r < |v.first| && r < |v.second| && r < |f.first| && r < |f.second|
    ensures CongR(AggShare(v, f, r + 1),
                  AggShare(v, f, r) as int + MulLocal(v.first[r], v.second[r], f.first[r], f.second[r], 0))
  {
    hide Mul, MulLocal, CongR, Add;
    AggStep(AggShare(v, f, r), v.first[r], v.second[r], f.first[r], f.second[r]);
  }

  // One more row: the opened sum grows by the row's weighted value.
  lemma OneRowMore(v: Trio<Held>, vals: seq<uint128>, f: Trio<Held>, w: nat, weights: seq<int>, r: nat)
    requires Values(v, vals) && StandsFor(f, w, weights) && r < |vals| <= w
    requires Cong(Sum3(AggShare(v.s0, f.s0, r), AggShare(v.s1, f.s1, r), AggShare(v.s2, f.s2, r)),
                  WeightedSum(vals, weights, r))
    ensures Cong(Sum3(AggShare(v.s0, f.s0, r + 1), AggShare(v.s1, f.s1, r + 1), AggShare(v.s2, f.s2, r + 1)),
                 WeightedSum(vals, weights, r + 1))
  {
    hide MulLocal, Cong, CongR, AggShare;
    var k := r + 1;
    var a0, a1, a2 := AggShare(v.s0, f.s0, r), AggShare(v.s1, f.s1, r), AggShare(v.s2, f.s2, r);
    var m0: int := MulLocal(v.s0.first[r], v.s0.second[r], f.s0.first[r], f.s0.second[r], 0);
    var m1: int := MulLocal(v.s1.first[r], v.s1.second[r], f.s1.first[r], f.s1.second[r], 0);
    var m2: int := MulLocal(v.s2.first[r], v.s2.second[r], f.s2.first[r], f.s2.second[r], 0);
    ShareStep(v.s0, f.s0, r);
    ShareStep(v.s1, f.s1, r);
    ShareStep(v.s2, f.s2, r);
    SumThreeSteps(AggShare(v.s0, f.s0, k), a0, m0, AggShare(v.s1, f.s1, k), a1, m1, AggShare(v.s2, f.s2, k), a2, m2);
    OpenFirst(f, w, r);
    RowOpens(v.s0.first[r], v.s1.first[r], v.s2.first[r], f.s0.first[r], f.s1.first[r], f.s2.first[r], vals[r],
             weights[r]);
    CongAdd(Sum3(a0, a1, a2), WeightedSum(vals, weights, r), Sum3(m0, m1, m2), vals[r] * weights[r]);
    CongTrans(Sum3(AggShare(v.s0, f.s0, k), AggShare(v.s1, f.s1, k), AggShare(v.s2, f.s2, k)),
              Sum3(a0, a1, a2) + Sum3(m0, m1, m2), WeightedSum(vals, weights, k));
  }

  lemma SumThreeSteps(n0: int, a0: int, m0: int, n1: int, a1: int, m1: int, n2: int, a2: int, m2: int)
    requires CongR(n0, a0 + m0) && CongR(n1, a1 + m1) && CongR(n2, a2 + m2)
    ensures Cong(Sum3(n0, n1, n2), Sum3(a0, a1, a2) + Sum3(m0, m1, m2))
  {
    CongRAdd(n0, a0 + m0, n1, a1 + m1);
    CongRAdd(n0 + n1, a0 + m0 + (a1 + m1), n2, a2 + m2);
    CongRToCong(Sum3(n0, n1, n2), Sum3(a0, a1, a2) + Sum3(m0, m1, m2));
  }

  // The first shares open to the same word as the second shares: they are the same three words.
  lemma OpenFirst(f: Trio<Held>, n: nat, r: nat)
    requires Replicated(f, n) && r < n
    ensures Open(f, r) == Sum3(f.s0.first[r], f.s1.first[r], f.s2.first[r]) % R
  {
  }

  // ----- without wrapping in between -----

  // A product of two words as a number.
  ghost function Whole(a: uint128, b: uint128): nat { (a as int) * b }

  ghost function DotSum(q: Vec, t: Vec, k: nat): nat
    requires k <= |q| && k <= |t|
  {
    if k == 0 then 0 else DotSum(q, t, k - 1) + Whole(q[k - 1], t[k - 1])
  }

  // A server's part of the products of values and filter: three of the nine terms of every row.
  ghost function ThreeTerms(v: Held, f: Held, k: nat): nat
    requires k <= |v.first| && k <= |v.second| && k <= |f.first| && k <= |f.second|
  {
    if k == 0 then 0
    else ThreeTerms(v, f, k - 1) + RowTerms(v.first[k - 1], v.second[k - 1], f.first[k - 1], f.second[k - 1])
  }

  ghost function RowTerms(v0: uint128, v1: uint128, f0: uint128, f1: uint128): nat
  {
    Whole(v0, f0) + Whole(v1, f0) + Whole(v0, f1)
  }

  // A word is what a number leaves modulo 2^128.
  ghost predicate Leaves(a: uint128, x: int) { a == x % R }

  lemma ProductWord(a: uint128, b: uint128)
    ensures Leaves(Mul(a, b), Whole(a, b))
  {
  }

  lemma OneMoreTerm(a: uint128, x: int, b: uint128, y: int)
    requires Leaves(a, x) && Leaves(b, y)
    ensures Leaves(Add(a, b), x + y)
  {
    hide CongR;
    CongRRefl(x);
    CongRRefl(y);
    CongRAdd(x % R, x, y % R, y);
    CongRMod(x % R + y % R, x + y);
  }

  lemma ThreeMoreTerms(s: uint128, x: int, a: uint128, p: int, b: uint128, q: int, c: uint128, r: int)
    requires Leaves(s, x) && Leaves(a, p) && Leaves(b, q) && Leaves(c, r)
    ensures Leaves(Add(Add(Add(s, a), b), c), x + p + q + r)
  {
    hide Add, Leaves;
    OneMoreTerm(s, x, a, p);
    OneMoreTerm(Add(s, a), x + p, b, q);
    OneMoreTerm(Add(Add(s, a), b), x + p + q, c, r);
  }

  // One row's three terms, in words and as numbers.
  function RowWord(s: uint128, v0: uint128, v1: uint128, f0: uint128, f1: uint128): uint128
  {
    Add(Add(Add(s, Mul(v0, f0)), Mul(v1, f0)), Mul(v0, f1))
  }

  lemma RowLeaves(s: uint128, x: int, v0: uint128, v1: uint128, f0: uint128, f1: uint128)
    requires Leaves(s, x)
    ensures Leaves(RowWord(s, v0, v1, f0, f1), x + RowTerms(v0, v1, f0, f1))
  {
    hide Add, Mul, Whole, Leaves;
    ProductWord(v0, f0);
    ProductWord(v1, f0);
    ProductWord(v0, f1);
    ThreeMoreTerms(s, x, Mul(v0, f0), Whole(v0, f0), Mul(v1, f0), Whole(v1, f0), Mul(v0, f1), Whole(v0, f1));
  }

  lemma AggShareNext(v: Held, f: Held, r: nat)
    requires r < |v.first| && r < |v.second| && r < |f.first| && r < |f.second|
    ensures AggShare(v, f, r + 1) == RowWord(AggShare(v, f, r), v.first[r], v.second[r], f.first[r], f.second[r])
  {
    hide Add, Mul;
  }

  lemma AggShareNothing(v: Held, f: Held)
    ensures Leaves(AggShare(v, f, 0), 0)
  {
    hide Add, Mul;
  }

  lemma {:induction false} AggShareLeaves(v: Held, f: Held, k: nat)
    requires k <= |v.first| && k <= |v.second| && k <= |f.first| && k <= |f.second|
    ensures Leaves(AggShare(v, f, k), ThreeTerms(v, f, k))
  {
    hide RowWord, RowTerms, Leaves, AggShare;
    if k == 0 {
      AggShareNothing(v, f);
    } else {
      var r := k - 1;
      AggShareLeaves(v, f, r);
      AggShareNext(v, f, r);
      RowLeaves(AggShare(v, f, r), ThreeTerms(v, f, r), v.first[r], v.second[r], f.first[r], f.second[r]);
    }
  }

  // What a server returns, without wrapping.
  lemma AggShareIsSum(v: Held, f: Held, k: nat)
    requires k <= |v.first| && k <= |v.second| && k <= |f.first| && k <= |f.second|
    ensures AggShare(v, f, k) == ThreeTerms(v, f, k) % R
  {
    hide AggShare, ThreeTerms;
    AggShareLeaves(v, f, k);
  }

  lemma {:induction false} DotLeaves(q: Vec, t: Vec, k: nat)
    requires k <= |q| && k <= |t|
    ensures Leaves(Dot(q, t, k), DotSum(q, t, k))
  {
    if k > 0 {
      hide Add, Mul, Whole, Leaves;
      DotLeaves(q, t, k - 1);
      ProductWord(q[k - 1], t[k - 1]);
      OneMoreTerm(Dot(q, t, k - 1), DotSum(q, t, k - 1), Mul(q[k - 1], t[k - 1]), Whole(q[k - 1], t[k - 1]));
    }
  }

  lemma DotIsSum(q: Vec, t: Vec, k: nat)
    requires k <= |q| && k <= |t|
    ensures Dot(q, t, k) == DotSum(q, t, k) % R
  {
    hide Dot, DotSum;
    DotLeaves(q, t, k);
  }
}
