/** Replicated secret sharing among three servers: server i holds share i and share i + 1. */
module Rss {
  import opened Arith

  type Vec = seq<uint128>

  function Sum3(a: int, b: int, c: int): int { a + b + c }

  // One value for each server.
  datatype Trio<T> = Trio(s0: T, s1: T, s2: T)

  function Share<T>(t: Trio<T>, i: nat): T
    requires i < 3
  {
    if i == 0 then t.s0 else if i == 1 then t.s1 else t.s2
  }

  // What one server holds of a shared vector.
  datatype Held = Held(first: Vec, second: Vec)

  // ----- congruence modulo 2^128 -----

  ghost predicate CongR(a: int, b: int) { (a - b) % R == 0 }

  lemma CongRQuotient(a: int, b: int) returns (k: int)
    requires CongR(a, b)
    ensures a == b + R * k
  {
    k := (a - b) / R;
  }

  lemma CongRFrom(a: int, b: int, k: int)
    requires a == b + R * k
    ensures CongR(a, b)
  {
  }

  lemma CongRRefl(a: int)
    ensures CongR(a, a) && CongR(a % R, a)
  {
    hide CongR;
    CongRFrom(a, a, 0);
    CongRFrom(a % R, a, -(a / R));
  }

  lemma CongRTrans(a: int, b: int, c: int)
    requires CongR(a, b) && CongR(b, c)
    ensures CongR(a, c)
  {
    hide CongR;
    var k := CongRQuotient(a, b);
    var j := CongRQuotient(b, c);
    CongRFrom(a, c, k + j);
  }

  lemma CongRAdd(a: int, b: int, c: int, d: int)
    requires CongR(a, b) && CongR(c, d)
    ensures CongR(a + c, b + d)
  {
    hide CongR;
    var k := CongRQuotient(a, b);
    var j := CongRQuotient(c, d);
    CongRFrom(a + c, b + d, k + j);
  }

  lemma CongRMul(a: int, b: int, c: int, d: int)
    requires CongR(a, b) && CongR(c, d)
    ensures CongR(a * c, b * d)
  {
    hide CongR;
    var k := CongRQuotient(a, b);
    var j := CongRQuotient(c, d);
    assert a * c == b * d + R * (b * j + k * d + R * k * j);
    CongRFrom(a * c, b * d, b * j + k * d + R * k * j);
  }

  lemma CongRMod(a: int, b: int)
    requires CongR(a, b)
    ensures a % R == b % R
  {
    var k := CongRQuotient(a, b);
    SameRemainderR(a, b, k);
  }

  lemma SameRemainderR(a: int, b: int, k: int)
    requires a == b + R * k
    ensures a % R == b % R
  {
  }

  // 2^125 divides 2^128, so what agrees modulo the word agrees modulo the group order.
  lemma CongRToCong(a: int, b: int)
    requires CongR(a, b)
    ensures Cong(a, b)
  {
    hide Cong, CongR;
    var k := CongRQuotient(a, b);
    CongFrom(a, b, 8 * k);
  }

  lemma AddR(a: uint128, x: int, b: uint128, y: int)
    requires CongR(a, x) && CongR(b, y)
    ensures CongR(Add(a, b), x + y)
  {
    hide CongR;
    var s: int := a + b;
    CongRRefl(s);
    CongRAdd(a, x, b, y);
    CongRTrans(Add(a, b), s, x + y);
  }

  lemma MulR(a: uint128, x: int, b: uint128, y: int)
    requires CongR(a, x) && CongR(b, y)
    ensures CongR(Mul(a, b), x * y)
  {
    hide CongR;
    var s: int := (a as int) * b;
    CongRRefl(s);
    CongRMul(a, x, b, y);
    CongRTrans(Mul(a, b), s, x * y);
  }

  // ----- one row of a multiplication -----

  // A server's additive share of a product, masked by its share of zero.
  function MulLocal(x0: uint128, x1: uint128, y0: uint128, y1: uint128, z: uint128): uint128
  {
    Add(Add(Add(Mul(x0, y0), Mul(x1, y0)), Mul(x0, y1)), z)
  }

  lemma MulLocalCong(x0: uint128, x1: uint128, y0: uint128, y1: uint128, z: uint128)
    ensures CongR(MulLocal(x0, x1, y0, y1, z), x0 * y0 + x1 * y0 + x0 * y1 + z)
  {
    hide CongR, Add, Mul;
    CongRRefl(x0); CongRRefl(x1); CongRRefl(y0); CongRRefl(y1); CongRRefl(z);
    var p: int, q: int, r: int := x0 * y0, x1 * y0, x0 * y1;
    MulR(x0, x0, y0, y0);
    MulR(x1, x1, y0, y0);
    MulR(x0, x0, y1, y1);
    AddR(Mul(x0, y0), p, Mul(x1, y0), q);
    AddR(Add(Mul(x0, y0), Mul(x1, y0)), p + q, Mul(x0, y1), r);
    AddR(Add(Add(Mul(x0, y0), Mul(x1, y0)), Mul(x0, y1)), p + q + r, z, z);
  }

  // The three local products cover the nine cross terms exactly once.
  lemma NineTerms(a0: int, a1: int, a2: int, b0: int, b1: int, b2: int)
    ensures (a0 * b0 + a1 * b0 + a0 * b1) + (a1 * b1 + a2 * b1 + a1 * b2) + (a2 * b2 + a0 * b2 + a2 * b0)
         == (a0 + a1 + a2) * (b0 + b1 + b2)
  {
  }

  lemma MulSharesOpen(a0: uint128, a1: uint128, a2: uint128, b0: uint128, b1: uint128, b2: uint128,
                      z0: uint128, z1: uint128, z2: uint128)
    requires CongR(z0 + z1 + z2, 0)
    ensures CongR(MulLocal(a0, a1, b0, b1, z0) + MulLocal(a1, a2, b1, b2, z1) + MulLocal(a2, a0, b2, b0, z2),
                  (a0 + a1 + a2) * (b0 + b1 + b2))
  {
    hide MulLocal, CongR;
    MulLocalCong(a0, a1, b0, b1, z0);
    MulLocalCong(a1, a2, b1, b2, z1);
    MulLocalCong(a2, a0, b2, b0, z2);
    NineTerms(a0, a1, a2, b0, b1, b2);
    SumOfThree(MulLocal(a0, a1, b0, b1, z0), a0 * b0 + a1 * b0 + a0 * b1, z0,
               MulLocal(a1, a2, b1, b2, z1), a1 * b1 + a2 * b1 + a1 * b2, z1,
               MulLocal(a2, a0, b2, b0, z2), a2 * b2 + a0 * b2 + a2 * b0, z2);
  }

  lemma SumOfThree(m0: int, p0: int, z0: int, m1: int, p1: int, z1: int, m2: int, p2: int, z2: int)
    requires CongR(m0, p0 + z0) && CongR(m1, p1 + z1) && CongR(m2, p2 + z2) && CongR(z0 + z1 + z2, 0)
    ensures CongR(m0 + m1 + m2, p0 + p1 + p2)
  {
    hide CongR;
    CongRAdd(m0, p0 + z0, m1, p1 + z1);
    CongRAdd(m0 + m1, p0 + z0 + (p1 + z1), m2, p2 + z2);
    CongRRefl(p0 + p1 + p2);
    CongRAdd(p0 + p1 + p2, p0 + p1 + p2, z0 + z1 + z2, 0);
    CongRTrans(m0 + m1 + m2, p0 + p1 + p2 + (z0 + z1 + z2), p0 + p1 + p2);
  }

  // ----- shares of zero -----

  // The keyed pseudorandom function, as an arbitrary function of key and input.
  type Prf = (uint128, uint128) -> uint128

  // GetNextSecretShareOfZero: own is the server's key, prev the key received from its predecessor.
  function ZeroShare(prf: Prf, own: uint128, prev: uint128, at: uint128): uint128
  {
    Sub(prf(prev, at), prf(own, at))
  }

  // What the share adds to the own key's output is the predecessor key's, so it is 0 only where these agree.
  lemma ZeroShareIs(prf: Prf, own: uint128, prev: uint128, at: uint128)
    ensures (ZeroShare(prf, own, prev, at) + prf(own, at)) % R == prf(prev, at)
  {
    SubUndone(prf(prev, at), prf(own, at));
  }

  lemma SubUndone(a: uint128, b: uint128)
    ensures (Sub(a, b) + b) % R == a
  {
    hide CongR;
    var d: int := (a as int) - b;
    CongRRefl(d);
    CongRRefl(b);
    CongRAdd(d % R, d, b, b);
    CongRMod(d % R + b, a);
  }

  // A masked word, with the mask's two outputs moved to the two sides.
  lemma MaskUndone(b: uint128, a: uint128, z: uint128, own: uint128, prev: uint128)
    requires (z + own) % R == prev
    ensures (Add(Add(b, a), z) + own) % R == Sum3(b, a, prev) % R
  {
    hide CongR, Add;
    var zo: int, ba: int := z + own, b + a;
    AddLeft(b, a, z);
    CongRRefl(own); CongRRefl(zo); CongRRefl(ba);
    CongRAdd(Add(Add(b, a), z), ba + z, own, own);
    CongRAdd(ba, ba, zo % R, zo);
    CongRMod(Add(Add(b, a), z) + own, ba + zo);
    CongRMod(ba + zo % R, ba + zo);
  }

  // The same without wrapping between the terms.
  lemma MulLocalIs(x0: uint128, x1: uint128, y0: uint128, y1: uint128, z: uint128)
    ensures MulLocal(x0, x1, y0, y1, z) == (x0 * y0 + x1 * y0 + x0 * y1 + z) % R
  {
    hide CongR, Add, Mul;
    MulLocalCong(x0, x1, y0, y1, z);
    CongRMod(MulLocal(x0, x1, y0, y1, z), x0 * y0 + x1 * y0 + x0 * y1 + z);
    hide MulLocal;
    WordMod(MulLocal(x0, x1, y0, y1, z));
  }

  lemma WordMod(a: uint128)
    ensures a % R == a
  {
  }

  // Where row k of rows of w words starts.
  function RowStart(k: nat, w: nat): nat { k * w }

  // The input of set k of the n sets of a reshare, of w words each.
  function SetInput(k: nat, n: nat, w: nat): nat { k * n + w }

  // A row of zero shares, from consecutive inputs.
  function ZeroRun(prf: Prf, own: uint128, prev: uint128, at: uint128, n: nat): (z: Vec)
    ensures |z| == n
  {
    seq<uint128>(n, r requires 0 <= r < n => ZeroShare(prf, own, prev, (at + r) % R))
  }

  lemma MoveOn(a: nat, r: nat)
    ensures (a % R + r) % R == (a + r) % R
  {
    hide CongR;
    CongRRefl(a);
    CongRRefl(r);
    CongRAdd(a % R, a, r, r);
    CongRMod(a % R + r, a + r);
  }

  // The servers' own keys; each has also received its predecessor's.
  datatype Setup = Setup(prf: Prf, keys: Trio<uint128>)

  function ZeroAt(s: Setup, i: nat, at: uint128): uint128
    requires i < 3
  {
    ZeroShare(s.prf, Share(s.keys, i), Share(s.keys, if i == 0 then 2 else i - 1), at)
  }

  /** Around the ring every key's output is added once and subtracted once: each share is the predecessor
      key's output less the own key's, and the three add up to nothing. */
  lemma ZeroSharesCancel(s: Setup, at: uint128)
    ensures CongR(Sum3(ZeroAt(s, 0, at), ZeroAt(s, 1, at), ZeroAt(s, 2, at)), 0)
    ensures (ZeroAt(s, 0, at) + s.prf(s.keys.s0, at)) % R == s.prf(s.keys.s2, at)
    ensures (ZeroAt(s, 1, at) + s.prf(s.keys.s1, at)) % R == s.prf(s.keys.s0, at)
    ensures (ZeroAt(s, 2, at) + s.prf(s.keys.s2, at)) % R == s.prf(s.keys.s1, at)
  {
    hide ZeroShare, CongR;
    ZerosCancel(s, at);
    ZeroShareIs(s.prf, s.keys.s0, s.keys.s2, at);
    ZeroShareIs(s.prf, s.keys.s1, s.keys.s0, at);
    ZeroShareIs(s.prf, s.keys.s2, s.keys.s1, at);
  }

  lemma ZerosCancel(s: Setup, at: uint128)
    ensures CongR(Sum3(ZeroAt(s, 0, at), ZeroAt(s, 1, at), ZeroAt(s, 2, at)), 0)
  {
    RingOfDifferences(s.prf(s.keys.s0, at), s.prf(s.keys.s1, at), s.prf(s.keys.s2, at));
  }

  lemma RingOfDifferences(p0: uint128, p1: uint128, p2: uint128)
    ensures CongR(Sub(p2, p0) + Sub(p0, p1) + Sub(p1, p2), 0)
  {
    var d0: int, d1: int, d2: int := (p2 as int) - p0, (p0 as int) - p1, (p1 as int) - p2;
    CongRRefl(d0);
    CongRRefl(d1);
    CongRRefl(d2);
    CongRAdd(Sub(p2, p0), d0, Sub(p0, p1), d1);
    CongRAdd(Sub(p2, p0) + Sub(p0, p1), d0 + d1, Sub(p1, p2), d2);
  }

  // ----- vectors -----

  // A replicated vector: all shares as long as each other, and each server's first share equal to its
  // predecessor's second.
  ghost predicate Replicated(h: Trio<Held>, n: nat)
  {
    && |h.s0.second| == |h.s1.second| == |h.s2.second| == n
    && h.s0.first == h.s2.second && h.s1.first == h.s0.second && h.s2.first == h.s1.second
  }

  // Every share of a vector has a value for each of the n rows.
  ghost predicate Sized(h: Trio<Held>, n: nat)
  {
    && |h.s0.first| == |h.s1.first| == |h.s2.first| == n
    && |h.s0.second| == |h.s1.second| == |h.s2.second| == n
  }

  ghost predicate Rows(z: Trio<Vec>, n: nat) { |z.s0| == |z.s1| == |z.s2| == n }

  // The shared value of one row: the three second shares, summed modulo 2^128.
  function Open(h: Trio<Held>, r: nat): uint128
    requires r < |h.s0.second| && r < |h.s1.second| && r < |h.s2.second|
  {
    Sum3(h.s0.second[r], h.s1.second[r], h.s2.second[r]) % R
  }

  ghost predicate ZeroRow(z: Trio<Vec>, n: nat)
  {
    && Rows(z, n)
    && forall r :: 0 <= r < n ==> CongR(Sum3(z.s0[r], z.s1[r], z.s2[r]), 0)
  }

  function MulVec(x: Held, y: Held, z: Vec): (m: Vec)
    requires |x.first| == |x.second| == |y.first| == |y.second| == |z|
    ensures |m| == |z|
  {
    seq(|z|, r requires 0 <= r < |z| => MulLocal(x.first[r], x.second[r], y.first[r], y.second[r], z[r]))
  }

  function AddVec(a: Vec, b: Vec): (s: Vec)
    requires |a| == |b|
    ensures |s| == |a|
  {
    seq(|a|, r requires 0 <= r < |a| => Add(a[r], b[r]))
  }

  // Every server passes its vector to its successor and keeps it as its second share.
  function Ring(m: Trio<Vec>): Trio<Held>
  {
    Trio(Held(m.s2, m.s0), Held(m.s0, m.s1), Held(m.s1, m.s2))
  }

  // AndFilters: multiply, then exchange.
  function And(x: Trio<Held>, y: Trio<Held>, z: Trio<Vec>, n: nat): (out: Trio<Held>)
    requires Sized(x, n) && Sized(y, n) && Rows(z, n)
    ensures Sized(out, n)
  {
    Ring(Trio(MulVec(x.s0, y.s0, z.s0), MulVec(x.s1, y.s1, z.s1), MulVec(x.s2, y.s2, z.s2)))
  }

  function AddHeld(p: Held, x: Held, y: Held): Held
    requires |p.first| == |x.first| == |y.first| && |p.second| == |x.second| == |y.second|
  {
    Held(AddVec(p.first, AddVec(x.first, y.first)), AddVec(p.second, AddVec(x.second, y.second)))
  }

  // What OrFilters computes on a pair of values.
  function OrWord(a: uint128, b: uint128): uint128
  {
    var x: int, y: int := a, b;
    (x + y + x * y) % R
  }

  // OrFilters: the product plus both operands.
  function Or(x: Trio<Held>, y: Trio<Held>, z: Trio<Vec>, n: nat): (out: Trio<Held>)
    requires Sized(x, n) && Sized(y, n) && Rows(z, n)
    ensures Sized(out, n)
  {
    var p := And(x, y, z, n);
    Trio(AddHeld(p.s0, x.s0, y.s0), AddHeld(p.s1, x.s1, y.s1), AddHeld(p.s2, x.s2, y.s2))
  }

  // What one server sends for one set of a reshare: its two vectors added up, and one share of zero in
  // every row.
  function MaskSet(h: Held, z: uint128): (m: Vec)
    requires |h.first| == |h.second|
    ensures |m| == |h.first|
  {
    AddVec(AddVec(h.second, h.first), seq<uint128>(|h.first|, _ => z))
  }

  // Sets whose two vectors have w words each.
  predicate EvenSets(sets: seq<Held>, w: nat)
  {
    forall k :: 0 <= k < |sets| ==> |sets[k].first| == |sets[k].second| == w
  }

  // What one server sends for all sets of a reshare, one input a set.
  function MaskRun(prf: Prf, own: uint128, prev: uint128, at: uint128, sets: seq<Held>, w: nat): (m: seq<Vec>)
    requires EvenSets(sets, w)
    ensures |m| == |sets|
  {
    seq<Vec>(|sets|, k requires 0 <= k < |sets| =>
      MaskSet(sets[k], ZeroShare(prf, own, prev, (at + SetInput(k, |sets|, w)) % R)))
  }

  // One server's part of every set.
  function PartOf(sets: seq<Trio<Held>>, i: nat): (part: seq<Held>)
    requires i < 3
    ensures |part| == |sets|
  {
    seq<Held>(|sets|, k requires 0 <= k < |sets| => Share(sets[k], i))
  }

  lemma EvenParts(sets: seq<Trio<Held>>, w: nat)
    requires forall k :: 0 <= k < |sets| ==> Sized(sets[k], w)
    ensures EvenSets(PartOf(sets, 0), w) && EvenSets(PartOf(sets, 1), w) && EvenSets(PartOf(sets, 2), w)
  {
    forall k | 0 <= k < |sets| ensures Sized(sets[k], w) {}
  }

  // RSSReshare of one set.
  function ReshareSet(s: Trio<Held>, z: Trio<uint128>, w: nat): (out: Trio<Held>)
    requires Sized(s, w)
    ensures Sized(out, w)
  {
    Ring(Trio(MaskSet(s.s0, z.s0), MaskSet(s.s1, z.s1), MaskSet(s.s2, z.s2)))
  }

  // What a reshare of loose words opens to: the sum of the six words of a row.
  function LooseSum(s: Trio<Held>, r: nat): uint128
    requires r < |s.s0.first| && r < |s.s1.first| && r < |s.s2.first|
    requires r < |s.s0.second| && r < |s.s1.second| && r < |s.s2.second|
  {
    (Sum3(s.s0.first[r], s.s1.first[r], s.s2.first[r]) + Sum3(s.s0.second[r], s.s1.second[r], s.s2.second[r])) % R
  }

  // A reshare's result for one set.
  ghost predicate Reshared(out: Trio<Held>, s: Trio<Held>, w: nat)
  {
    Replicated(out, w) && Sized(s, w) && forall r :: 0 <= r < w ==> Open(out, r) == LooseSum(s, r)
  }

  /** A conjunction of replicated vectors is replicated and opens to the product, row by row. */
  lemma AndOpens(x: Trio<Held>, y: Trio<Held>, z: Trio<Vec>, n: nat)
    requires Replicated(x, n) && Replicated(y, n) && ZeroRow(z, n)
    ensures Replicated(And(x, y, z, n), n)
    ensures forall r :: 0 <= r < n ==> Open(And(x, y, z, n), r) == Mul(Open(x, r), Open(y, r))
  {
    hide MulLocal, CongR, Mul;
    var out := And(x, y, z, n);
    forall r | 0 <= r < n ensures Open(out, r) == Mul(Open(x, r), Open(y, r)) {
      ProductOpens(x.s2.second[r], x.s0.second[r], x.s1.second[r], y.s2.second[r], y.s0.second[r], y.s1.second[r],
                   z.s0[r], z.s1[r], z.s2[r]);
    }
  }

  // One row: the three local products add up to the product of what the shares open to.
  lemma ProductOpens(a0: uint128, a1: uint128, a2: uint128, b0: uint128, b1: uint128, b2: uint128,
                     z0: uint128, z1: uint128, z2: uint128)
    requires CongR(Sum3(z0, z1, z2), 0)
    ensures Sum3(MulLocal(a0, a1, b0, b1, z0), MulLocal(a1, a2, b1, b2, z1), MulLocal(a2, a0, b2, b0, z2)) % R
         == Mul(Sum3(a1, a2, a0) % R, Sum3(b1, b2, b0) % R)
  {
    hide MulLocal, CongR;
    MulSharesOpen(a0, a1, a2, b0, b1, b2, z0, z1, z2);
    var sa, sb := Sum3(a1, a2, a0), Sum3(b1, b2, b0);
    CongRRefl(sa);
    CongRRefl(sb);
    CongRMul(sa % R, sa, sb % R, sb);
    CongRMod(Sum3(MulLocal(a0, a1, b0, b1, z0), MulLocal(a1, a2, b1, b2, z1), MulLocal(a2, a0, b2, b0, z2)), sa * sb);
    CongRMod(sa % R * (sb % R), sa * sb);
  }

  /** A disjunction opens to x + y + x * y. */
  lemma OrOpens(x: Trio<Held>, y: Trio<Held>, z: Trio<Vec>, n: nat)
    requires Replicated(x, n) && Replicated(y, n) && ZeroRow(z, n)
    ensures Replicated(Or(x, y, z, n), n)
    ensures forall r :: 0 <= r < n ==> Open(Or(x, y, z, n), r) == OrWord(Open(x, r), Open(y, r))
  {
    hide MulVec, CongR;
    AndOpens(x, y, z, n);
    var p, out := And(x, y, z, n), Or(x, y, z, n);
    forall r | 0 <= r < n ensures Open(out, r) == OrWord(Open(x, r), Open(y, r)) {
      assert Open(p, r) == Mul(Open(x, r), Open(y, r));
      OpenOfSums(p.s0.second[r], p.s1.second[r], p.s2.second[r], x.s0.second[r], x.s1.second[r], x.s2.second[r],
                 y.s0.second[r], y.s1.second[r], y.s2.second[r]);
      WrapProduct(Open(x, r), Open(y, r));
    }
  }

  lemma WrapProduct(a: int, b: int)
    ensures ((a * b) % R + (a + b)) % R == (a + b + a * b) % R
  {
    CongRRefl(a * b);
    CongRRefl(a + b);
    CongRAdd((a * b) % R, a * b, a + b, a + b);
    CongRMod((a * b) % R + (a + b), a + b + a * b);
  }

  lemma OpenOfSums(p0: uint128, p1: uint128, p2: uint128, x0: uint128, x1: uint128, x2: uint128,
                   y0: uint128, y1: uint128, y2: uint128)
    ensures Sum3(Add(p0, Add(x0, y0)), Add(p1, Add(x1, y1)), Add(p2, Add(x2, y2))) % R
         == (Sum3(p0, p1, p2) % R + (Sum3(x0, x1, x2) % R + Sum3(y0, y1, y2) % R)) % R
  {
    hide CongR, Add;
    AddTwice(p0, x0, y0);
    AddTwice(p1, x1, y1);
    AddTwice(p2, x2, y2);
    var p, x, y := Sum3(p0, p1, p2), Sum3(x0, x1, x2), Sum3(y0, y1, y2);
    var l0, l1, l2 := Sum3(p0, x0, y0), Sum3(p1, x1, y1), Sum3(p2, x2, y2);
    var a0: int, a1: int, a2: int := Add(p0, Add(x0, y0)), Add(p1, Add(x1, y1)), Add(p2, Add(x2, y2));
    CongRAdd(a0, l0, a1, l1);
    CongRAdd(a0 + a1, l0 + l1, a2, l2);
    CongRMod(a0 + a1 + a2, p + (x + y));
    ReduceEach(p, x, y);
  }

  lemma ReduceEach(p: int, x: int, y: int)
    ensures (p % R + (x % R + y % R)) % R == (p + (x + y)) % R
  {
    hide CongR;
    CongRRefl(p);
    CongRRefl(x);
    CongRRefl(y);
    CongRAdd(x % R, x, y % R, y);
    CongRAdd(p % R, p, x % R + y % R, x + y);
    CongRMod(p % R + (x % R + y % R), p + (x + y));
  }

  lemma AddedTwice(p: uint128, x: uint128, y: uint128)
    ensures Add(p, Add(x, y)) == Sum3(p, x, y) % R
  {
    hide CongR, Add;
    AddTwice(p, x, y);
    CongRMod(Add(p, Add(x, y)), Sum3(p, x, y));
    WordMod(Add(p, Add(x, y)));
  }

  lemma AddTwice(p: uint128, x: uint128, y: uint128)
    ensures CongR(Add(p, Add(x, y)), Sum3(p, x, y))
  {
    CongRRefl(p);
    CongRRefl(x);
    CongRRefl(y);
    AddR(x, x, y, y);
    var s: int := x + y;
    AddR(p, p, Add(x, y), s);
  }

  /** Resharing three-out-of-three shares gives a replicated vector with the same value. */
  lemma ReshareOpens(s: Trio<Held>, z: Trio<uint128>, w: nat)
    requires Sized(s, w) && CongR(Sum3(z.s0, z.s1, z.s2), 0)
    ensures Reshared(ReshareSet(s, z, w), s, w)
  {
    hide CongR, Add;
    forall r | 0 <= r < w ensures Open(ReshareSet(s, z, w), r) == LooseSum(s, r) {
      SumsMasked(s.s0.first[r], s.s1.first[r], s.s2.first[r], s.s0.second[r], s.s1.second[r], s.s2.second[r],
                 z.s0, z.s1, z.s2);
    }
  }

  lemma SumsMasked(a0: uint128, a1: uint128, a2: uint128, b0: uint128, b1: uint128, b2: uint128,
                   z0: uint128, z1: uint128, z2: uint128)
    requires CongR(z0 + z1 + z2, 0)
    ensures (Add(Add(b0, a0), z0) + Add(Add(b1, a1), z1) + Add(Add(b2, a2), z2)) % R
         == (Sum3(a0, a1, a2) + Sum3(b0, b1, b2)) % R
  {
    hide CongR, Add;
    AddLeft(b0, a0, z0);
    AddLeft(b1, a1, z1);
    AddLeft(b2, a2, z2);
    SumOfThree(Add(Add(b0, a0), z0), b0 + a0, z0, Add(Add(b1, a1), z1), b1 + a1, z1, Add(Add(b2, a2), z2), b2 + a2, z2);
    CongRMod(Add(Add(b0, a0), z0) + Add(Add(b1, a1), z1) + Add(Add(b2, a2), z2), a0 + a1 + a2 + b0 + b1 + b2);
  }

  lemma AddLeft(b: uint128, a: uint128, z: uint128)
    ensures CongR(Add(Add(b, a), z), (b + a) + z)
  {
    hide CongR, Add;
    CongRRefl(b);
    CongRRefl(a);
    CongRRefl(z);
    AddR(b, b, a, a);
    var s: int := b + a;
    AddR(Add(b, a), s, z, z);
  }
}
