/** Powers of two and the bit selection that drives every tree traversal. */
module Bits {
  import opened Arith

  function Pow2(n: nat): (p: nat)
    ensures p > 0
  {
    if n == 0 then 1 else 2 * Pow2(n - 1)
  }

  ghost predicate IsPow2(x: int) { exists e: nat :: x == Pow2(e) }

  lemma PowZero()
    ensures Pow2(0) == 1
  {
  }

  lemma HalfPower(e: nat)
    requires e > 0
    ensures Pow2(e) == 2 * Pow2(e - 1)
  {
  }

  lemma {:induction false} Pow2Add(a: nat, b: nat)
    ensures Pow2(a + b) == Pow2(a) * Pow2(b)
  {
    hide Pow2;
    if a == 0 {
      PowZero();
    } else {
      Pow2Add(a - 1, b);
      HalfPower(a + b);
      HalfPower(a);
      MulAssoc(2, Pow2(a - 1), Pow2(b));
    }
  }

  lemma {:induction false} Pow2Mono(a: nat, b: nat)
    requires a <= b
    ensures Pow2(a) <= Pow2(b)
    decreases b
  {
    if a < b { Pow2Mono(a, b - 1); }
  }

  lemma Pow2Sum(a: nat, b: nat, u: int, v: int)
    requires Pow2(a) == u && Pow2(b) == v
    ensures Pow2(a + b) == u * v
  {
    Pow2Add(a, b);
  }

  lemma Pow2Literals()
    ensures Pow2(126) * 4 == R
  {
    var n := 7;
    assert Pow2(n) == 0x80;
    Pow2Sum(n, n, 0x80, 0x80);
    Pow2Sum(2 * n, 2 * n, 0x4000, 0x4000);
    Pow2Sum(4 * n, 4 * n, 0x1000_0000, 0x1000_0000);
    Pow2Sum(8 * n, 8 * n, 0x100_0000_0000_0000, 0x100_0000_0000_0000);
    Pow2Sum(16 * n, 2 * n, 0x1_0000_0000_0000_0000_0000_0000_0000, 0x4000);
  }

  lemma DivNonNeg(x: nat, p: nat)
    requires p > 0
    ensures 0 <= x / p
  {
  }

  function Num(b: bool): nat { if b then 1 else 0 }

  // static_cast<u8>(x >> shift) & 1: shift, truncate to a byte, keep the low bit.
  function BitAt(x: nat, shift: nat): bool
  {
    ((x / Pow2(shift)) % 0x100) % 2 == 1
  }

  // The leading part of x once the `low` low-order bits are dropped.
  function Top(x: nat, low: nat): nat
  {
    DivNonNeg(x, Pow2(low));
    x / Pow2(low)
  }

  lemma DivTwice(x: nat, p: nat)
    requires p > 0
    ensures x / (2 * p) == (x / p) / 2
  {
    var q, r := x / p, x % p;
    ModBelow(x, p);
    ProductOfHalves(p, q);
    DivUnique(x, 2 * p, q / 2, (if q % 2 == 1 then p else 0) + r);
  }

  lemma DivDiv(x: nat, a: nat, p: nat)
    requires a > 0 && p > 0
    ensures x / a / p == x / (a * p)
  {
    var y := x / a;
    var q, r, t := y / p, y % p, x % a;
    ModBelow(x, a);
    ModBelow(y, p);
    RegroupDivided(a, p, q, r, t);
    DivUnique(x, a * p, q, a * r + t);
  }

  lemma RegroupDivided(a: nat, p: nat, q: nat, r: nat, t: nat)
    requires r < p && t < a
    ensures a * (p * q + r) + t == (a * p) * q + (a * r + t) && a * r + t < a * p
  {
    assert a * r + a <= a * p by { MulGap(a, r, p); }
  }

  lemma ProductOfHalves(p: int, q: nat)
    ensures p * q == (2 * p) * (q / 2) + if q % 2 == 1 then p else 0
  {
    var h := q / 2;
    MulAssoc(2, p, h);
    AddMultiple(p, h, h);
    if q % 2 == 1 { AddMultiple(p, 2 * h, 1); }
  }

  lemma MulGap(d: int, a: int, b: int)
    requires d > 0 && a < b
    ensures d * a + d <= d * b
  {
    assert d * b == d * (b - a - 1) + d * a + d;
  }

  lemma DivUnique(x: int, d: int, q: int, r: int)
    requires d > 0 && 0 <= r < d && x == d * q + r
    ensures x / d == q && x % d == r
  {
    if x / d < q { MulGap(d, x / d, q); }
    if q < x / d { MulGap(d, q, x / d); }
  }

  lemma ModBelow(j: nat, w: nat)
    requires w > 0
    ensures 0 <= j % w <= j && j % w < w && j == w * (j / w) + j % w && 0 <= j / w
  {
    DivNonNeg(j, w);
    if j / w > 0 { MulGap(w, 0, j / w); }
  }

  lemma AddMultiple(w: int, n: int, q: int)
    ensures w * (n + q) == w * n + w * q
  {
  }

  lemma MulAssoc(a: int, b: int, c: int)
    ensures (a * b) * c == a * (b * c)
  {
  }

  // Truncating to a byte does not change the low bit.
  lemma ByteKeepsLowBit(y: nat)
    ensures (y % 0x100) % 2 == y % 2
  {
    var q, r := y / 0x100, y % 0x100;
    DivUnique(y, 2, 0x80 * q + r / 2, r % 2);
  }

  // One more level of the tree appends one more bit to the prefix walked so far.
  lemma TopStep(x: nat, low: nat)
    ensures Top(x, low) == 2 * Top(x, low + 1) + Num(BitAt(x, low))
  {
    var p := Pow2(low);
    DivTwice(x, p);
    ByteKeepsLowBit(x / p);
  }

  // The path of x in a tree of the given depth: its bits from the most significant down.
  function PathOf(x: nat, depth: nat): (p: seq<bool>)
    ensures |p| == depth
  {
    seq(depth, i requires 0 <= i < depth => BitAt(x, depth - 1 - i))
  }

  // The number spelled by the first i steps of a path.
  function Prefix(p: seq<bool>, i: nat): nat
    requires i <= |p|
  {
    if i == 0 then 0 else 2 * Prefix(p, i - 1) + Num(p[i - 1])
  }

  lemma {:induction false} PrefixIsTop(x: nat, depth: nat, i: nat)
    requires i <= depth && x < Pow2(depth)
    ensures Prefix(PathOf(x, depth), i) == Top(x, depth - i)
  {
    if i == 0 {
      DivUnique(x, Pow2(depth), 0, x);
    } else {
      PrefixIsTop(x, depth, i - 1);
      TopStep(x, depth - i);
    }
  }

  // A path spells the number it was made from.
  lemma PathSpells(x: nat, depth: nat)
    requires x < Pow2(depth)
    ensures Prefix(PathOf(x, depth), depth) == x
  {
    PrefixIsTop(x, depth, depth);
  }

  // Paths whose first i steps spell the same number take the same steps.
  lemma {:induction false} PrefixSteps(p: seq<bool>, q: seq<bool>, i: nat)
    requires i <= |p| && i <= |q| && Prefix(p, i) == Prefix(q, i)
    ensures forall j :: 0 <= j < i ==> p[j] == q[j]
  {
    if i > 0 { PrefixSteps(p, q, i - 1); }
  }

  // A block of 2^e numbers aligned to its size lies under one node as high as the block.
  lemma AlignedBlock(start: nat, e: nat, low: nat, j: nat)
    requires e <= low && j < Pow2(e) && start % Pow2(e) == 0
    ensures Top(start + j, low) == Top(start, low)
  {
    hide Pow2;
    var p, q := Pow2(low), Top(start, low);
    Pow2Add(e, low - e);
    var w, n, a, r := Pow2(e), Pow2(low - e), start / Pow2(e), start % p;
    MultipleOf(start, w);
    ModBelow(start, p);
    assert start == w * a && start == p * q + r && p == w * n;
    AlignedArith(w, n, a, q, r, j);
    DivUnique(start + j, p, q, r + j);
  }

  lemma MultipleOf(x: nat, w: nat)
    requires w > 0 && x % w == 0
    ensures x == w * (x / w)
  {
  }

  lemma AlignedArith(w: nat, n: nat, a: int, q: int, r: nat, j: nat)
    requires j < w && w * a == (w * n) * q + r && r < w * n
    ensures r + j < w * n
  {
    Factor(w, n, q, a);
    MulGapBelow(w, a - n * q, n);
  }

  lemma Factor(w: int, n: int, q: int, a: int)
    ensures w * a - (w * n) * q == w * (a - n * q)
  {
  }

  lemma MulGapBelow(d: int, a: int, b: int)
    requires d > 0 && d * a < d * b
    ensures d * a + d <= d * b
  {
    if b <= a {
      assert d * a == d * b + d * (a - b);
    } else {
      MulGap(d, a, b);
    }
  }

  lemma PathStep(x: nat, depth: nat, i: nat)
    requires i < depth
    ensures PathOf(x, depth)[i] == BitAt(x, depth - 1 - i)
  {
  }

  // Halving a power of two above one.
  lemma HalfOf(range: nat, e: nat)
    requires range > 1 && range == Pow2(e)
    ensures e > 0 && range / 2 == Pow2(e - 1) && range == 2 * (range / 2)
  {
  }

  // A block inside the domain is no larger than the domain.
  lemma BlockFits(e: nat, depth: nat, start: nat, range: nat)
    requires range == Pow2(e) && start + range <= Pow2(depth)
    ensures e <= depth && (depth > 0 && range == 1 ==> e <= depth - 1)
  {
    if e > depth {
      Pow2Mono(depth + 1, e);
    }
  }
}
