/** A 128-bit seed block, split where the code splits it: bits 127..2, bit 1 and bit 0. */
module Blocks {
  import opened Arith
  import opened Bits

  // 2^126
  const W: int := 0x4000_0000_0000_0000_0000_0000_0000_0000

  type word126 = x: int | 0 <= x < W

  // hi: bits 127..2, mid: bit 1 (never corrected), t: bit 0 (the control bit).
  datatype Block = Block(hi: word126, mid: bool, t: bool)

  const ZERO: Block := Block(0, false, false)

  function XorNat(a: nat, b: nat): nat
  {
    if a == 0 && b == 0 then 0 else 2 * XorNat(a / 2, b / 2) + (if a % 2 == b % 2 then 0 else 1)
  }

  lemma {:induction false} XorNatBound(n: nat, a: nat, b: nat)
    requires a < Pow2(n) && b < Pow2(n)
    ensures XorNat(a, b) < Pow2(n)
  {
    if n > 0 { XorNatBound(n - 1, a / 2, b / 2); }
  }

  lemma {:induction false} XorNatCancel(a: nat, b: nat)
    ensures XorNat(XorNat(a, b), a) == b
    ensures XorNat(XorNat(a, b), b) == a
  {
    if a != 0 || b != 0 {
      XorNatCancel(a / 2, b / 2);
      var x := XorNat(a, b);
      XorNatSplit(a, b);
      XorNatSplit(x, a);
      XorNatSplit(x, b);
      assert XorNat(x, a) == b by { HalvesDetermine(XorNat(x, a), b); }
      assert XorNat(x, b) == a by { HalvesDetermine(XorNat(x, b), a); }
    }
  }

  lemma XorNatSplit(a: nat, b: nat)
    ensures XorNat(a, b) / 2 == XorNat(a / 2, b / 2)
    ensures XorNat(a, b) % 2 == (if a % 2 == b % 2 then 0 else 1)
  {
  }

  lemma HalvesDetermine(a: nat, b: nat)
    requires a / 2 == b / 2 && a % 2 == b % 2
    ensures a == b
  {
  }

  lemma {:induction false} XorNatCommutes(a: nat, b: nat)
    ensures XorNat(a, b) == XorNat(b, a)
  {
    if a != 0 || b != 0 { XorNatCommutes(a / 2, b / 2); }
  }

  lemma {:induction false} XorNatZero(a: nat)
    ensures XorNat(0, a) == a
  {
    if a != 0 { XorNatZero(a / 2); }
  }

  lemma XorWordBound(a: word126, b: word126)
    ensures 0 <= XorNat(a, b) < W
  {
    Pow2Literals();
    XorNatBound(126, a, b);
  }

  function Xor(a: Block, b: Block): Block
  {
    XorWordBound(a.hi, b.hi);
    Block(XorNat(a.hi, b.hi), a.mid != b.mid, a.t != b.t)
  }

  lemma XorCommutes(a: Block, b: Block)
    ensures Xor(a, b) == Xor(b, a)
  {
    XorNatCommutes(a.hi, b.hi);
  }

  // s & notThreeBlock: the seed without bit 1 and without the control bit.
  function Mask(s: Block): Block { Block(s.hi, false, false) }

  // The block read as an integer, as memcpy into a uint128_t reads it.
  function ToInt(s: Block): (x: uint128)
  {
    4 * s.hi + (if s.mid then 2 else 0) + (if s.t then 1 else 0)
  }

  function FromInt(x: uint128): (s: Block)
  {
    Block(x / 4, x % 4 >= 2, x % 2 == 1)
  }

  lemma FromToInt(s: Block)
    ensures FromInt(ToInt(s)) == s
  {
    var low := (if s.mid then 2 else 0) + (if s.t then 1 else 0);
    assert ToInt(s) == 4 * s.hi + low;
    LowBits(s.hi, low);
  }

  lemma LowBits(h: nat, low: nat)
    requires low < 4
    ensures (4 * h + low) / 4 == h && (4 * h + low) % 4 == low && (4 * h + low) % 2 == low % 2
  {
  }

  // One keyed AES permutation, as an arbitrary function.
  type Aes = Block -> Block

  // The four fixed keys the trees are expanded with: ZeroBlock, OneBlock, TwoBlock, ThreeBlock.
  datatype Cipher = Cipher(aes0: Aes, aes1: Aes, aes2: Aes, aes3: Aes)

  // One expansion of the masked seed: aes(ss) ^ ss.
  function Expand(aes: Aes, s: Block): Block
  {
    Xor(aes(Mask(s)), Mask(s))
  }

  // Two states that may differ only in bit 1: what the losing branches of a key agree on.
  ghost predicate SameButMid(a: Block, b: Block)
  {
    a.hi == b.hi && a.t == b.t
  }
}
