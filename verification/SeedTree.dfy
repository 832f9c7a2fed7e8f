/** The binary seed tree under both function secret sharing schemes: the client walks the path of
    the target emitting one correction word a level, each party replays the words along the path of
    its input. */
module SeedTree {
  import opened Bits
  import opened Blocks

  // The two parties' seeds at one node.
  datatype Pair = Pair(s0: Block, s1: Block)

  // The roots: the low bit of the first seed is forced to be the opposite of the second's.
  function Root(seeds: Pair): Pair
  {
    Pair(seeds.s0.(t := !seeds.s1.t), seeds.s1)
  }

  function Side(c: Cipher, keep: bool): Aes
  {
    if keep then c.aes1 else c.aes0
  }

  function SiXor(c: Cipher, p: Pair, side: bool): Block
  {
    Xor(Expand(Side(c, side), p.s0), Expand(Side(c, side), p.s1))
  }

  // The word published at one level: the lost seeds' difference, then the left and right t words.
  function CorrectionWord(c: Cipher, p: Pair, keep: bool): Block
  {
    Block(SiXor(c, p, !keep).hi,
          SiXor(c, p, false).t == keep,
          SiXor(c, p, true).t != keep)
  }

  // The t bit a correction word carries for one side.
  function TOf(cw: Block, side: bool): bool
  {
    if side then cw.t else cw.mid
  }

  // scw ^ t_side, applied only when the control bit of the parent is set.
  function Correction(cw: Block, side: bool, t: bool): Block
  {
    if t then Block(cw.hi, false, TOf(cw, side)) else ZERO
  }

  // One step of a party down the tree.
  function Traverse(c: Cipher, s: Block, cw: Block, keep: bool): Block
  {
    Xor(Correction(cw, keep, s.t), Expand(Side(c, keep), s))
  }

  // The seeds the client holds after i steps of the target's path.
  function GenPair(c: Cipher, seeds: Pair, target: seq<bool>, i: nat): Pair
    requires i <= |target|
  {
    if i == 0 then Root(seeds)
    else
      var p := GenPair(c, seeds, target, i - 1);
      var cw := CorrectionWord(c, p, target[i - 1]);
      Pair(Traverse(c, p.s0, cw, target[i - 1]), Traverse(c, p.s1, cw, target[i - 1]))
  }

  // The first i + 1 entries of a party's key: its root seed, then one correction word a level.
  function TreeKey(c: Cipher, seeds: Pair, target: seq<bool>, party: bool, i: nat): (k: seq<Block>)
    requires i <= |target|
    ensures |k| == i + 1
  {
    if i == 0 then [if !party then Root(seeds).s0 else Root(seeds).s1]
    else TreeKey(c, seeds, target, party, i - 1) + [CorrectionWord(c, GenPair(c, seeds, target, i - 1), target[i - 1])]
  }

  lemma {:induction false} TreeKeyAt(c: Cipher, seeds: Pair, target: seq<bool>, party: bool, n: nat, i: nat)
    requires i <= n <= |target|
    ensures TreeKey(c, seeds, target, party, n)[i] == TreeKey(c, seeds, target, party, i)[i]
  {
    hide CorrectionWord, GenPair;
    if i < n { TreeKeyAt(c, seeds, target, party, n - 1, i); }
  }

  // The state of a party after i steps of a path.
  function StateAt(c: Cipher, k: seq<Block>, path: seq<bool>, i: nat): Block
    requires i <= |path| < |k|
  {
    if i == 0 then k[0]
    else Traverse(c, StateAt(c, k, path, i - 1), k[i], path[i - 1])
  }

  // The state depends only on the steps taken so far.
  lemma {:induction false} StateOfPrefix(c: Cipher, k: seq<Block>, p: seq<bool>, q: seq<bool>, i: nat)
    requires i <= |p| < |k| && i <= |q| < |k|
    requires forall j :: 0 <= j < i ==> p[j] == q[j]
    ensures StateAt(c, k, p, i) == StateAt(c, k, q, i)
  {
    hide Traverse;
    if i > 0 { StateOfPrefix(c, k, p, q, i - 1); }
  }

  // Losing branch: equal control bits and equal seeds, whatever bit 1 is.
  lemma LoseAgrees(c: Cipher, p: Pair, keep: bool)
    requires p.s0.t != p.s1.t
    ensures
      var cw := CorrectionWord(c, p, keep);
      SameButMid(Traverse(c, p.s0, cw, !keep), Traverse(c, p.s1, cw, !keep))
  {
    var lose := !keep;
    var e0, e1 := Expand(Side(c, lose), p.s0), Expand(Side(c, lose), p.s1);
    XorNatCancel(e0.hi, e1.hi);
    XorNatZero(e0.hi);
    XorNatZero(e1.hi);
  }

  // Kept branch: the control bits still differ.
  lemma KeepDiffers(c: Cipher, p: Pair, keep: bool)
    requires p.s0.t != p.s1.t
    ensures
      var cw := CorrectionWord(c, p, keep);
      Traverse(c, p.s0, cw, keep).t != Traverse(c, p.s1, cw, keep).t
  {
  }

  // Once the states agree up to bit 1 they agree for good: bit 1 is masked before every expansion.
  lemma AgreeStays(c: Cipher, a: Block, b: Block, cw: Block, keep: bool)
    requires SameButMid(a, b)
    ensures Traverse(c, a, cw, keep) == Traverse(c, b, cw, keep)
  {
    assert Mask(a) == Mask(b);
  }

  // The two parties' states at a node reached by the prefix px, when the target's prefix is pa.
  ghost predicate Walked(a0: Block, a1: Block, p: Pair, px: nat, pa: nat)
  {
    if px == pa then a0 == p.s0 && a1 == p.s1 && a0.t != a1.t else SameButMid(a0, a1)
  }

  lemma WalkStep(c: Cipher, b0: Block, b1: Block, p: Pair, px: nat, pa: nat, mine: bool, keep: bool)
    requires Walked(b0, b1, p, px, pa)
    ensures
      var cw := CorrectionWord(c, p, keep);
      Walked(Traverse(c, b0, cw, mine), Traverse(c, b1, cw, mine),
             Pair(Traverse(c, p.s0, cw, keep), Traverse(c, p.s1, cw, keep)), 2 * px + Num(mine), 2 * pa + Num(keep))
  {
    if px != pa {
      AgreeStays(c, b0, b1, CorrectionWord(c, p, keep), mine);
    } else if mine == keep {
      KeepDiffers(c, p, keep);
    } else {
      LoseAgrees(c, p, keep);
    }
  }

  /** The invariant of the two parties' walks: on the target's path they hold the client's seeds and
      their control bits differ; off it their states are equal up to bit 1. */
  lemma {:induction false} WalkInvariant(c: Cipher, seeds: Pair, target: seq<bool>, path: seq<bool>, i: nat)
    requires |path| == |target| && i <= |target|
    ensures Walked(StateAt(c, TreeKey(c, seeds, target, false, |target|), path, i),
                   StateAt(c, TreeKey(c, seeds, target, true, |target|), path, i),
                   GenPair(c, seeds, target, i), Prefix(path, i), Prefix(target, i))
  {
    hide CorrectionWord, Traverse;
    TreeKeyAt(c, seeds, target, false, |target|, i);
    TreeKeyAt(c, seeds, target, true, |target|, i);
    if i > 0 {
      WalkInvariant(c, seeds, target, path, i - 1);
      WalkStep(c, StateAt(c, TreeKey(c, seeds, target, false, |target|), path, i - 1),
               StateAt(c, TreeKey(c, seeds, target, true, |target|), path, i - 1),
               GenPair(c, seeds, target, i - 1), Prefix(path, i - 1), Prefix(target, i - 1),
               path[i - 1], target[i - 1]);
    }
  }
}
