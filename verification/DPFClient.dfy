/** keyGenDPF: the client's key generation loop. */
module DPFClient {
  import opened Arith
  import opened Bits
  import opened Blocks
  import opened SeedTree
  import opened Shares
  import DPF

  /** One level of key generation: expands both seeds, publishes the correction word and moves the
      two seeds to the kept side. */
  method Level(c: Cipher, s0: Block, s1: Block, keep: bool) returns (cw: Block, n0: Block, n1: Block)
    ensures cw == CorrectionWord(c, Pair(s0, s1), keep)
    ensures n0 == Traverse(c, s0, cw, keep) && n1 == Traverse(c, s1, cw, keep)
  {
    hide XorNat;
    var si00, si01 := Expand(c.aes0, s0), Expand(c.aes1, s0);
    var si10, si11 := Expand(c.aes0, s1), Expand(c.aes1, s1);
    var xor0, xor1 := Xor(si00, si10), Xor(si01, si11);
    // the left and right t correction bits, and the seeds' difference on the lost side
    var tL, tR := xor0.t == keep, xor1.t != keep;
    var scw := Mask(if keep then xor0 else xor1);
    cw := Block(scw.hi, tL, tR);
    var correction := Block(scw.hi, false, if keep then tR else tL);
    n0 := Xor(if keep then si01 else si00, if s0.t then correction else ZERO);
    n1 := Xor(if keep then si11 else si10, if s1.t then correction else ZERO);
    XorCommutes(if keep then si01 else si00, if s0.t then correction else ZERO);
    XorCommutes(if keep then si11 else si10, if s1.t then correction else ZERO);
  }

  // The last correction word, in the group of order 2^125.
  method Finish(s0: Block, s1: Block, payload: uint128) returns (g: uint128)
    ensures g == DPF.OutputWord(Pair(s0, s1), payload)
  {
    g := Add(Sub(payload, Convert(s0)), Convert(s1));
    if s1.t { g := Mul(MINUS_ONE, g); }
    g := g % M;
  }

  lemma RootEntry(c: Cipher, seeds: Pair, target: seq<bool>)
    ensures TreeKey(c, seeds, target, false, |target|)[0] == Root(seeds).s0
    ensures TreeKey(c, seeds, target, true, |target|)[0] == Root(seeds).s1
  {
    TreeKeyAt(c, seeds, target, false, |target|, 0);
    TreeKeyAt(c, seeds, target, true, |target|, 0);
  }

  // Every entry of a tree key is the word of its own level.
  lemma EntryAt(c: Cipher, seeds: Pair, target: seq<bool>, party: bool, i: nat)
    requires i < |target|
    ensures TreeKey(c, seeds, target, party, |target|)[i + 1]
         == CorrectionWord(c, GenPair(c, seeds, target, i), target[i])
  {
    hide CorrectionWord, GenPair;
    TreeKeyAt(c, seeds, target, party, |target|, i + 1);
  }

  method KeyGenDPF(c: Cipher, idx: uint128, payload: uint128, seeds: Pair, depth: nat,
                   k0: array<Block>, g0: array<uint128>, k1: array<Block>, g1: array<uint128>)
    requires k0 != k1 && g0 != g1
    requires k0.Length == k1.Length == depth + 1 && g0.Length == g1.Length == 1
    modifies k0, g0, k1, g1
    ensures DPF.Key(k0[..], g0[0]) == DPF.Gen(c, seeds, PathOf(idx / 128, depth), payload, false)
    ensures DPF.Key(k1[..], g1[0]) == DPF.Gen(c, seeds, PathOf(idx / 128, depth), payload, true)
  {
    hide CorrectionWord, Traverse, BitAt, DPF.OutputWord, TreeKey;
    var kIdx := idx / 128;
    ghost var target := PathOf(kIdx, depth);
    ghost var key0 := TreeKey(c, seeds, target, false, depth);
    ghost var key1 := TreeKey(c, seeds, target, true, depth);
    // the bottom bit of s0 is made the opposite of the bottom bit of s1
    var s0, s1 := seeds.s0.(t := !seeds.s1.t), seeds.s1;
    k0[0], k1[0] := s0, s1;
    RootEntry(c, seeds, target);
    var i := 0;
    while i < depth
      invariant 0 <= i <= depth
      invariant Pair(s0, s1) == GenPair(c, seeds, target, i)
      invariant forall j :: 0 <= j <= i ==> k0[j] == key0[j] && k1[j] == key1[j]
    {
      var keep := BitAt(kIdx, depth - 1 - i);
      var cw, n0, n1 := Level(c, s0, s1, keep);
      EntryAt(c, seeds, target, false, i);
      EntryAt(c, seeds, target, true, i);
      k0[i + 1], k1[i + 1] := cw, cw;
      s0, s1 := n0, n1;
      i := i + 1;
    }
    assert k0[..] == key0 && k1[..] == key1;
    g0[0] := Finish(s0, s1, payload);
    g1[0] := g0[0];
  }
}
