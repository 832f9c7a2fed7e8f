/** Distributed point function: key generation (DPFClient.cpp) and single-point evaluation
    (DPFServer.cpp). */
module DPF {
  import opened Arith
  import opened Bits
  import opened Blocks
  import opened SeedTree
  import opened Shares

  // The output word of a key: the payload's missing part, signed by the second control bit.
  function OutputWord(p: Pair, payload: uint128): uint128
  {
    var g := Add(Sub(payload, Convert(p.s0)), Convert(p.s1));
    (if p.s1.t then Mul(MINUS_ONE, g) else g) % M
  }

  // A party's key for the target path: a tree key and the shared output word.
  datatype Key = Key(k: seq<Block>, g: uint128)

  function Gen(c: Cipher, seeds: Pair, target: seq<bool>, payload: uint128, party: bool): (key: Key)
    ensures |key.k| == |target| + 1
  {
    Key(TreeKey(c, seeds, target, party, |target|), OutputWord(GenPair(c, seeds, target, |target|), payload))
  }

  // What a party computes at a leaf state.
  function LeafShare(party: bool, s: Block, g: uint128): uint128
  {
    Term(party, Convert(s), s.t, g) % M
  }

  function Eval(c: Cipher, key: Key, party: bool, path: seq<bool>): uint128
    requires |path| < |key.k|
  {
    LeafShare(party, StateAt(c, key.k, path, |path|), key.g)
  }

  lemma OutputWordCong(p: Pair, payload: uint128)
    ensures Cong(OutputWord(p, payload), Signed(p.s1.t, payload - Convert(p.s0) + Convert(p.s1)))
  {
    hide Convert;
    var c0: int, c1: int := Convert(p.s0), Convert(p.s1);
    CongRefl(payload);
    CongRefl(c0);
    CongRefl(c1);
    SubCong(payload, payload, c0, c0);
    AddCong(Sub(payload, c0), payload - c0, c1, c1);
    var g, goal := Add(Sub(payload, c0), c1), payload - c0 + c1;
    if p.s1.t { SignCong(true, g, goal); }
    ReduceCong(if p.s1.t then Mul(MINUS_ONE, g) else g, Signed(p.s1.t, goal));
  }

  lemma OpenLeaves(a: uint128, b: uint128, goal: int)
    requires Cong(a + b, goal)
    ensures (a % M + b % M) % M == goal % M
  {
    CongReduce(a);
    CongReduce(b);
    CongAdd(a % M, a, b % M, b);
    CongTrans(a % M + b % M, a + b, goal);
    CongMod(a % M + b % M, goal);
  }

  /** Point function correctness: for every cipher, seeds, depth, target and payload the two shares
      open to the payload at the target and to zero everywhere else. */
  lemma Correct(c: Cipher, seeds: Pair, depth: nat, alpha: nat, payload: uint128, x: nat)
    requires alpha < Pow2(depth) && x < Pow2(depth)
    ensures
      var target, path := PathOf(alpha, depth), PathOf(x, depth);
      (Eval(c, Gen(c, seeds, target, payload, false), false, path)
       + Eval(c, Gen(c, seeds, target, payload, true), true, path)) % M
      == if x == alpha then payload % M else 0
  {
    hide GenPair, StateAt, Term, OutputWord, Convert, PathOf, TreeKey;
    var target, path := PathOf(alpha, depth), PathOf(x, depth);
    PathSpells(alpha, depth);
    PathSpells(x, depth);
    WalkInvariant(c, seeds, target, path, depth);
    var p := GenPair(c, seeds, target, depth);
    var g := OutputWord(p, payload);
    var a0 := StateAt(c, TreeKey(c, seeds, target, false, depth), path, depth);
    var a1 := StateAt(c, TreeKey(c, seeds, target, true, depth), path, depth);
    if x == alpha {
      OutputWordCong(p, payload);
      WordOpens(Convert(p.s0), Convert(p.s1), p.s1.t, g, payload);
      OpenLeaves(Term(false, Convert(a0), a0.t, g), Term(true, Convert(a1), a1.t, g), payload);
    } else {
      assert Convert(a0) == Convert(a1) by { ConvertIgnoresMid(a0, a1); }
      TermsCancel(Convert(a0), a0.t, g);
      OpenLeaves(Term(false, Convert(a0), a0.t, g), Term(true, Convert(a1), a1.t, g), 0);
    }
  }
}
