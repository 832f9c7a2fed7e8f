/** What the levels of a tree compute, in the bits of the blocks and in numbers modulo 2^125: the words a client
    publishes, given the states the two parties reach, and the states and shares a party computes from them. */
module Levels {
  import opened Arith
  import opened Bits
  import opened Blocks
  import opened SeedTree
  import opened Shares
  import DPF
  import DCF
  import DPFClient

  // ----- exclusive or -----

  /** The operation on the upper words is the exclusive or, bit by bit. */
  lemma {:induction false} XorIsBitwise(a: nat, b: nat, k: nat)
    ensures XorNat(a, b) / Pow2(k) % 2 == if a / Pow2(k) % 2 == b / Pow2(k) % 2 then 0 else 1
  {
    hide XorNat;
    XorNatSplit(a, b);
    if k > 0 {
      XorIsBitwise(a / 2, b / 2, k - 1);
      DivDiv(a, 2, Pow2(k - 1));
      DivDiv(b, 2, Pow2(k - 1));
      DivDiv(XorNat(a, b), 2, Pow2(k - 1));
    }
  }

  // ----- one level -----

  // What a permutation makes of a state: of its upper bits alone.
  ghost function Out(aes: Aes, s: Block): Block { aes(Block(s.hi, false, false)) }

  // The permutation's output, added bit by bit to the state's upper bits, as a number.
  ghost function Value(aes: Aes, s: Block): nat
  {
    var e := Out(aes, s);
    4 * XorNat(e.hi, s.hi) + (if e.mid then 2 else 0) + (if e.t then 1 else 0)
  }

  /** A party's walk begins with the first word of its key; going right it uses the second permutation, going left
      the first; and only where its control bit is set does it add the level's word: the upper bits, and to the
      control bit the word's low bit on the right and its bit 1 on the left. */
  lemma StepIs(c: Cipher, k: seq<Block>, path: seq<bool>, i: nat)
    requires i < |path| < |k|
    ensures StateAt(c, k, path, 0) == k[0]
    ensures
      var s, w, n := StateAt(c, k, path, i), k[i + 1], StateAt(c, k, path, i + 1);
      var e := Out(if path[i] then c.aes1 else c.aes0, s);
      && n.hi == XorNat(if s.t then w.hi else 0, XorNat(e.hi, s.hi))
      && n.t == (e.t != (s.t && if path[i] then w.t else w.mid))
      && n.mid == e.mid
  {
    hide XorNat;
  }

  /** Both parties are sent the same words behind their first ones, which are the seeds with control bits made
      different. With a and b the states they reach on the target's path, a level's word is the difference of
      what both would reach by leaving it, and its two low bits make the control bits differ on the path and
      agree beside it. */
  lemma WordIs(c: Cipher, seeds: Pair, target: seq<bool>, i: nat)
    requires i < |target|
    ensures
      var k0, k1 := TreeKey(c, seeds, target, false, |target|), TreeKey(c, seeds, target, true, |target|);
      var a, b, keep, w := StateAt(c, k0, target, i), StateAt(c, k1, target, i), target[i], k0[i + 1];
      var lost := if keep then c.aes0 else c.aes1;
      && k0[0] == seeds.s0.(t := !seeds.s1.t) && k1[0] == seeds.s1 && k1[i + 1] == w
      && w.hi == XorNat(XorNat(Out(lost, a).hi, a.hi), XorNat(Out(lost, b).hi, b.hi))
      && w.mid == ((Out(c.aes0, a).t != Out(c.aes0, b).t) == keep)
      && w.t == ((Out(c.aes1, a).t != Out(c.aes1, b).t) != keep)
  {
    hide XorNat, GenPair, StateAt, TreeKey;
    WalkInvariant(c, seeds, target, target, i);
    DPFClient.RootEntry(c, seeds, target);
    DPFClient.EntryAt(c, seeds, target, false, i);
    DPFClient.EntryAt(c, seeds, target, true, i);
  }

  // ----- the point function's leaf -----

  /** A party's share is four times its state's upper bits, and the output word where the control bit is set,
      negated at the second party. */
  lemma PointShareIs(c: Cipher, key: DPF.Key, party: bool, path: seq<bool>)
    requires |path| < |key.k|
    ensures
      var s := StateAt(c, key.k, path, |path|);
      var share := 4 * s.hi + if s.t then key.g else 0;
      DPF.Eval(c, key, party, path) == (if party then -share else share) % M
  {
    hide Term, Cong;
    var s := StateAt(c, key.k, path, |path|);
    TermCong(party, Convert(s), s.t, key.g);
    CongMod(Term(party, Convert(s), s.t, key.g), Signed(party, Convert(s) + (if s.t then key.g else 0)));
  }

  /** The output word is the payload less the first party's number and plus the second's, negated where the
      second party's control bit is set; both parties get it. */
  lemma OutputIs(c: Cipher, seeds: Pair, target: seq<bool>, payload: uint128)
    ensures
      var key0, key1 := DPF.Gen(c, seeds, target, payload, false), DPF.Gen(c, seeds, target, payload, true);
      var a, b := StateAt(c, key0.k, target, |target|), StateAt(c, key1.k, target, |target|);
      var due := payload - 4 * a.hi + 4 * b.hi;
      key0.g == key1.g == (if b.t then -due else due) % M
  {
    hide GenPair, StateAt, TreeKey, Cong;
    WalkInvariant(c, seeds, target, target, |target|);
    var p := GenPair(c, seeds, target, |target|);
    DPF.OutputWordCong(p, payload);
    CongMod(DPF.OutputWord(p, payload), Signed(p.s1.t, payload - Convert(p.s0) + Convert(p.s1)));
    Reduced(DPF.OutputWord(p, payload));
  }

  lemma Reduced(x: nat)
    requires x < M
    ensures x % M == x
  {
  }

  // ----- the comparison function's values -----

  /** A party's accumulator starts at 0; every level adds, negated at the second party, the value its permutation
      gives -- the fourth on the right, the third on the left -- and the level's value word where the control bit
      is set; the leaf adds four times the state's upper bits and the last word likewise. */
  lemma AccumulatorIs(c: Cipher, key: DCF.Key, party: bool, path: seq<bool>, i: nat)
    requires i < |path| < |key.k| == |key.v|
    ensures DCF.AccAt(c, key, party, path, 0) == 0
    ensures
      var s := StateAt(c, key.k, path, i);
      var share := Value(if path[i] then c.aes3 else c.aes2, s) + if s.t then key.v[i] else 0;
      DCF.AccAt(c, key, party, path, i + 1)
      == (DCF.AccAt(c, key, party, path, i) + if party then -share else share) % M
  {
    hide Term, Cong, XorNat, Add, StateAt, DCF.ValueOf, Value;
    var s := StateAt(c, key.k, path, i);
    ValueIs(c, s, path[i]);
    Accumulated(DCF.AccAt(c, key, party, path, i), party, DCF.ValueOf(c, s, path[i]), s.t, key.v[i]);
  }

  lemma ValueIs(c: Cipher, s: Block, side: bool)
    ensures DCF.ValueOf(c, s, side) == Value(if side then c.aes3 else c.aes2, s)
  {
    hide XorNat;
  }

  lemma Accumulated(acc: uint128, party: bool, value: uint128, t: bool, word: uint128)
    ensures
      var share := value + if t then word else 0;
      Add(acc, Term(party, value, t, word)) % M == (acc + if party then -share else share) % M
  {
    hide Term, Cong, Add;
    var share: int := value + if t then word else 0;
    TermCong(party, value, t, word);
    CongRefl(acc);
    AddCong(acc, acc, Term(party, value, t, word), Signed(party, share));
    CongMod(Add(acc, Term(party, value, t, word)), acc + Signed(party, share));
  }

  lemma CompareShareIs(c: Cipher, key: DCF.Key, party: bool, path: seq<bool>)
    requires |path| < |key.k| == |key.v|
    ensures
      var s := StateAt(c, key.k, path, |path|);
      var share := 4 * s.hi + if s.t then key.v[|path|] else 0;
      DCF.Eval(c, key, party, path)
      == (DCF.AccAt(c, key, party, path, |path|) + if party then -share else share) % M
  {
    hide Term, Add, StateAt, DCF.AccAt;
    var s := StateAt(c, key.k, path, |path|);
    Accumulated(DCF.AccAt(c, key, party, path, |path|), party, Convert(s), s.t, key.v[|path|]);
  }

  /** A level's value word makes the two parties open, where they leave the target's path, to what is due there:
      the payload on the side the comparison pays, and 0 on the other. */
  lemma ValueWordIs(c: Cipher, seeds: Pair, target: seq<bool>, payload: uint128, gt: bool, i: nat)
    requires i < |target|
    ensures
      var key0, key1 := DCF.Gen(c, seeds, target, payload, gt, false), DCF.Gen(c, seeds, target, payload, gt, true);
      var a, b := StateAt(c, key0.k, target, i), StateAt(c, key1.k, target, i);
      var sum := DCF.AccAt(c, key0, false, target, i) + DCF.AccAt(c, key1, true, target, i);
      var lost := if target[i] then c.aes2 else c.aes3;
      var due := (if target[i] != gt then payload else 0) - sum - Value(lost, a) + Value(lost, b);
      key0.v[i] == key1.v[i] == (if b.t then -due else due) % M
  {
    hide GenPair, StateAt, TreeKey, Cong, XorNat, DCF.AlphaAt, DCF.ValueWord, DCF.ValueOf, DCF.LastWord, DCF.AccAt,
      Value;
    WalkInvariant(c, seeds, target, target, i);
    DCF.AccInvariant(c, seeds, target, payload, gt, target, i);
    DCF.WordsAt(c, seeds, target, payload, gt, |target|, i);
    var key0, key1 := DCF.Gen(c, seeds, target, payload, gt, false), DCF.Gen(c, seeds, target, payload, gt, true);
    var p, alpha := GenPair(c, seeds, target, i), DCF.AlphaAt(c, seeds, target, payload, gt, i);
    ValueIs(c, p.s0, !target[i]);
    ValueIs(c, p.s1, !target[i]);
    DCF.ValueWordCong(c, p, target[i], alpha, payload, gt);
    WordBelow(c, p, target[i], alpha, payload, gt);
    SignedWord(DCF.ValueWord(c, p, target[i], alpha, payload, gt), p.s1.t,
               (if target[i] != gt then payload as int else 0) - DCF.ValueOf(c, p.s0, !target[i])
               + DCF.ValueOf(c, p.s1, !target[i]),
               alpha, DCF.AccAt(c, key0, false, target, i) + DCF.AccAt(c, key1, true, target, i));
  }

  lemma WordBelow(c: Cipher, p: Pair, keep: bool, alpha: uint128, payload: uint128, gt: bool)
    ensures 0 <= DCF.ValueWord(c, p, keep, alpha, payload, gt) < M
  {
    hide DCF.ValueOf;
  }

  // A reduced word that settles an opened value settles everything the value is congruent to.
  lemma SignedWord(w: nat, t: bool, x: int, alpha: int, sum: int)
    requires w < M && Cong(w, Signed(t, x - alpha)) && Cong(sum, alpha)
    ensures w == (if t then -(x - sum) else x - sum) % M
  {
    hide Cong;
    var k := CongQuotient(sum, alpha);
    var d := if t then -(x - sum) else x - sum;
    CongFrom(Signed(t, x - alpha), d, if t then -k else k);
    CongTrans(w, Signed(t, x - alpha), d);
    CongMod(w, d);
    Reduced(w);
  }

  /** And the last one makes them open to 0 on the target itself. */
  lemma LastWordIs(c: Cipher, seeds: Pair, target: seq<bool>, payload: uint128, gt: bool)
    ensures
      var key0, key1 := DCF.Gen(c, seeds, target, payload, gt, false), DCF.Gen(c, seeds, target, payload, gt, true);
      var n := |target|;
      var a, b := StateAt(c, key0.k, target, n), StateAt(c, key1.k, target, n);
      var sum := DCF.AccAt(c, key0, false, target, n) + DCF.AccAt(c, key1, true, target, n);
      var due := 0 - sum - 4 * a.hi + 4 * b.hi;
      key0.v[n] == key1.v[n] == (if b.t then -due else due) % M
  {
    hide GenPair, StateAt, TreeKey, Cong, DCF.AlphaAt, DCF.AccAt, DCF.Words, Add, Sub, Mul;
    var n := |target|;
    WalkInvariant(c, seeds, target, target, n);
    DCF.AccInvariant(c, seeds, target, payload, gt, target, n);
    var key0, key1 := DCF.Gen(c, seeds, target, payload, gt, false), DCF.Gen(c, seeds, target, payload, gt, true);
    var p, alpha := GenPair(c, seeds, target, n), DCF.AlphaAt(c, seeds, target, payload, gt, n);
    DCF.LastWordCong(p, alpha);
    SignedWord(DCF.LastWord(p, alpha), p.s1.t, 0 - Convert(p.s0) as int + Convert(p.s1), alpha,
               DCF.AccAt(c, key0, false, target, n) + DCF.AccAt(c, key1, true, target, n));
  }
}
