/** Distributed comparison function: key generation (DCFClient.cpp, keyGenDCFMAC) and single-point
    evaluation (DCFServer.cpp, evalOneDCFMAC). */
module DCF {
  import opened Arith
  import opened Bits
  import opened Blocks
  import opened SeedTree
  import opened Shares

  // The value block of one side of a node.
  function ValueOf(c: Cipher, s: Block, side: bool): uint128
  {
    ToInt(Expand(if side then c.aes3 else c.aes2, s))
  }

  // Whether the branch left at a node belongs to the inputs that receive the payload: the lost
  // branch is the left one (smaller inputs) when the target's bit is one.
  function Pays(keep: bool, greaterThan: bool): bool
  {
    keep != greaterThan
  }

  // The value word of one level.
  function ValueWord(c: Cipher, p: Pair, keep: bool, vAlpha: uint128, payload: uint128, greaterThan: bool): uint128
  {
    WordFor(ValueOf(c, p.s0, !keep), ValueOf(c, p.s1, !keep), vAlpha, p.s1.t,
            Mul(Num(Pays(keep, greaterThan)), payload))
  }

  function WordFor(c0: uint128, c1: uint128, vAlpha: uint128, t1: bool, due: uint128): uint128
  {
    var v := Mul(Sign(t1), Sub(Sub(c1, c0), vAlpha)) % M;
    Add(v, Mul(Sign(t1), due)) % M
  }

  // What the two accumulators open to on the target's path after one more level.
  function NextAlpha(c: Cipher, p: Pair, keep: bool, vAlpha: uint128, v: uint128): uint128
  {
    Add(Add(Sub(vAlpha, ValueOf(c, p.s1, keep)), ValueOf(c, p.s0, keep)), Mul(Sign(p.s1.t), v)) % M
  }

  function AlphaAt(c: Cipher, seeds: Pair, target: seq<bool>, payload: uint128, gt: bool, i: nat): uint128
    requires i <= |target|
    decreases i, 0
  {
    if i == 0 then 0
    else NextAlpha(c, GenPair(c, seeds, target, i - 1), target[i - 1],
                   AlphaAt(c, seeds, target, payload, gt, i - 1), WordAt(c, seeds, target, payload, gt, i - 1))
  }

  function WordAt(c: Cipher, seeds: Pair, target: seq<bool>, payload: uint128, gt: bool, i: nat): uint128
    requires i < |target|
    decreases i, 1
  {
    ValueWord(c, GenPair(c, seeds, target, i), target[i], AlphaAt(c, seeds, target, payload, gt, i), payload, gt)
  }

  function LastWord(p: Pair, vAlpha: uint128): uint128
  {
    Mul(Sign(p.s1.t), Sub(Sub(Convert(p.s1), Convert(p.s0)), vAlpha)) % M
  }

  // The value words of the first i levels, then the leaf's.
  function Words(c: Cipher, seeds: Pair, target: seq<bool>, payload: uint128, gt: bool, i: nat): (v: seq<uint128>)
    requires i <= |target|
    ensures |v| == i
  {
    if i == 0 then [] else Words(c, seeds, target, payload, gt, i - 1) + [WordAt(c, seeds, target, payload, gt, i - 1)]
  }

  lemma {:induction false} WordsAt(c: Cipher, seeds: Pair, target: seq<bool>, payload: uint128, gt: bool, n: nat,
                                   i: nat)
    requires i < n <= |target|
    ensures Words(c, seeds, target, payload, gt, n)[i] == WordAt(c, seeds, target, payload, gt, i)
  {
    hide WordAt;
    if i < n - 1 { WordsAt(c, seeds, target, payload, gt, n - 1, i); }
  }

  // A party's key: the tree key and one value word more than there are levels.
  datatype Key = Key(k: seq<Block>, v: seq<uint128>)

  function Gen(c: Cipher, seeds: Pair, target: seq<bool>, payload: uint128, gt: bool, party: bool): (key: Key)
    ensures |key.k| == |key.v| == |target| + 1
  {
    var n := |target|;
    Key(TreeKey(c, seeds, target, party, n),
        Words(c, seeds, target, payload, gt, n)
        + [LastWord(GenPair(c, seeds, target, n), AlphaAt(c, seeds, target, payload, gt, n))])
  }

  // A party's accumulator after i steps of a path.
  function AccAt(c: Cipher, key: Key, party: bool, path: seq<bool>, i: nat): uint128
    requires i <= |path| < |key.k| == |key.v|
  {
    if i == 0 then 0
    else
      var s := StateAt(c, key.k, path, i - 1);
      Add(AccAt(c, key, party, path, i - 1), Term(party, ValueOf(c, s, path[i - 1]), s.t, key.v[i - 1])) % M
  }

  function LeafShare(party: bool, acc: uint128, s: Block, word: uint128): uint128
  {
    Add(acc, Term(party, Convert(s), s.t, word)) % M
  }

  function Eval(c: Cipher, key: Key, party: bool, path: seq<bool>): uint128
    requires |path| < |key.k| == |key.v|
  {
    LeafShare(party, AccAt(c, key, party, path, |path|), StateAt(c, key.k, path, |path|), key.v[|path|])
  }

  // The accumulator depends only on the steps taken so far.
  lemma {:induction false} AccOfPrefix(c: Cipher, key: Key, party: bool, p: seq<bool>, q: seq<bool>, i: nat)
    requires i <= |p| < |key.k| == |key.v| && i <= |q| < |key.k|
    requires forall j :: 0 <= j < i ==> p[j] == q[j]
    ensures AccAt(c, key, party, p, i) == AccAt(c, key, party, q, i)
  {
    hide Term, ValueOf, Traverse;
    if i > 0 {
      AccOfPrefix(c, key, party, p, q, i - 1);
      StateOfPrefix(c, key.k, p, q, i - 1);
    }
  }

  // ----- correctness -----

  // What the accumulators must open to at a node with prefix px, the target's prefix being pa.
  function Goal(px: nat, pa: nat, vAlpha: int, payload: uint128, gt: bool): int
  {
    if px == pa then vAlpha
    else if (px < pa) != gt then payload
    else 0
  }

  lemma WordForCong(c0: uint128, c1: uint128, vAlpha: uint128, t1: bool, due: uint128)
    ensures Cong(WordFor(c0, c1, vAlpha, t1, due), Signed(t1, due - vAlpha - c0 + c1))
  {
    var x0: int, x1: int, a: int, d: int := c0, c1, vAlpha, due;
    CongRefl(x0); CongRefl(x1); CongRefl(a); CongRefl(d);
    SubCong(c1, x1, c0, x0);
    SubCong(Sub(c1, c0), x1 - x0, vAlpha, a);
    var missing := Sub(Sub(c1, c0), vAlpha);
    SignCong(t1, missing, x1 - x0 - a);
    ReduceCong(Mul(Sign(t1), missing), Signed(t1, x1 - x0 - a));
    SignCong(t1, due, d);
    var v, w := Mul(Sign(t1), missing) % M, Mul(Sign(t1), due);
    AddCong(v, Signed(t1, x1 - x0 - a), w, Signed(t1, d));
    ReduceCong(Add(v, w), Signed(t1, x1 - x0 - a) + Signed(t1, d));
  }

  lemma ValueWordCong(c: Cipher, p: Pair, keep: bool, vAlpha: uint128, payload: uint128, gt: bool)
    ensures
      var goal := if Pays(keep, gt) then payload as int else 0;
      Cong(ValueWord(c, p, keep, vAlpha, payload, gt),
           Signed(p.s1.t, goal - vAlpha - ValueOf(c, p.s0, !keep) + ValueOf(c, p.s1, !keep)))
  {
    hide ValueOf, WordFor;
    WordForCong(ValueOf(c, p.s0, !keep), ValueOf(c, p.s1, !keep), vAlpha, p.s1.t,
                Mul(Num(Pays(keep, gt)), payload));
  }

  lemma NextAlphaCong(c: Cipher, p: Pair, keep: bool, vAlpha: uint128, v: uint128)
    ensures Cong(NextAlpha(c, p, keep, vAlpha, v),
                 vAlpha - ValueOf(c, p.s1, keep) + ValueOf(c, p.s0, keep) + Signed(p.s1.t, v))
  {
    hide ValueOf;
    var c0: int, c1: int := ValueOf(c, p.s0, keep), ValueOf(c, p.s1, keep);
    CongRefl(c0); CongRefl(c1); CongRefl(vAlpha); CongRefl(v);
    SubCong(vAlpha, vAlpha, c1, c1);
    AddCong(Sub(vAlpha, c1), vAlpha - c1, c0, c0);
    SignCong(p.s1.t, v, v);
    var a := Add(Sub(vAlpha, c1), c0);
    AddCong(a, vAlpha - c1 + c0, Mul(Sign(p.s1.t), v), Signed(p.s1.t, v));
    ReduceCong(Add(a, Mul(Sign(p.s1.t), v)), vAlpha - c1 + c0 + Signed(p.s1.t, v));
  }

  lemma LastWordCong(p: Pair, vAlpha: uint128)
    ensures Cong(LastWord(p, vAlpha), Signed(p.s1.t, 0 - (vAlpha as int) - Convert(p.s0) + Convert(p.s1)))
  {
    hide Convert;
    var c0: int, c1: int := Convert(p.s0), Convert(p.s1);
    CongRefl(c0); CongRefl(c1); CongRefl(vAlpha);
    SubCong(c1, c1, c0, c0);
    SubCong(Sub(c1, c0), c1 - c0, vAlpha, vAlpha);
    SignCong(p.s1.t, Sub(Sub(c1, c0), vAlpha), c1 - c0 - vAlpha);
    ReduceCong(Mul(Sign(p.s1.t), Sub(Sub(c1, c0), vAlpha)), Signed(p.s1.t, c1 - c0 - vAlpha));
  }

  // Two accumulators opening to g, extended by two terms opening to d, open to g + d.
  lemma ExtendAcc(acc0: uint128, acc1: uint128, g: int, t0: uint128, t1: uint128, d: int)
    requires Cong(acc0 + acc1, g) && Cong(t0 + t1, d)
    ensures Cong(Add(acc0, t0) % M + Add(acc1, t1) % M, g + d)
  {
    CongRefl(acc0); CongRefl(acc1); CongRefl(t0); CongRefl(t1);
    AddCong(acc0, acc0, t0, t0);
    AddCong(acc1, acc1, t1, t1);
    ReduceCong(Add(acc0, t0), acc0 + t0);
    ReduceCong(Add(acc1, t1), acc1 + t1);
    CongAdd(Add(acc0, t0) % M, acc0 + t0, Add(acc1, t1) % M, acc1 + t1);
    CongAdd(acc0 + acc1, g, t0 + t1, d);
    CongTrans(Add(acc0, t0) % M + Add(acc1, t1) % M, acc0 + acc1 + (t0 + t1), g + d);
  }

  // One level of the two walks keeps the accumulators at their goal.
  // Off the target's path both sides add the same.
  lemma AccOff(c: Cipher, b0: Block, b1: Block, p: Pair, px: nat, pa: nat, mine: bool, keep: bool,
               acc0: uint128, acc1: uint128, vAlpha: uint128, payload: uint128, gt: bool)
    requires Walked(b0, b1, p, px, pa)
    requires Cong(acc0 + acc1, Goal(px, pa, vAlpha, payload, gt))
    requires px != pa
    ensures
      var v := ValueWord(c, p, keep, vAlpha, payload, gt);
      Cong(Add(acc0, Term(false, ValueOf(c, b0, mine), b0.t, v)) % M
           + Add(acc1, Term(true, ValueOf(c, b1, mine), b1.t, v)) % M,
           Goal(2 * px + Num(mine), 2 * pa + Num(keep), NextAlpha(c, p, keep, vAlpha, v), payload, gt))
  {
    hide ValueWord, NextAlpha, Term, Add, Cong;
    var v := ValueWord(c, p, keep, vAlpha, payload, gt);
    var w0, w1 := ValueOf(c, b0, mine), ValueOf(c, b1, mine);
    var t0, t1 := Term(false, w0, b0.t, v), Term(true, w1, b1.t, v);
    var g := Goal(px, pa, vAlpha, payload, gt);
    assert w0 == w1;
    TermsCancel(w0, b0.t, v);
    ExtendAcc(acc0, acc1, g, t0, t1, 0);
  }

  // One more step on the path: the generator's own sum.
  lemma AccOn(c: Cipher, b0: Block, b1: Block, p: Pair, px: nat, pa: nat, mine: bool, keep: bool,
              acc0: uint128, acc1: uint128, vAlpha: uint128, payload: uint128, gt: bool)
    requires Walked(b0, b1, p, px, pa)
    requires Cong(acc0 + acc1, Goal(px, pa, vAlpha, payload, gt))
    requires px == pa && mine == keep
    ensures
      var v := ValueWord(c, p, keep, vAlpha, payload, gt);
      Cong(Add(acc0, Term(false, ValueOf(c, b0, mine), b0.t, v)) % M
           + Add(acc1, Term(true, ValueOf(c, b1, mine), b1.t, v)) % M,
           Goal(2 * px + Num(mine), 2 * pa + Num(keep), NextAlpha(c, p, keep, vAlpha, v), payload, gt))
  {
    hide ValueWord, NextAlpha, Term, Add, Cong;
    var v := ValueWord(c, p, keep, vAlpha, payload, gt);
    var w0, w1 := ValueOf(c, b0, mine), ValueOf(c, b1, mine);
    var t0, t1 := Term(false, w0, b0.t, v), Term(true, w1, b1.t, v);
    var g := Goal(px, pa, vAlpha, payload, gt);
    TermsOpen(w0, w1, b1.t, v);
    ExtendAcc(acc0, acc1, g, t0, t1, w0 - w1 + Signed(b1.t, v));
    NextAlphaCong(c, p, keep, vAlpha, v);
    CongSym(NextAlpha(c, p, keep, vAlpha, v), vAlpha - w1 + w0 + Signed(b1.t, v));
    CongTrans(Add(acc0, t0) % M + Add(acc1, t1) % M, vAlpha - w1 + w0 + Signed(b1.t, v),
              NextAlpha(c, p, keep, vAlpha, v));
  }

  // Leaving the path: the word makes up what is due on that side.
  lemma AccLeaves(c: Cipher, b0: Block, b1: Block, p: Pair, px: nat, pa: nat, mine: bool, keep: bool,
                  acc0: uint128, acc1: uint128, vAlpha: uint128, payload: uint128, gt: bool)
    requires Walked(b0, b1, p, px, pa)
    requires Cong(acc0 + acc1, Goal(px, pa, vAlpha, payload, gt))
    requires px == pa && mine != keep
    ensures
      var v := ValueWord(c, p, keep, vAlpha, payload, gt);
      Cong(Add(acc0, Term(false, ValueOf(c, b0, mine), b0.t, v)) % M
           + Add(acc1, Term(true, ValueOf(c, b1, mine), b1.t, v)) % M,
           Goal(2 * px + Num(mine), 2 * pa + Num(keep), NextAlpha(c, p, keep, vAlpha, v), payload, gt))
  {
    hide ValueWord, NextAlpha, Term, Add, Cong;
    var v := ValueWord(c, p, keep, vAlpha, payload, gt);
    var w0, w1 := ValueOf(c, b0, mine), ValueOf(c, b1, mine);
    var t0, t1 := Term(false, w0, b0.t, v), Term(true, w1, b1.t, v);
    var g := Goal(px, pa, vAlpha, payload, gt);
    var goal := if Pays(keep, gt) then payload as int else 0;
    ValueWordCong(c, p, keep, vAlpha, payload, gt);
    WordOpens(w0, w1, b1.t, v, goal - vAlpha);
    ExtendAcc(acc0, acc1, g, t0, t1, goal - vAlpha);
  }

  lemma AccStep(c: Cipher, b0: Block, b1: Block, p: Pair, px: nat, pa: nat, mine: bool, keep: bool,
                acc0: uint128, acc1: uint128, vAlpha: uint128, payload: uint128, gt: bool)
    requires Walked(b0, b1, p, px, pa)
    requires Cong(acc0 + acc1, Goal(px, pa, vAlpha, payload, gt))
    ensures
      var v := ValueWord(c, p, keep, vAlpha, payload, gt);
      Cong(Add(acc0, Term(false, ValueOf(c, b0, mine), b0.t, v)) % M
           + Add(acc1, Term(true, ValueOf(c, b1, mine), b1.t, v)) % M,
           Goal(2 * px + Num(mine), 2 * pa + Num(keep), NextAlpha(c, p, keep, vAlpha, v), payload, gt))
  {
    hide ValueWord, NextAlpha, Term, Add, Cong, Walked, Goal, ValueOf;
    if px != pa {
      AccOff(c, b0, b1, p, px, pa, mine, keep, acc0, acc1, vAlpha, payload, gt);
    } else if mine == keep {
      AccOn(c, b0, b1, p, px, pa, mine, keep, acc0, acc1, vAlpha, payload, gt);
    } else {
      AccLeaves(c, b0, b1, p, px, pa, mine, keep, acc0, acc1, vAlpha, payload, gt);
    }
  }

  /** The invariant of the two evaluations: on the target's path the accumulators open to the
      client's v_alpha, off it to the payload or to zero, decided at the level where the paths part. */
  lemma {:induction false} AccInvariant(c: Cipher, seeds: Pair, target: seq<bool>, payload: uint128, gt: bool,
                                        path: seq<bool>, i: nat)
    requires |path| == |target| && i <= |target|
    ensures Cong(AccAt(c, Gen(c, seeds, target, payload, gt, false), false, path, i)
                 + AccAt(c, Gen(c, seeds, target, payload, gt, true), true, path, i),
                 Goal(Prefix(path, i), Prefix(target, i), AlphaAt(c, seeds, target, payload, gt, i), payload, gt))
  {
    hide ValueWord, NextAlpha, Term, Add, ValueOf, StateAt, GenPair, LastWord, Goal, Cong, TreeKey, Words, Walked;
    if i == 0 {
      GoalOnPath(0, 0, payload, gt);
      CongRefl(0);
    } else {
      AccInvariant(c, seeds, target, payload, gt, path, i - 1);
      WalkInvariant(c, seeds, target, path, i - 1);
      WordsAt(c, seeds, target, payload, gt, |target|, i - 1);
      var key0, key1 := Gen(c, seeds, target, payload, gt, false), Gen(c, seeds, target, payload, gt, true);
      AccStep(c, StateAt(c, key0.k, path, i - 1), StateAt(c, key1.k, path, i - 1),
              GenPair(c, seeds, target, i - 1), Prefix(path, i - 1), Prefix(target, i - 1),
              path[i - 1], target[i - 1],
              AccAt(c, key0, false, path, i - 1), AccAt(c, key1, true, path, i - 1),
              AlphaAt(c, seeds, target, payload, gt, i - 1), payload, gt);
    }
  }

  lemma GoalOnPath(px: nat, vAlpha: int, payload: uint128, gt: bool)
    ensures Goal(px, px, vAlpha, payload, gt) == vAlpha
  {
  }

  /** Comparison function correctness: for every cipher, seeds, depth, target, payload and direction
      the two shares open to the payload strictly below (or strictly above) the target and to zero
      everywhere else, the target included. */
  lemma Correct(c: Cipher, seeds: Pair, depth: nat, alpha: nat, payload: uint128, gt: bool, x: nat)
    requires alpha < Pow2(depth) && x < Pow2(depth)
    ensures
      var target, path := PathOf(alpha, depth), PathOf(x, depth);
      (Eval(c, Gen(c, seeds, target, payload, gt, false), false, path)
       + Eval(c, Gen(c, seeds, target, payload, gt, true), true, path)) % M
      == if (if gt then x > alpha else x < alpha) then payload % M else 0
  {
    hide GenPair, StateAt, AccAt, AlphaAt, Term, Add, Convert, PathOf, TreeKey, Words, LastWord;
    var target, path := PathOf(alpha, depth), PathOf(x, depth);
    PathSpells(alpha, depth);
    PathSpells(x, depth);
    AccInvariant(c, seeds, target, payload, gt, path, depth);
    WalkInvariant(c, seeds, target, path, depth);
    var key0, key1 := Gen(c, seeds, target, payload, gt, false), Gen(c, seeds, target, payload, gt, true);
    var p := GenPair(c, seeds, target, depth);
    var vAlpha: int := AlphaAt(c, seeds, target, payload, gt, depth);
    var w := LastWord(p, vAlpha);
    var a0, a1 := StateAt(c, key0.k, path, depth), StateAt(c, key1.k, path, depth);
    var acc0, acc1 := AccAt(c, key0, false, path, depth), AccAt(c, key1, true, path, depth);
    var t0, t1 := Term(false, Convert(a0), a0.t, w), Term(true, Convert(a1), a1.t, w);
    var g := Goal(x, alpha, vAlpha, payload, gt);
    var d := if x == alpha then -vAlpha else 0;
    if x == alpha {
      LastWordCong(p, vAlpha);
      WordOpens(Convert(p.s0), Convert(p.s1), p.s1.t, w, -vAlpha);
    } else {
      assert Convert(a0) == Convert(a1) by { ConvertIgnoresMid(a0, a1); }
      TermsCancel(Convert(a0), a0.t, w);
    }
    ExtendAcc(acc0, acc1, g, t0, t1, d);
    CongMod(Add(acc0, t0) % M + Add(acc1, t1) % M, g + d);
  }
}
