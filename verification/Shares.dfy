/** The signed share every tree level and leaf contributes: sign * (value + t * word), modulo 2^128. */
module Shares {
  import opened Arith
  import opened Bits
  import opened Blocks

  // sign is +1 for the first party and -1, stored as 2^128 - 1, for the second.
  function Sign(negative: bool): uint128
  {
    if negative then MINUS_ONE else 1
  }

  function Signed(negative: bool, x: int): int
  {
    if negative then -x else x
  }

  lemma SignCong(negative: bool, x: uint128, goal: int)
    requires Cong(x, goal)
    ensures Cong(Mul(Sign(negative), x), Signed(negative, goal))
  {
    hide Cong, Mul;
    CongFrom(MINUS_ONE, -1, 8);
    CongRefl(1);
    MulCong(Sign(negative), if negative then -1 else 1, x, goal);
  }

  // The seed of a state as a group element: bits 1 and 0 cleared.
  function Convert(s: Block): uint128
  {
    ToInt(Mask(s))
  }

  lemma ConvertIgnoresMid(a: Block, b: Block)
    requires SameButMid(a, b)
    ensures Convert(a) == Convert(b)
  {
  }

  function Term(party: bool, value: uint128, t: bool, word: uint128): uint128
  {
    Mul(Sign(party), Add(value, Mul(Num(t), word)))
  }

  lemma TermCong(party: bool, value: uint128, t: bool, word: uint128)
    ensures Cong(Term(party, value, t, word), Signed(party, value + (if t then word else 0)))
  {
    hide Add, Mul, Cong;
    var w := Mul(Num(t), word);
    WordIf(t, word);
    CongRefl(value);
    CongRefl(w);
    AddCong(value, value, w, w);
    SignCong(party, Add(value, w), value + w);
  }

  lemma WordIf(t: bool, word: uint128)
    ensures Mul(Num(t), word) == if t then word else 0
  {
  }

  // Equal states contribute nothing to the opened value.
  lemma TermsCancel(value: uint128, t: bool, word: uint128)
    ensures Cong(Term(false, value, t, word) + Term(true, value, t, word), 0)
  {
    hide Cong, Term;
    var plain := value + (if t then word else 0);
    TermCong(false, value, t, word);
    TermCong(true, value, t, word);
    CongAdd(Term(false, value, t, word), plain, Term(true, value, t, word), -plain);
  }

  // With differing control bits the word enters exactly once, with the sign of the second bit.
  lemma TermsOpen(c0: uint128, c1: uint128, t1: bool, word: uint128)
    ensures Cong(Term(false, c0, !t1, word) + Term(true, c1, t1, word), c0 - c1 + Signed(t1, word))
  {
    hide Cong, Term;
    TermCong(false, c0, !t1, word);
    TermCong(true, c1, t1, word);
    CongAdd(Term(false, c0, !t1, word), c0 + (if t1 then 0 else word),
            Term(true, c1, t1, word), -(c1 + (if t1 then word else 0)));
  }

  // A word that is congruent to the signed missing part opens to the goal.
  lemma WordOpens(c0: uint128, c1: uint128, t1: bool, word: uint128, goal: int)
    requires Cong(word, Signed(t1, goal - c0 + c1))
    ensures Cong(Term(false, c0, !t1, word) + Term(true, c1, t1, word), goal)
  {
    hide Cong, Term;
    TermsOpen(c0, c1, t1, word);
    CongRefl(c0 - c1);
    CongAdd(c0 - c1, c0 - c1, word, Signed(t1, goal - c0 + c1));
    CongTrans(Term(false, c0, !t1, word) + Term(true, c1, t1, word), c0 - c1 + Signed(t1, word), goal);
  }
}
