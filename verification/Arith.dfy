/** The arithmetic of the engine: 128-bit words that wrap around, and congruence modulo the
    output group order 2^125, which divides 2^128. */
module Arith {
  // 2^128: every uint128_t operation wraps at this value.
  const R: int := 0x1_0000_0000_0000_0000_0000_0000_0000_0000
  // 2^125: the modulus every opened value is reduced by.
  const M: int := 0x2000_0000_0000_0000_0000_0000_0000_0000

  type uint128 = x: int | 0 <= x < R
  type uint64 = x: int | 0 <= x < 0x1_0000_0000_0000_0000
  type uint32 = x: int | 0 <= x < 0x1_0000_0000

  // The sign the evaluating party multiplies by; -1 is stored as 2^128 - 1.
  const MINUS_ONE: uint128 := R - 1

  function Add(a: uint128, b: uint128): uint128 { (a + b) % R }

  function Sub(a: uint128, b: uint128): uint128 { (a - b) % R }

  function Mul(a: uint128, b: uint128): uint128 { (a * b) % R }

  // ----- congruence modulo M -----

  ghost predicate Cong(a: int, b: int) { (a - b) % M == 0 }

  lemma CongQuotient(a: int, b: int) returns (k: int)
    requires Cong(a, b)
    ensures a == b + M * k
  {
    k := (a - b) / M;
  }

  lemma CongFrom(a: int, b: int, k: int)
    requires a == b + M * k
    ensures Cong(a, b)
  {
  }

  lemma CongRefl(a: int)
    ensures Cong(a, a)
  {
  }

  lemma CongSym(a: int, b: int)
    requires Cong(a, b)
    ensures Cong(b, a)
  {
    var k := CongQuotient(a, b);
    CongFrom(b, a, -k);
  }

  lemma CongTrans(a: int, b: int, c: int)
    requires Cong(a, b) && Cong(b, c)
    ensures Cong(a, c)
  {
    hide Cong;
    var k := CongQuotient(a, b);
    var j := CongQuotient(b, c);
    CongFrom(a, c, k + j);
  }

  lemma CongAdd(a: int, b: int, c: int, d: int)
    requires Cong(a, b) && Cong(c, d)
    ensures Cong(a + c, b + d) && Cong(a - c, b - d)
  {
    hide Cong;
    var k := CongQuotient(a, b);
    var j := CongQuotient(c, d);
    CongFrom(a + c, b + d, k + j);
    CongFrom(a - c, b - d, k - j);
  }

  lemma CongMul(a: int, b: int, c: int, d: int)
    requires Cong(a, b) && Cong(c, d)
    ensures Cong(a * c, b * d)
  {
    hide Cong;
    var k := CongQuotient(a, b);
    var j := CongQuotient(c, d);
    assert a * c == b * d + M * (b * j + k * d + M * k * j);
    CongFrom(a * c, b * d, b * j + k * d + M * k * j);
  }

  // Reducing modulo 2^128 is invisible modulo 2^125, because 2^125 divides 2^128.
  lemma CongWrap(x: int)
    ensures Cong(x % R, x) && Cong(x, x % R)
  {
    hide Cong;
    CongFrom(x, x % R, 8 * (x / R));
    CongFrom(x % R, x, -8 * (x / R));
  }

  lemma CongReduce(x: int)
    ensures Cong(x % M, x) && Cong(x, x % M)
  {
    hide Cong;
    CongFrom(x, x % M, x / M);
    CongFrom(x % M, x, -(x / M));
  }

  // Equal residues are what congruence means to the client, who reduces its sum modulo 2^125.
  lemma CongMod(a: int, b: int)
    ensures Cong(a, b) <==> a % M == b % M
  {
    hide Cong;
    if Cong(a, b) {
      var k := CongQuotient(a, b);
      SameRemainder(a, b, k);
    } else if a % M == b % M {
      CongFrom(a, b, a / M - b / M);
    }
  }

  lemma SameRemainder(a: int, b: int, k: int)
    requires a == b + M * k
    ensures a % M == b % M
  {
  }

  // The wrapping operations and the reduction, followed through congruences.
  lemma AddCong(a: uint128, x: int, b: uint128, y: int)
    requires Cong(a, x) && Cong(b, y)
    ensures Cong(Add(a, b), x + y)
  {
    hide Cong;
    var s: int := a + b;
    CongWrap(s);
    CongAdd(a, x, b, y);
    CongTrans(Add(a, b), s, x + y);
  }

  lemma SubCong(a: uint128, x: int, b: uint128, y: int)
    requires Cong(a, x) && Cong(b, y)
    ensures Cong(Sub(a, b), x - y)
  {
    hide Cong;
    var s: int := (a as int) - b;
    CongWrap(s);
    CongAdd(a, x, b, y);
    CongTrans(Sub(a, b), s, x - y);
  }

  lemma MulCong(a: uint128, x: int, b: uint128, y: int)
    requires Cong(a, x) && Cong(b, y)
    ensures Cong(Mul(a, b), x * y)
  {
    hide Cong;
    var s: int := (a as int) * b;
    CongWrap(s);
    CongMul(a, x, b, y);
    CongTrans(Mul(a, b), s, x * y);
  }

  lemma ReduceCong(a: int, x: int)
    requires Cong(a, x)
    ensures Cong(a % M, x)
  {
    hide Cong;
    CongReduce(a);
    CongTrans(a % M, a, x);
  }
}
