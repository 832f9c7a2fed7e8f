/** Little-endian byte encodings: what memcpy writes and reads for integers, blocks and arrays of them. */
module Bytes {
  import opened Arith
  import opened Bits
  import opened Blocks

  type byte = x: int | 0 <= x < 0x100

  function Pow256(n: nat): (p: nat)
    ensures p > 0
  {
    if n == 0 then 1 else 0x100 * Pow256(n - 1)
  }

  function LE(x: nat, n: nat): (s: seq<byte>)
    ensures |s| == n
  {
    if n == 0 then [] else [x % 0x100] + LE(x / 0x100, n - 1)
  }

  function FromLE(s: seq<byte>): nat
  {
    if s == [] then 0 else s[0] + 0x100 * FromLE(s[1..])
  }

  lemma {:induction false} FromLEBound(s: seq<byte>)
    ensures FromLE(s) < Pow256(|s|)
  {
    if s != [] { FromLEBound(s[1..]); }
  }

  lemma {:induction false} FromLEOfLE(x: nat, n: nat)
    requires x < Pow256(n)
    ensures FromLE(LE(x, n)) == x
  {
    if n > 0 {
      FromLEOfLE(x / 0x100, n - 1);
      assert LE(x, n)[1..] == LE(x / 0x100, n - 1);
    }
  }

  lemma {:induction false} LEOfFromLE(s: seq<byte>)
    ensures LE(FromLE(s), |s|) == s
  {
    if s != [] {
      LEOfFromLE(s[1..]);
      DivModByte(FromLE(s[1..]), s[0]);
      assert s == [s[0]] + s[1..];
    }
  }

  lemma DivModByte(q: nat, r: byte)
    ensures (r + 0x100 * q) / 0x100 == q && (r + 0x100 * q) % 0x100 == r
  {
  }

  lemma Pow256Literals()
    ensures Pow256(4) == 0x1_0000_0000 && Pow256(16) == R
  {
    var n := 4;
    assert Pow256(n) == 0x1_0000_0000;
    Pow256Sum(n, n, 0x1_0000_0000, 0x1_0000_0000);
    Pow256Sum(2 * n, 2 * n, 0x1_0000_0000_0000_0000, 0x1_0000_0000_0000_0000);
  }

  lemma {:induction false} Pow256Sum(a: nat, b: nat, u: int, v: int)
    requires Pow256(a) == u && Pow256(b) == v
    ensures Pow256(a + b) == u * v
    decreases a
  {
    if a > 0 {
      Pow256Sum(a - 1, b, Pow256(a - 1), v);
      Regroup(Pow256(a - 1), v);
    }
  }

  lemma Regroup(u: int, v: int)
    ensures 0x100 * (u * v) == (0x100 * u) * v
  {
  }

  // ----- 16-byte words -----

  function Word(s: seq<byte>): uint128
    requires |s| == 16
  {
    FromLEBound(s);
    Pow256Literals();
    FromLE(s)
  }

  lemma WordRoundTrip(x: uint128)
    ensures Word(LE(x, 16)) == x
  {
    Pow256Literals();
    FromLEOfLE(x, 16);
  }

  // An array of 128-bit words as its bytes.
  function WordsBytes(ws: seq<uint128>): (s: seq<byte>)
    ensures |s| == 16 * |ws|
  {
    if ws == [] then [] else LE(ws[0], 16) + WordsBytes(ws[1..])
  }

  // Byte b of a number, from the low end.
  function ByteOf(x: nat, b: nat): byte { x / Pow256(b) % 0x100 }

  // Low byte first.
  lemma {:induction false} LowByteFirst(x: nat, n: nat, b: nat)
    requires b < n
    ensures LE(x, n)[b] == ByteOf(x, b)
  {
    if b > 0 {
      LowByteFirst(x / 0x100, n - 1, b - 1);
      DivDiv(x, 0x100, Pow256(b - 1));
    }
  }

  // Word i of an array begins at byte 16 i.
  lemma {:induction false} WordsByte(ws: seq<uint128>, i: nat, b: nat)
    requires i < |ws| && b < 16
    ensures WordsBytes(ws)[16 * i + b] == ByteOf(ws[i], b)
  {
    hide LE, ByteOf;
    if i == 0 { LowByteFirst(ws[0], 16, b); } else { WordsByte(ws[1..], i - 1, b); }
  }

  // n words of 16 bytes each stand in a byte string from position o on, every word low byte first.
  ghost predicate WordsStandAt(s: seq<byte>, o: nat, ws: seq<uint128>)
  {
    && o + 16 * |ws| <= |s|
    && forall i, b :: 0 <= i < |ws| && 0 <= b < 16 ==> s[o + (16 * i + b)] == ws[i] / Pow256(b) % 0x100
  }

  lemma WordsStand(before: seq<byte>, ws: seq<uint128>, after: seq<byte>)
    ensures WordsStandAt(before + WordsBytes(ws) + after, |before|, ws)
  {
    hide WordsBytes;
    var s := before + WordsBytes(ws) + after;
    forall i, b | 0 <= i < |ws| && 0 <= b < 16 ensures s[|before| + (16 * i + b)] == ws[i] / Pow256(b) % 0x100 {
      WordsByte(ws, i, b);
      assert s[|before| + (16 * i + b)] == WordsBytes(ws)[16 * i + b];
    }
  }

  // The number that four bytes are, the low one first.
  function U32At(s: seq<byte>, o: nat): nat
    requires o + 4 <= |s|
  {
    var b0: int, b1: int, b2: int, b3: int := s[o], s[o + 1], s[o + 2], s[o + 3];
    b0 + 0x100 * b1 + 0x1_0000 * b2 + 0x100_0000 * b3
  }

  lemma FourBytes(s: seq<byte>, o: nat)
    requires o + 4 <= |s|
    ensures FromLE(s[o..o + 4]) == U32At(s, o)
  {
    var t := s[o..o + 4];
    assert FromLE(t) == t[0] + 0x100 * FromLE(t[1..]);
    assert FromLE(t[1..]) == t[1] + 0x100 * FromLE(t[2..]) by { assert t[1..][1..] == t[2..]; }
    assert FromLE(t[2..]) == t[2] + 0x100 * FromLE(t[3..]) by { assert t[2..][1..] == t[3..]; }
    assert FromLE(t[3..]) == t[3] + 0x100 * FromLE([]) by { assert t[3..][1..] == []; }
  }

  // The first n words of a byte string.
  function ReadWords(s: seq<byte>, n: nat): (ws: seq<uint128>)
    requires 16 * n <= |s|
    ensures |ws| == n
  {
    if n == 0 then [] else [Word(s[..16])] + ReadWords(s[16..], n - 1)
  }

  lemma {:induction false} WordsRoundTrip(ws: seq<uint128>, rest: seq<byte>)
    ensures ReadWords(WordsBytes(ws) + rest, |ws|) == ws
  {
    hide LE, Word;
    if ws != [] {
      var s := WordsBytes(ws) + rest;
      assert s[..16] == LE(ws[0], 16);
      assert s[16..] == WordsBytes(ws[1..]) + rest;
      WordRoundTrip(ws[0]);
      WordsRoundTrip(ws[1..], rest);
    }
  }

  lemma {:induction false} WordsBytesOfRead(s: seq<byte>, n: nat)
    requires 16 * n == |s|
    ensures WordsBytes(ReadWords(s, n)) == s
  {
    hide LE;
    if n > 0 {
      WordsBytesOfRead(s[16..], n - 1);
      LEOfFromLE(s[..16]);
      var ws := ReadWords(s, n);
      assert ws[1..] == ReadWords(s[16..], n - 1);
      assert WordsBytes(ws) == s[..16] + s[16..];
    }
  }

  // ----- arrays of blocks -----

  function ToInts(bs: seq<Block>): (ws: seq<uint128>)
    ensures |ws| == |bs|
  {
    seq(|bs|, i requires 0 <= i < |bs| => ToInt(bs[i]))
  }

  function FromInts(ws: seq<uint128>): (bs: seq<Block>)
    ensures |bs| == |ws|
  {
    seq(|ws|, i requires 0 <= i < |ws| => FromInt(ws[i]))
  }

  lemma IntsRoundTrip(bs: seq<Block>)
    ensures FromInts(ToInts(bs)) == bs
  {
    hide ToInt, FromInt;
    forall i | 0 <= i < |bs| ensures FromInts(ToInts(bs))[i] == bs[i] { FromToInt(bs[i]); }
  }
}
