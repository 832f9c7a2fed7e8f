/** Interval containment over a comparison-function table (DCFTable.cpp): two keys evaluated over the whole
    domain, added up, and multiplied into the table in one chunk a core. */
module DcfTable {
  import opened Arith
  import opened Bits
  import opened Blocks
  import opened SeedTree
  import opened Rss
  import opened Bytes
  import opened Keys
  import opened KeyObjects
  import opened Filters
  import DCF
  import DCFServer

  // ----- the dot product with the table, by chunks -----

  // Sum over buckets lo <= x < hi of d[x] * table[x][j], in 128-bit words.
  function TableDot(d: Vec, table: seq<Vec>, j: nat, lo: nat, hi: nat): uint128
    requires lo <= hi <= |d| && hi <= |table| && forall x :: lo <= x < hi ==> j < |table[x]|
  {
    if hi == lo then 0 else Add(TableDot(d, table, j, lo, hi - 1), Mul(d[hi - 1], table[hi - 1][j]))
  }

  lemma AddAssoc(a: uint128, b: uint128, c: uint128)
    ensures Add(a, Add(b, c)) == Add(Add(a, b), c)
  {
    hide CongR, Add;
    var x: int, y: int, z: int := a, b, c;
    CongRRefl(x); CongRRefl(y); CongRRefl(z);
    AddR(a, x, b, y);
    AddR(b, y, c, z);
    AddR(Add(a, b), x + y, c, z);
    AddR(a, x, Add(b, c), y + z);
    SameWord(Add(a, Add(b, c)), Add(Add(a, b), c), x + y + z);
  }

  // Words congruent to one number are equal.
  lemma SameWord(u: uint128, v: uint128, n: int)
    requires CongR(u, n) && CongR(v, n)
    ensures u == v
  {
  }

  // Neighbouring chunks add up.
  lemma {:induction false} ChunksAdd(d: Vec, table: seq<Vec>, j: nat, lo: nat, mid: nat, hi: nat)
    requires lo <= mid <= hi <= |d| && hi <= |table| && forall x :: lo <= x < hi ==> j < |table[x]|
    ensures Add(TableDot(d, table, j, lo, mid), TableDot(d, table, j, mid, hi)) == TableDot(d, table, j, lo, hi)
  {
    hide Add, Mul;
    if hi == mid {
      AddZero(TableDot(d, table, j, lo, mid));
    } else {
      ChunksAdd(d, table, j, lo, mid, hi - 1);
      AddAssoc(TableDot(d, table, j, lo, mid), TableDot(d, table, j, mid, hi - 1), Mul(d[hi - 1], table[hi - 1][j]));
    }
  }

  lemma AddZero(a: uint128)
    ensures Add(a, 0) == a && Add(0, a) == a
  {
  }

  // Rows of one width for every bucket.
  ghost predicate TableOf(table: seq<Vec>, numBuckets: nat, windowSize: nat)
  {
    |table| == numBuckets && forall x :: 0 <= x < numBuckets ==> |table[x]| == windowSize
  }

  // How many times the buffers are as long as the plain ones: in malicious mode their second halves hold the
  // evaluations of the MAC key.
  function Halves(malicious: bool): nat { if malicious then 2 else 1 }

  // One half of an accumulator: every row's dot product over the buckets from lo on, up to hi for the rows
  // already reached and up to done for the others.
  ghost function HalfOf(d: Vec, table: seq<Vec>, w: nat, lo: nat, done: nat, hi: nat, reached: nat): (r: Vec)
    requires TableOf(table, |d|, w) && lo <= done <= hi <= |d|
    ensures |r| == w
  {
    seq<uint128>(w, j requires 0 <= j < w => TableDot(d, table, j, lo, if j < reached then hi else done))
  }

  // An accumulator: the plain products and, in malicious mode, behind them the MAC products.
  ghost function Partial(d: Vec, table: seq<Vec>, w: nat, malicious: bool, lo: nat, done: nat, hi: nat,
                         reached: nat): (r: Vec)
    requires TableOf(table, |table|, w) && |d| == Halves(malicious) * |table| && lo <= done <= hi <= |table|
    ensures |r| == Halves(malicious) * w
  {
    HalfOf(d[..|table|], table, w, lo, done, hi, reached)
    + if malicious then HalfOf(d[|table|..], table, w, lo, done, hi, reached) else []
  }

  // Every row's dot product over buckets lo <= x < hi, in both halves.
  ghost function Dots(d: Vec, table: seq<Vec>, w: nat, malicious: bool, lo: nat, hi: nat): (r: Vec)
    requires TableOf(table, |table|, w) && |d| == Halves(malicious) * |table| && lo <= hi <= |table|
    ensures |r| == Halves(malicious) * w
  {
    Partial(d, table, w, malicious, lo, hi, hi, 0)
  }

  lemma DotNext(d: Vec, table: seq<Vec>, j: nat, lo: nat, i: nat)
    requires lo <= i < |d| && i < |table| && forall x :: lo <= x <= i ==> j < |table[x]|
    ensures TableDot(d, table, j, lo, i + 1) == Add(TableDot(d, table, j, lo, i), Mul(d[i], table[i][j]))
  {
  }

  // One row takes in one bucket; once all have, the next bucket's turn begins.
  lemma RowTakes(d: Vec, table: seq<Vec>, w: nat, lo: nat, i: nat, j: nat)
    requires TableOf(table, |d|, w) && lo <= i < |d| && j < w
    ensures var r := HalfOf(d, table, w, lo, i, i + 1, j);
            HalfOf(d, table, w, lo, i, i + 1, j + 1) == r[j := Add(r[j], Mul(d[i], table[i][j]))]
  {
    hide Add, Mul;
    DotNext(d, table, j, lo, i);
    var r, next := HalfOf(d, table, w, lo, i, i + 1, j), HalfOf(d, table, w, lo, i, i + 1, j + 1);
    assert r[j] == TableDot(d, table, j, lo, i);
    forall k | 0 <= k < w ensures next[k] == r[j := Add(r[j], Mul(d[i], table[i][j]))][k] { }
  }

  lemma RowsDone(d: Vec, table: seq<Vec>, w: nat, lo: nat, done: nat, hi: nat)
    requires TableOf(table, |d|, w) && lo <= done <= hi <= |d|
    ensures HalfOf(d, table, w, lo, done, hi, w) == HalfOf(d, table, w, lo, hi, hi, 0)
    ensures HalfOf(d, table, w, lo, done, hi, 0) == HalfOf(d, table, w, lo, done, done, 0)
  {
    hide TableDot;
  }

  // One row takes in a core's chunk.
  lemma RowJoins(d: Vec, table: seq<Vec>, w: nat, done: nat, end: nat, j: nat)
    requires TableOf(table, |d|, w) && done <= end <= |d| && j < w
    ensures var r, part := HalfOf(d, table, w, 0, done, end, j), HalfOf(d, table, w, done, end, end, 0);
            HalfOf(d, table, w, 0, done, end, j + 1) == r[j := Add(r[j], part[j])]
  {
    hide Add, TableDot;
    ChunksAdd(d, table, j, 0, done, end);
  }

  // One core's chunk, accumulated in place.
  method ChunkRoutine(res: array<uint128>, d: Vec, table: seq<Vec>, w: nat, malicious: bool, start: nat, end: nat)
    requires TableOf(table, |table|, w) && |d| == Halves(malicious) * |table| && start <= end <= |table|
    requires res[..] == Dots(d, table, w, malicious, start, start)
    modifies res
    ensures res[..] == Dots(d, table, w, malicious, start, end)
  {
    hide Add, Mul, HalfOf;
    ghost var plain, macs := d[..|table|], d[|table|..];
    var i := start;
    while i < end
      invariant start <= i <= end && res[..] == Dots(d, table, w, malicious, start, i)
    {
      RowsDone(plain, table, w, start, i, i + 1);
      if malicious { RowsDone(macs, table, w, start, i, i + 1); }
      var j := 0;
      while j < w
        invariant 0 <= j <= w && res[..] == Partial(d, table, w, malicious, start, i, i + 1, j)
      {
        ghost var was := res[..];
        RowTakes(plain, table, w, start, i, j);
        res[j] := Add(res[j], Mul(d[i], table[i][j]));
        if malicious {
          RowTakes(macs, table, w, start, i, j);
          res[w + j] := Add(res[w + j], Mul(d[|table| + i], table[i][j]));
        }
        j := j + 1;
      }
      i := i + 1;
    }
  }

  // A core's sums added to those of the cores before it, half by half.
  method AddChunk(out: array<uint128>, part: array<uint128>, d: Vec, table: seq<Vec>, w: nat, malicious: bool,
                  done: nat, end: nat)
    requires TableOf(table, |table|, w) && |d| == Halves(malicious) * |table| && done <= end <= |table|
    requires out != part && out[..] == Dots(d, table, w, malicious, 0, done)
    requires part[..] == Dots(d, table, w, malicious, done, end)
    modifies out
    ensures out[..] == Dots(d, table, w, malicious, 0, end)
  {
    hide Add, HalfOf;
    ghost var plain, macs := d[..|table|], d[|table|..];
    ghost var rest := if malicious then HalfOf(macs, table, w, 0, done, done, 0) else [];
    RowsDone(plain, table, w, 0, done, end);
    var i := 0;
    while i < w
      invariant 0 <= i <= w && out[..] == HalfOf(plain, table, w, 0, done, end, i) + rest
    {
      RowJoins(plain, table, w, done, end, i);
      out[i] := Add(out[i], part[i]);
      i := i + 1;
    }
    if !malicious { return; }
    RowsDone(macs, table, w, 0, done, end);
    i := 0;
    while i < w
      invariant 0 <= i <= w
      invariant out[..] == HalfOf(plain, table, w, 0, end, end, 0) + HalfOf(macs, table, w, 0, done, end, i)
    {
      RowJoins(macs, table, w, done, end, i);
      out[w + i] := Add(out[w + i], part[w + i]);
      i := i + 1;
    }
  }

  lemma NoDot(d: Vec, table: seq<Vec>, j: nat, at: nat)
    requires at <= |d| && at <= |table|
    ensures TableDot(d, table, j, at, at) == 0
  {
  }

  lemma NothingYet(d: Vec, table: seq<Vec>, w: nat, malicious: bool, at: nat)
    requires |d| == Halves(malicious) * |table| && TableOf(table, |table|, w) && at <= |table|
    ensures forall k :: 0 <= k < Halves(malicious) * w ==> Dots(d, table, w, malicious, at, at)[k] == 0
  {
    var plain, macs := d[..|table|], d[|table|..];
    forall k | 0 <= k < w ensures HalfOf(plain, table, w, at, at, at, 0)[k] == 0 { NoDot(plain, table, k, at); }
    if malicious {
      forall k | 0 <= k < w ensures HalfOf(macs, table, w, at, at, at, 0)[k] == 0 { NoDot(macs, table, k, at); }
    }
  }

  /** eval_dcf_table_part_b: the cores' chunks, however the buckets divide among them, add up to the whole dot
      product -- in malicious mode that of the MAC evaluations too. */
  method EvalTablePartB(d: Vec, table: seq<Vec>, windowSize: nat, cores: nat, malicious: bool) returns (res: Vec)
    requires TableOf(table, |table|, windowSize) && |d| == Halves(malicious) * |table| && 1 <= cores <= |table|
    ensures res == Dots(d, table, windowSize, malicious, 0, |table|)
  {
    hide Dots;
    var n := |table|;
    var out := new uint128[Halves(malicious) * windowSize](_ => 0);
    NothingYet(d, table, windowSize, malicious, 0);
    var chunkSize := n / cores;
    ChunksFit(n, cores);
    var th := 0;
    ghost var done := 0;
    while th < cores
      invariant 0 <= th <= cores && done == (if th == cores then n else th * chunkSize) && done <= n
      invariant out[..] == Dots(d, table, windowSize, malicious, 0, done)
    {
      ChunkBound(th, cores, chunkSize, n);
      var end := if th == cores - 1 then n else (th + 1) * chunkSize;
      var part := new uint128[Halves(malicious) * windowSize](_ => 0);
      NothingYet(d, table, windowSize, malicious, th * chunkSize);
      ChunkRoutine(part, d, table, windowSize, malicious, th * chunkSize, end);
      AddChunk(out, part, d, table, windowSize, malicious, th * chunkSize, end);
      done := end;
      th := th + 1;
    }
    res := out[..];
  }

  lemma ChunksFit(n: nat, cores: nat)
    requires 1 <= cores <= n
    ensures n / cores >= 1 && cores * (n / cores) <= n
  {
  }

  lemma ChunkBound(th: nat, cores: nat, size: nat, n: nat)
    requires th < cores && cores * size <= n
    ensures th * size <= th * size + size == (th + 1) * size <= n
  {
    DCFServer.MulSplit(th, 1, size);
    DCFServer.MulSplit(th + 1, cores - th - 1, size);
  }

  // ----- interval containment -----

  // A tree of the given depth ignores the bits above it.
  lemma {:induction false} PathWraps(depth: nat, i: nat)
    requires i < depth
    ensures BitAt(Pow2(depth), depth - 1 - i) == BitAt(0, depth - 1 - i) == false
  {
    var s := depth - 1 - i;
    Pow2Add(s, i + 1);
    DivUnique(Pow2(depth), Pow2(s), Pow2(i + 1), 0);
    DivUnique(0, Pow2(s), 0, 0);
    ByteKeepsLowBit(Pow2(i + 1));
    DivUnique(Pow2(i + 1), 2, Pow2(i), 0);
  }

  lemma TopOfDomain(depth: nat)
    ensures PathOf(Pow2(depth), depth) == PathOf(0, depth)
  {
    hide BitAt;
    forall i | 0 <= i < depth ensures PathOf(Pow2(depth), depth)[i] == PathOf(0, depth)[i] { PathWraps(depth, i); }
  }

  // The two keys of a query for right_x < x < left_x: one for x < left_x with a payload -- 1, or the MAC key
  // alpha -- and one for x < right_x + 1 with its negation.
  function LeftKey(c: Cipher, seeds: Pair, left: nat, pay: uint128, depth: nat, party: bool): (k: DCF.Key)
    ensures |k.k| == |k.v| == depth + 1
  {
    DCF.Gen(c, seeds, PathOf(left, depth), pay, false, party)
  }

  function RightKey(c: Cipher, seeds: Pair, right: nat, pay: uint128, depth: nat, party: bool): (k: DCF.Key)
    ensures |k.k| == |k.v| == depth + 1
  {
    DCF.Gen(c, seeds, PathOf(right + 1, depth), Mul(MINUS_ONE, pay), false, party)
  }

  // What the whole-domain evaluation leaves at bucket x of a buffer of zeros: a tree of one leaf writes
  // nothing.
  function TableValue(c: Cipher, key: DCF.Key, depth: nat, party: bool, x: nat): uint128
    requires |key.k| == |key.v| == depth + 1
  {
    if depth == 0 then 0 else DCF.Eval(c, key, party, PathOf(x, depth))
  }

  // One party's word for bucket x: both evaluations, added.
  function IntervalWord(c: Cipher, kl: DCF.Key, kr: DCF.Key, depth: nat, party: bool, x: nat): uint128
    requires |kl.k| == |kl.v| == |kr.k| == |kr.v| == depth + 1
  {
    Add(TableValue(c, kl, depth, party, x), TableValue(c, kr, depth, party, x))
  }

  // What the two parties' words open to.
  function IntervalValue(left: nat, right: nat, depth: nat, x: nat): int
  {
    (if x < left then 1 else 0) - (if right + 1 < Pow2(depth) && x <= right then 1 else 0)
  }

  // Four evaluations, opened in pairs.
  lemma FourOpen(a0: uint128, a1: uint128, b0: uint128, b1: uint128, u: int, v: int)
    requires (a0 + a1) % M == u % M && (b0 + b1) % M == v % M
    ensures Cong(Add(a0, b0) as int + Add(a1, b1), u + v)
  {
    var x0: int, x1: int, y0: int, y1: int := a0, a1, b0, b1;
    CongMod(x0 + x1, u);
    CongMod(y0 + y1, v);
    CongRefl(x0); CongRefl(x1); CongRefl(y0); CongRefl(y1);
    AddCong(a0, x0, b0, y0);
    AddCong(a1, x1, b1, y1);
    CongAdd(Add(a0, b0), x0 + y0, Add(a1, b1), x1 + y1);
    CongAdd(x0 + x1, u, y0 + y1, v);
    CongTrans(Add(a0, b0) as int + Add(a1, b1), x0 + y0 + (x1 + y1), u + v);
  }

  // Minus a payload, as the client multiplies it out.
  lemma NegatedMod(pay: uint128)
    ensures Mul(MINUS_ONE, pay) % M == (0 - pay as int) % M
  {
    hide Cong, Mul;
    CongFrom(MINUS_ONE, -1, 8);
    CongRefl(pay);
    MulCong(MINUS_ONE, -1, pay, pay);
    CongMod(Mul(MINUS_ONE, pay), 0 - pay as int);
  }

  /** The two parties' words open to the payload times the interval value, at every bucket, for every pair of
      boundaries. */
  lemma IntervalOpens(c: Cipher, sl: Pair, sr: Pair, left: nat, right: nat, pay: uint128, depth: nat, x: nat)
    requires left < Pow2(depth) && right < Pow2(depth) && x < Pow2(depth)
    ensures Cong(IntervalWord(c, LeftKey(c, sl, left, pay, depth, false), RightKey(c, sr, right, pay, depth, false),
                              depth, false, x) as int
                 + IntervalWord(c, LeftKey(c, sl, left, pay, depth, true), RightKey(c, sr, right, pay, depth, true),
                                depth, true, x),
                 pay * IntervalValue(left, right, depth, x))
  {
    hide DCF.Gen, TableValue, Add, Cong;
    LeftOpens(c, sl, left, pay, depth, x);
    RightOpens(c, sr, right, pay, depth, x);
    FourOpen(TableValue(c, LeftKey(c, sl, left, pay, depth, false), depth, false, x),
             TableValue(c, LeftKey(c, sl, left, pay, depth, true), depth, true, x),
             TableValue(c, RightKey(c, sr, right, pay, depth, false), depth, false, x),
             TableValue(c, RightKey(c, sr, right, pay, depth, true), depth, true, x),
             if x < left then pay else 0, if right + 1 < Pow2(depth) && x <= right then 0 - pay as int else 0);
    PaidTwice(pay, left, right, depth, x);
  }

  lemma PaidTwice(pay: uint128, left: nat, right: nat, depth: nat, x: nat)
    ensures (if x < left then pay else 0) as int + (if right + 1 < Pow2(depth) && x <= right then 0 - pay as int else 0)
         == pay * IntervalValue(left, right, depth, x)
  {
  }

  lemma LeftOpens(c: Cipher, sl: Pair, left: nat, pay: uint128, depth: nat, x: nat)
    requires left < Pow2(depth) && x < Pow2(depth)
    ensures (TableValue(c, LeftKey(c, sl, left, pay, depth, false), depth, false, x)
             + TableValue(c, LeftKey(c, sl, left, pay, depth, true), depth, true, x)) % M
         == if x < left then pay % M else 0
  {
    hide DCF.Gen, DCF.Eval, PathOf;
    DCF.Correct(c, sl, depth, left, pay, false, x);
  }

  lemma RightOpens(c: Cipher, sr: Pair, right: nat, pay: uint128, depth: nat, x: nat)
    requires right < Pow2(depth) && x < Pow2(depth)
    ensures (TableValue(c, RightKey(c, sr, right, pay, depth, false), depth, false, x)
             + TableValue(c, RightKey(c, sr, right, pay, depth, true), depth, true, x)) % M
         == (if right + 1 < Pow2(depth) && x <= right then 0 - pay as int else 0) % M
  {
    hide DCF.Gen, DCF.Eval, PathOf, Mul;
    NegatedMod(pay);
    if right + 1 < Pow2(depth) {
      DCF.Correct(c, sr, depth, right + 1, Mul(MINUS_ONE, pay), false, x);
    } else {
      TopOfDomain(depth);
      DCF.Correct(c, sr, depth, 0, Mul(MINUS_ONE, pay), false, x);
    }
  }

  /** The interval value is the indicator of right_x < x < left_x on the whole domain exactly when the
      right boundary lies below the left one. */
  lemma IntervalRightIff(left: nat, right: nat, depth: nat)
    requires left < Pow2(depth) && right < Pow2(depth)
    ensures (forall x: nat :: x < Pow2(depth) ==> IntervalValue(left, right, depth, x) == if right < x < left then 1
             else 0)
            <==> right < left || (left == 0 && right + 1 == Pow2(depth))
  {
    if right >= left {
      if right + 1 < Pow2(depth) {
        assert IntervalValue(left, right, depth, right) == -1;
      } else if left > 0 {
        assert IntervalValue(left, right, depth, 0) == 1;
      }
    }
  }

  // ----- keys on the wire -----

  // The client's key objects hold exactly these two keys -- with payload 1 as plain keys, with the MAC key as
  // payload as MAC keys.
  lemma GeneratedKeys(c: Cipher, sl: Pair, sr: Pair, left: nat, right: nat, pay: uint128, depth: nat)
    requires left < 0x1_0000_0000 && right < 0x1_0000_0000
    ensures Mul(pay, 1) == pay && Mul(Mul(MINUS_ONE, pay), 1) == Mul(MINUS_ONE, pay)
    ensures
      var l, r := DcfPair(c, sl, left, depth, pay, false), DcfPair(c, sr, Add(right, 1), depth, Mul(MINUS_ONE, pay),
                                                                   false);
      && l.key0 == LeftKey(c, sl, left, pay, depth, false) && l.key1 == LeftKey(c, sl, left, pay, depth, true)
      && r.key0 == RightKey(c, sr, right, pay, depth, false) && r.key1 == RightKey(c, sr, right, pay, depth, true)
  {
    hide DCF.Gen, PathOf;
    IndexSurvives(left);
    IndexSurvives(right + 1);
  }

  // One party's key bytes, with the MAC key behind the plain one in malicious mode.
  function PartyBytes(plain: DCF.Key, mac: DCF.Key, malicious: bool): seq<byte>
    requires |plain.k| == |plain.v| && |mac.k| == |mac.v|
  {
    DcfBytes(plain) + if malicious then DcfBytes(mac) else []
  }

  /** Two keys placed one after the other read back, the second from one key size on, in both modes. */
  lemma TwoKeysReadBack(l: DCF.Key, lMac: DCF.Key, r: DCF.Key, rMac: DCF.Key, malicious: bool, depth: nat)
    requires |l.k| == |l.v| == |lMac.k| == |lMac.v| == |r.k| == |r.v| == |rMac.k| == |rMac.v| == depth + 1
    ensures
      var s := PartyBytes(l, lMac, malicious) + PartyBytes(r, rMac, malicious);
      var keySize := (if malicious then 2 else 1) * (32 * (depth + 1));
      && |s| == 2 * keySize
      && ReadDcf(s, depth) == l && ReadDcf(s[keySize..], depth) == r
      && (malicious ==>
           ReadDcf(s[32 * (depth + 1)..], depth) == lMac
           && ReadDcf(s[keySize + 32 * (depth + 1)..], depth) == rMac)
  {
    hide DcfBytes, ReadDcf;
    var first, second := PartyBytes(l, lMac, malicious), PartyBytes(r, rMac, malicious);
    var s := first + second;
    var n := 32 * (depth + 1);
    assert s[|first|..] == second;
    if malicious {
      assert s == DcfBytes(l) + DcfBytes(lMac) + second;
      PartyBytesReadBack(l, lMac, depth, second);
      assert second == DcfBytes(r) + DcfBytes(rMac) + [];
      PartyBytesReadBack(r, rMac, depth, []);
      assert s[|first| + n..] == second[n..];
    } else {
      assert s == DcfBytes(l) + second && second == DcfBytes(r) + [];
      DcfRoundTrip(l, depth, second);
      DcfRoundTrip(r, depth, []);
    }
  }

  // ----- one server's answer -----

  // The words a party multiplies into the table.
  function IntervalVec(c: Cipher, kl: DCF.Key, kr: DCF.Key, depth: nat, party: bool): (d: Vec)
    requires |kl.k| == |kl.v| == |kr.k| == |kr.v| == depth + 1
    ensures |d| == Pow2(depth)
  {
    seq<uint128>(Pow2(depth), x requires 0 <= x < Pow2(depth) => IntervalWord(c, kl, kr, depth, party, x))
  }

  // A key object a server holds: the plain key and, in malicious mode, the MAC key beside it.
  datatype HeldKey = HeldKey(plain: DCF.Key, mac: DCF.Key)

  predicate Fits(key: HeldKey, malicious: bool, depth: nat)
  {
    |key.plain.k| == |key.plain.v| == depth + 1 && (malicious ==> |key.mac.k| == |key.mac.v| == depth + 1)
  }

  // One key's whole-domain evaluations.
  function KeyVec(c: Cipher, key: DCF.Key, depth: nat, party: bool): (d: Vec)
    requires |key.k| == |key.v| == depth + 1
    ensures |d| == Pow2(depth)
  {
    seq<uint128>(Pow2(depth), x requires 0 <= x < Pow2(depth) => TableValue(c, key, depth, party, x))
  }

  // A buffer of one key object's evaluations, and one of two key objects' evaluations joined.
  function Buffer(c: Cipher, key: HeldKey, malicious: bool, depth: nat, party: bool): (d: Vec)
    requires Fits(key, malicious, depth)
    ensures |d| == Halves(malicious) * Pow2(depth)
  {
    KeyVec(c, key.plain, depth, party) + if malicious then KeyVec(c, key.mac, depth, party) else []
  }

  function Joined(c: Cipher, l: HeldKey, r: HeldKey, malicious: bool, depth: nat, party: bool): (d: Vec)
    requires Fits(l, malicious, depth) && Fits(r, malicious, depth)
    ensures |d| == Halves(malicious) * Pow2(depth)
  {
    IntervalVec(c, l.plain, r.plain, depth, party)
    + if malicious then IntervalVec(c, l.mac, r.mac, depth, party) else []
  }

  // Whole-domain evaluation into a fresh buffer of zeros.
  method WholeDomain(c: Cipher, key: HeldKey, malicious: bool, depth: nat, party: bool, cores: nat)
    returns (res: array<uint128>)
    requires Fits(key, malicious, depth)
    requires depth >= DCFServer.THREADING_MINIMUM ==> DCFServer.Splittable(Pow2(depth), cores)
    ensures fresh(res) && res[..] == Buffer(c, key, malicious, depth, party)
  {
    hide DCF.Eval, PathOf, DCFServer.Splittable;
    res := new uint128[Halves(malicious) * Pow2(depth)](_ => 0);
    DCFServer.EvalTablePartA(res, c, key.plain, key.mac, malicious, depth, party, cores);
  }

  // One buffer added into another, cell by cell.
  method AddInto(res: array<uint128>, other: array<uint128>)
    requires res != other && res.Length == other.Length
    modifies res
    ensures res[..] == Cells(old(res[..]), other[..])
  {
    hide Add;
    var i := 0;
    while i < res.Length
      invariant 0 <= i <= res.Length
      invariant forall x :: 0 <= x < res.Length ==> res[x] == if x < i then Add(old(res[x]), other[x]) else old(res[x])
    {
      res[i] := Add(res[i], other[i]);
      i := i + 1;
    }
  }

  ghost function Cells(a: Vec, b: Vec): (r: Vec)
    requires |a| == |b|
  {
    seq<uint128>(|a|, i requires 0 <= i < |a| => Add(a[i], b[i]))
  }

  lemma JoinedCells(c: Cipher, l: HeldKey, r: HeldKey, malicious: bool, depth: nat, party: bool)
    requires Fits(l, malicious, depth) && Fits(r, malicious, depth)
    ensures Joined(c, l, r, malicious, depth, party)
         == Cells(Buffer(c, l, malicious, depth, party), Buffer(c, r, malicious, depth, party))
  {
    hide TableValue, Pow2, Add;
  }

  /** ic_eval_dcf_table: both keys of the chosen interval over the whole domain, joined, then the table product;
      a single-sided query multiplies in the first key's evaluations alone, whichever interval was chosen. In
      malicious mode the MAC evaluations go the same way. */
  method IcEvalDcfTable(c: Cipher, keys: seq<HeldKey>, idx: nat, both: bool, malicious: bool, depth: nat, party: bool,
                        table: seq<Vec>, windowSize: nat, cores: nat)
    returns (res: Vec)
    requires if both then 2 * idx + 1 < |keys| else 0 < |keys|
    requires forall i :: 0 <= i < |keys| ==> Fits(keys[i], malicious, depth)
    requires 1 <= cores <= Pow2(depth) && TableOf(table, Pow2(depth), windowSize)
    requires depth >= DCFServer.THREADING_MINIMUM ==> DCFServer.Splittable(Pow2(depth), cores)
    ensures res
         == Dots(if both then Joined(c, keys[2 * idx], keys[2 * idx + 1], malicious, depth, party)
                 else Buffer(c, keys[0], malicious, depth, party),
                 table, windowSize, malicious, 0, |table|)
  {
    hide Buffer, Joined, Cells, Dots, Fits, Pow2, DCFServer.Splittable;
    if !both {
      var alone := WholeDomain(c, keys[0], malicious, depth, party, cores);
      res := EvalTablePartB(alone[..], table, windowSize, cores, malicious);
      return;
    }
    var resL := WholeDomain(c, keys[2 * idx], malicious, depth, party, cores);
    var resR := WholeDomain(c, keys[2 * idx + 1], malicious, depth, party, cores);
    JoinedCells(c, keys[2 * idx], keys[2 * idx + 1], malicious, depth, party);
    AddInto(resL, resR);
    res := EvalTablePartB(resL[..], table, windowSize, cores, malicious);
  }

  // The plaintext answer on one row: the table's word at every bucket, weighted by the interval value.
  function IntervalSum(left: nat, right: nat, depth: nat, table: seq<Vec>, j: nat, n: nat): int
    requires n <= |table| && forall x :: 0 <= x < n ==> j < |table[x]|
  {
    if n == 0 then 0
    else IntervalSum(left, right, depth, table, j, n - 1) + IntervalValue(left, right, depth, n - 1) * table[n - 1][j]
  }

  // Words that open to a multiple of the interval value, multiplied into a row of the table.
  lemma {:induction false} RowOpens(left: nat, right: nat, pay: uint128, depth: nat, d0: Vec, d1: Vec, table: seq<Vec>,
                                    j: nat, n: nat)
    requires n <= |table| && n <= |d0| && n <= |d1| && forall x :: 0 <= x < n ==> j < |table[x]|
    requires forall x :: 0 <= x < n ==> Cong(d0[x] as int + d1[x], pay * IntervalValue(left, right, depth, x))
    ensures Cong(TableDot(d0, table, j, 0, n) as int + TableDot(d1, table, j, 0, n),
                 pay * IntervalSum(left, right, depth, table, j, n))
  {
    hide Add, Mul, Cong, IntervalValue;
    if n == 0 {
      CongRefl(0);
    } else {
      var x := n - 1;
      RowOpens(left, right, pay, depth, d0, d1, table, j, x);
      var m, t, s := IntervalValue(left, right, depth, x), table[x][j], IntervalSum(left, right, depth, table, j, x);
      TwoTerms(d0[x], d1[x], pay * m, t);
      TwoSums(TableDot(d0, table, j, 0, x), Mul(d0[x], t), TableDot(d1, table, j, 0, x), Mul(d1[x], t),
              pay * s, (pay * m) * t);
      Distributed(pay, s, m, t);
    }
  }

  lemma Distributed(pay: int, s: int, m: int, t: int)
    ensures pay * s + (pay * m) * t == pay * (s + m * t)
  {
  }

  /** The two parties' answers on one copy of the table open to the weighted sum of its buckets -- times the
      MAC key, where the MAC keys are the ones evaluated. */
  lemma IntervalAnswerOpens(c: Cipher, sl: Pair, sr: Pair, left: nat, right: nat, pay: uint128, depth: nat,
                            table: seq<Vec>, j: nat)
    requires left < Pow2(depth) && right < Pow2(depth)
    requires Pow2(depth) <= |table| && forall x :: 0 <= x < Pow2(depth) ==> j < |table[x]|
    ensures
      var d0 := IntervalVec(c, LeftKey(c, sl, left, pay, depth, false), RightKey(c, sr, right, pay, depth, false),
                            depth,
                            false);
      var d1 := IntervalVec(c, LeftKey(c, sl, left, pay, depth, true), RightKey(c, sr, right, pay, depth, true), depth,
                            true);
      Cong(TableDot(d0, table, j, 0, Pow2(depth)) as int + TableDot(d1, table, j, 0, Pow2(depth)),
           pay * IntervalSum(left, right, depth, table, j, Pow2(depth)))
  {
    hide Cong, IntervalWord, IntervalValue, IntervalSum, TableDot, Pow2, DCF.Gen, PathOf;
    var n := Pow2(depth);
    var d0 := IntervalVec(c, LeftKey(c, sl, left, pay, depth, false), RightKey(c, sr, right, pay, depth, false), depth,
                          false);
    var d1 := IntervalVec(c, LeftKey(c, sl, left, pay, depth, true), RightKey(c, sr, right, pay, depth, true), depth,
                          true);
    forall x | 0 <= x < n ensures Cong(d0[x] as int + d1[x], pay * IntervalValue(left, right, depth, x)) {
      IntervalOpens(c, sl, sr, left, right, pay, depth, x);
    }
    RowOpens(left, right, pay, depth, d0, d1, table, j, n);
  }

  lemma TwoSums(a: uint128, p: uint128, b: uint128, q: uint128, u: int, v: int)
    requires Cong(a as int + b, u) && Cong(p as int + q, v)
    ensures Cong(Add(a, p) as int + Add(b, q), u + v)
  {
    hide Cong, Add;
    DotStep(a, p);
    DotStep(b, q);
    CongAdd(Add(a, p), a as int + p, Add(b, q), b as int + q);
    CongAdd(a as int + b, u, p as int + q, v);
    CongTrans(Add(a, p) as int + Add(b, q), a as int + b + (p as int + q), u + v);
  }

  /** Likewise for a single-sided query: the answers open to the sum over the buckets below the boundary. */
  lemma OneKeyAnswerOpens(c: Cipher, sl: Pair, left: nat, pay: uint128, depth: nat, table: seq<Vec>, j: nat)
    requires left < Pow2(depth)
    requires Pow2(depth) <= |table| && forall x :: 0 <= x < Pow2(depth) ==> j < |table[x]|
    ensures
      var d0, d1 := KeyVec(c, LeftKey(c, sl, left, pay, depth, false), depth, false),
                    KeyVec(c, LeftKey(c, sl, left, pay, depth, true), depth, true);
      Cong(TableDot(d0, table, j, 0, Pow2(depth)) as int + TableDot(d1, table, j, 0, Pow2(depth)),
           pay * IntervalSum(left, Pow2(depth) - 1, depth, table, j, Pow2(depth)))
  {
    hide Cong, TableValue, IntervalSum, TableDot, Pow2, LeftKey;
    var n := Pow2(depth);
    var d0, d1 := KeyVec(c, LeftKey(c, sl, left, pay, depth, false), depth, false),
                  KeyVec(c, LeftKey(c, sl, left, pay, depth, true), depth, true);
    forall x | 0 <= x < n ensures Cong(d0[x] as int + d1[x], pay * IntervalValue(left, n - 1, depth, x)) {
      LeftOpens(c, sl, left, pay, depth, x);
      OneKeyWord(d0[x], d1[x], left, pay, depth, x);
    }
    RowOpens(left, n - 1, pay, depth, d0, d1, table, j, n);
  }

  lemma OneKeyWord(a: uint128, b: uint128, left: nat, pay: uint128, depth: nat, x: nat)
    requires (a + b) % M == if x < left then pay % M else 0
    ensures Cong(a as int + b, pay * IntervalValue(left, Pow2(depth) - 1, depth, x))
  {
    CongMod(a as int + b, if x < left then pay as int else 0);
  }

  // The key objects one party holds for an interval: payload 1 in the plain keys, the MAC key in the others.
  function LeftHeld(c: Cipher, s: seq<Pair>, left: nat, alpha: uint128, depth: nat, party: bool): HeldKey
    requires |s| == 4
  {
    HeldKey(LeftKey(c, s[0], left, 1, depth, party), LeftKey(c, s[1], left, alpha, depth, party))
  }

  function RightHeld(c: Cipher, s: seq<Pair>, right: nat, alpha: uint128, depth: nat, party: bool): HeldKey
    requires |s| == 4
  {
    HeldKey(RightKey(c, s[2], right, 1, depth, party), RightKey(c, s[3], right, alpha, depth, party))
  }

  // What one party returns for them.
  ghost function PartyAnswer(c: Cipher, s: seq<Pair>, left: nat, right: nat, alpha: uint128, malicious: bool,
                             depth: nat,
                             table: seq<Vec>, w: nat, party: bool): (r: Vec)
    requires |s| == 4 && TableOf(table, Pow2(depth), w)
    ensures |r| == Halves(malicious) * w
  {
    Dots(Joined(c, LeftHeld(c, s, left, alpha, depth, party), RightHeld(c, s, right, alpha, depth, party), malicious,
                depth, party),
         table, w, malicious, 0, |table|)
  }

  /** What the two parties return for an interval opens, row by row, to the weighted sum of the row's buckets,
      and in malicious mode its second half to the MAC key times that sum. */
  lemma AnswersOpen(c: Cipher, s: seq<Pair>, left: nat, right: nat, alpha: uint128, malicious: bool, depth: nat,
                    table: seq<Vec>, w: nat, j: nat)
    requires |s| == 4 && left < Pow2(depth) && right < Pow2(depth) && TableOf(table, Pow2(depth), w) && j < w
    ensures
      var a, b := PartyAnswer(c, s, left, right, alpha, malicious, depth, table, w, false),
                  PartyAnswer(c, s, left, right, alpha, malicious, depth, table, w, true);
      var sum := IntervalSum(left, right, depth, table, j, |table|);
      && Cong(a[j] as int + b[j], sum)
      && (malicious ==> Cong(a[w + j] as int + b[w + j], alpha * sum))
  {
    hide Cong, IntervalSum, TableDot, Pow2, LeftKey, RightKey, IntervalWord;
    IntervalAnswerOpens(c, s[0], s[2], left, right, 1, depth, table, j);
    JoinedHalves(c, LeftHeld(c, s, left, alpha, depth, false), RightHeld(c, s, right, alpha, depth, false), malicious,
                 depth, false);
    JoinedHalves(c, LeftHeld(c, s, left, alpha, depth, true), RightHeld(c, s, right, alpha, depth, true), malicious,
                 depth, true);
    if malicious { IntervalAnswerOpens(c, s[1], s[3], left, right, alpha, depth, table, j); }
  }

  lemma JoinedHalves(c: Cipher, l: HeldKey, r: HeldKey, malicious: bool, depth: nat, party: bool)
    requires Fits(l, malicious, depth) && Fits(r, malicious, depth)
    ensures var d := Joined(c, l, r, malicious, depth, party);
            && d[..Pow2(depth)] == IntervalVec(c, l.plain, r.plain, depth, party)
            && (malicious ==> d[Pow2(depth)..] == IntervalVec(c, l.mac, r.mac, depth, party))
  {
  }
}
