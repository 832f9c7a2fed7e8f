/** The clients of the plain point and comparison tables (DPFTable.cpp, DCFTable.cpp) and the filters made
    from them: keys are only ever added to the client's list and the first one is always sent, so a filter
    carries one pair three times -- the pair of the first query. */
module PlainFilters {
  import opened Arith
  import opened Bits
  import opened Blocks
  import opened Bytes
  import opened SeedTree
  import opened Rss
  import opened Filters
  import opened Keys
  import opened KeyObjects
  import opened DcfTable
  import opened MixedPlacement
  import DPF
  import DCF

  // The two keys one server is sent.
  datatype KeyPair = KeyPair(key0: seq<byte>, key1: seq<byte>)

  // One pair, sent to each server whole: what three times serializing the same key object gives.
  function Same(k: KeyPair): Trio<KeyPair> { Trio(k, k, k) }

  // ----- point filters -----

  lemma TimesOne(x: uint128)
    ensures Mul(x, 1) == x
  {
  }

  class DPFTableClient {
    const depth: nat
    const malicious: bool
    const alpha: uint128
    var key: seq<ClKey>
    // The first point asked for and the seeds drawn for it.
    ghost var first: uint128
    ghost var drawn: Pair

    ghost predicate Valid(c: Cipher)
      reads this, key
    {
      && (malicious ==> alpha != 0) && first < 0x1_0000_0000
      && (key != [] ==> key[0].DpfFilled(depth) && key[0].dpf == DpfPair(c, drawn, first, depth, 1))
    }

    constructor (d: nat, mal: bool, a: uint128, ghost c: Cipher)
      requires mal ==> a != 0
      ensures Valid(c) && depth == d && key == [] && first == 0
    {
      depth, malicious, alpha := d, mal, a;
      key, first := [], 0;
    }

    // Adds a key pair for x to the list.
    method GenDpfTableKeys(c: Cipher, seeds: Seeds, x: uint32)
      requires Valid(c)
      modifies this`key, this`first, this`drawn
      ensures Valid(c) && |key| == |old(key)| + 1 && key[..|old(key)|] == old(key)
      ensures first == if old(key) == [] then x else old(first)
      ensures drawn == if old(key) == [] then seeds.plain else old(drawn)
      ensures
        var k := key[|old(key)|];
        && fresh(k) && k.dpf == DpfPair(c, seeds.plain, x, depth, 1)
        && (malicious ==> k.dpfMac == DpfPair(c, seeds.mac, x, depth, alpha))
    {
      hide DpfPair, DpfBytes;
      TimesOne(alpha);
      PairFilled(c, seeds.plain, x, depth, 1);
      PairFilled(c, seeds.mac, x, depth, Mul(alpha, 1));
      var k := new ClKey();
      k.DpfGenerate(c, seeds, x, 1, depth, malicious, alpha);
      if key == [] { first, drawn := x, seeds.plain; }
      key := key + [k];
    }

    // Serializes the first key pair of the list.
    method SerializeKeys(ghost c: Cipher) returns (k: KeyPair)
      requires Valid(c) && key != []
      ensures k == KeyPair(key[0].DpfParty(false), key[0].DpfParty(true))
    {
      var key0, key1 := key[0].DpfSerialize(depth);
      k := KeyPair(key0, key1);
    }

    /** A filter: three key pairs are generated and three times a pair is serialized, first halves to servers
        0, 1, 2 and second halves to servers 1, 2, 0. All servers end up with the same pair, and it opens to
        the first point ever asked for. */
    method GenerateDPFFilter(c: Cipher, seeds: Trio<Seeds>, x: uint32) returns (f: Trio<KeyPair>)
      requires Valid(c)
      modifies this`key, this`first, this`drawn
      ensures Valid(c) && |key| == |old(key)| + 3 && first == if old(key) == [] then x else old(first)
      ensures f == Same(f.s0) && PointPair(c, f.s0, depth, first)
    {
      hide DpfPair, DpfBytes, PointPair, ClKey.DpfParty, ClKey.DpfFilled;
      GenDpfTableKeys(c, seeds.s0, x);
      var a := SerializeKeys(c);
      GenDpfTableKeys(c, seeds.s1, x);
      var b := SerializeKeys(c);
      GenDpfTableKeys(c, seeds.s2, x);
      var d := SerializeKeys(c);
      f := Trio(KeyPair(a.key0, d.key1), KeyPair(b.key0, a.key1), KeyPair(d.key0, b.key1));
      FirstOpens(c, key[0], drawn, first, depth, a);
    }
  }

  lemma PairFilled(c: Cipher, seeds: Pair, x: uint128, depth: nat, payload: uint128)
    ensures
      var p := DpfPair(c, seeds, x, depth, payload);
      |p.key0.k| == |p.key1.k| == depth + 1
  {
  }

  // The words a server multiplies into its table for a serialized point key.
  function PointVec(c: Cipher, key: seq<byte>, depth: nat, party: bool): (v: Vec)
    requires |key| >= 16 * (depth + 1) + 16
    ensures |v| == Pow2(depth)
  {
    seq<uint128>(Pow2(depth), x requires 0 <= x < Pow2(depth) =>
      if depth == 0 then 0 else DPF.Eval(c, ReadDpf(key, depth), party, PathOf(x, depth)))
  }

  // What point x opens to: the bucket its low-order bits name, and no bucket on a tree of one leaf.
  function Hot(x: nat, depth: nat): (m: seq<int>)
    ensures |m| == Pow2(depth)
  {
    seq<int>(Pow2(depth), y requires 0 <= y < Pow2(depth) => if depth > 0 && y == x % Pow2(depth) then 1 else 0)
  }

  // A serialized key pair whose two evaluations open to point x.
  ghost predicate PointPair(c: Cipher, k: KeyPair, depth: nat, x: nat)
  {
    && |k.key0| >= 16 * (depth + 1) + 16 && |k.key1| >= 16 * (depth + 1) + 16
    && forall y :: 0 <= y < Pow2(depth) ==>
         Cong(PointVec(c, k.key0, depth, false)[y] as int + PointVec(c, k.key1, depth, true)[y], Hot(x, depth)[y])
  }

  // The path of an index is that of its low-order bits.
  lemma PathOfRest(x: nat, depth: nat)
    ensures PathOf(x, depth) == PathOf(x % Pow2(depth), depth)
  {
    hide BitAt, Pow2;
    ModBelow(x, Pow2(depth));
    forall i | 0 <= i < depth ensures PathOf(x, depth)[i] == PathOf(x % Pow2(depth), depth)[i] {
      BitOfRest(x, depth, depth - 1 - i);
    }
  }

  lemma BitOfRest(x: nat, depth: nat, low: nat)
    requires low < depth
    ensures 0 <= x % Pow2(depth) && BitAt(x, low) == BitAt(x % Pow2(depth), low)
  {
    hide Pow2;
    var w, n := Pow2(low), Pow2(depth - low - 1);
    PowersApart(depth, low);
    var q, r := x / Pow2(depth), x % Pow2(depth);
    ModBelow(x, Pow2(depth));
    ModBelow(r, w);
    var k := n * q;
    assert x == w * (2 * k) + r by { MulAssoc(w, 2 * n, q); MulAssoc(2, n, q); }
    AddMultiple(w, 2 * k, r / w);
    DivUnique(x, w, 2 * k + r / w, r % w);
    SameLowBit(k, r / w);
  }

  lemma PowersApart(depth: nat, low: nat)
    requires low < depth
    ensures Pow2(depth) == Pow2(low) * (2 * Pow2(depth - low - 1))
  {
    Pow2Add(low, depth - low);
    HalfPower(depth - low);
  }

  lemma SameLowBit(k: int, r: nat)
    requires 2 * k + r >= 0
    ensures ((2 * k + r) % 0x100) % 2 == (r % 0x100) % 2
  {
    var n := 2 * k + r;
    ByteKeepsLowBit(n);
    ByteKeepsLowBit(r);
    DivUnique(n, 2, k + r / 2, r % 2);
  }

  lemma FirstOpens(c: Cipher, key: ClKey, seeds: Pair, x: uint128, depth: nat, k: KeyPair)
    requires key.DpfFilled(depth) && key.dpf == DpfPair(c, seeds, x, depth, 1) && x < 0x1_0000_0000
    requires k == KeyPair(key.DpfParty(false), key.DpfParty(true))
    ensures PointPair(c, k, depth, x)
  {
    hide DPF.Gen, DPF.Eval, PathOf, DpfBytes, ReadDpf;
    IndexSurvives(x);
    PathOfRest(x, depth);
    ModBelow(x, Pow2(depth));
    DpfRoundTrip(key.dpf.key0, depth, if key.malicious then DpfBytes(key.dpfMac.key0) else []);
    DpfRoundTrip(key.dpf.key1, depth, if key.malicious then DpfBytes(key.dpfMac.key1) else []);
    forall y | 0 <= y < Pow2(depth)
      ensures Cong(PointVec(c, k.key0, depth, false)[y] as int + PointVec(c, k.key1, depth, true)[y], Hot(x, depth)[y])
    {
      DPF.Correct(c, seeds, depth, x % Pow2(depth), 1, y);
      CongMod(PointVec(c, k.key0, depth, false)[y] as int + PointVec(c, k.key1, depth, true)[y], Hot(x, depth)[y]);
    }
  }

  /** The servers answer a filter with one pair three times on every sharing of every row, with the mask the
      pair opens to. */
  lemma SameAnswers(a: Vec, b: Vec, n: nat, mask: seq<int>)
    requires |a| == |b| == |mask| == n && forall y :: 0 <= y < n ==> Cong(a[y] as int + b[y], mask[y])
    ensures AnswersRight(Trio(a, a, a), Mixed(Trio(b, b, b)), n, mask)
  {
    hide Cong, SixDots;
    AnswersRightIff(Trio(a, a, a), Mixed(Trio(b, b, b)), n, mask);
  }

  // Every server has both keys; it evaluates the first for its first table and the second for its second.
  ghost predicate PairAnswers(c: Cipher, k: KeyPair, depth: nat, mask: seq<int>)
    requires |mask| == Pow2(depth)
  {
    && |k.key0| >= 16 * (depth + 1) + 16 && |k.key1| >= 16 * (depth + 1) + 16
    && var a, b := PointVec(c, k.key0, depth, false), PointVec(c, k.key1, depth, true);
       AnswersRight(Trio(a, a, a), Trio(b, b, b), Pow2(depth), mask)
  }

  lemma PairAnswersHot(c: Cipher, k: KeyPair, depth: nat, x: nat)
    requires PointPair(c, k, depth, x)
    ensures PairAnswers(c, k, depth, Hot(x, depth))
  {
    hide AnswersRight, Hot, Cong, PointVec, Pow2;
    SameAnswers(PointVec(c, k.key0, depth, false), PointVec(c, k.key1, depth, true), Pow2(depth), Hot(x, depth));
  }

  // Masks as queries ask for them or first pairs open to them.
  ghost predicate Slight(mask: seq<int>) { forall y :: 0 <= y < |mask| ==> -1 <= mask[y] <= 1 }

  // Query vectors answer right with one mask at most.
  lemma OneMask(q0: Trio<Vec>, q1: Trio<Vec>, n: nat, given: seq<int>, asked: seq<int>)
    requires Rows(q0, n) && Rows(q1, n) && |given| == |asked| == n && Slight(given) && Slight(asked)
    requires AnswersRight(q0, q1, n, given)
    ensures AnswersRight(q0, q1, n, asked) <==> given == asked
  {
    hide AnswersRight, Cong;
    AnswersRightIff(q0, q1, n, given);
    AnswersRightIff(q0, q1, n, asked);
    if Material(q0, q1, n, asked) {
      forall y | 0 <= y < n ensures given[y] == asked[y] {
        SlightlyApart(q0.s0[y] as int + q1.s2[y], given[y], asked[y]);
      }
    }
  }

  lemma SlightlyApart(x: int, a: int, b: int)
    requires Cong(x, a) && Cong(x, b) && -1 <= a <= 1 && -1 <= b <= 1
    ensures a == b
  {
    hide Cong;
    CongSym(x, a);
    CongTrans(a, x, b);
    var k := CongQuotient(a, b);
  }

  // The indicator a point query asks for.
  function Asked(x: nat, depth: nat): (m: seq<int>)
    ensures |m| == Pow2(depth)
  {
    seq<int>(Pow2(depth), y requires 0 <= y < Pow2(depth) => if y == x then 1 else 0)
  }

  // The current point is the bucket the first one named -- and on a tree of one leaf, which never answers,
  // nothing is asked for.
  predicate SamePoint(first: nat, x: nat, depth: nat) { if depth > 0 then x == first % Pow2(depth) else x != 0 }

  /** The mask of the first query is the one the current query asks for exactly for the same bucket. */
  lemma StalePointIff(first: nat, x: nat, depth: nat)
    ensures Hot(first, depth) == Asked(x, depth) <==> SamePoint(first, x, depth)
  {
    var h, a := Hot(first, depth), Asked(x, depth);
    ModBelow(first, Pow2(depth));
    if h == a {
      var f := first % Pow2(depth);
      assert h[f] == a[f];
      assert depth == 0 ==> h[0] == a[0];
    }
  }

  lemma SlightPoints(x: nat, depth: nat)
    ensures Slight(Hot(x, depth)) && Slight(Asked(x, depth))
  {
  }

  // A pair for the first point answers the current query exactly for the same bucket.
  lemma PointRightIff(c: Cipher, k: KeyPair, depth: nat, first: nat, x: nat)
    requires PointPair(c, k, depth, first)
    ensures PairAnswers(c, k, depth, Hot(first, depth))
    ensures PairAnswers(c, k, depth, Asked(x, depth)) <==> SamePoint(first, x, depth)
  {
    hide AnswersRight, Hot, Asked, Cong, PointVec, Pow2, SamePoint;
    PairAnswersHot(c, k, depth, first);
    StalePointIff(first, x, depth);
    SlightPoints(first, depth);
    SlightPoints(x, depth);
    var a, b := PointVec(c, k.key0, depth, false), PointVec(c, k.key1, depth, true);
    OneMask(Trio(a, a, a), Trio(b, b, b), Pow2(depth), Hot(first, depth), Asked(x, depth));
  }

  /** Any number of point queries at one client, each sent as a filter: every one is answered, on every
      sharing of every row, with the indicator of the first point's bucket -- which is the answer asked for
      exactly for the same bucket. */
  method PointQueries(c: Cipher, depth: nat, seeds: seq<Trio<Seeds>>, xs: seq<uint32>)
    returns (filters: seq<Trio<KeyPair>>)
    requires |seeds| == |xs|
    ensures |filters| == |xs|
    ensures forall i :: 0 <= i < |xs| ==>
              && filters[i] == Same(filters[i].s0) && PairAnswers(c, filters[i].s0, depth, Hot(xs[0], depth))
              && (PairAnswers(c, filters[i].s0, depth, Asked(xs[i], depth)) <==> SamePoint(xs[0], xs[i], depth))
  {
    hide PointPair, PairAnswers, Hot, Asked, SamePoint, DPFTableClient.Valid;
    var client := new DPFTableClient(depth, false, 0, c);
    filters := [];
    var i := 0;
    while i < |xs|
      invariant 0 <= i <= |xs| && |filters| == i && client.Valid(c) && client.depth == depth && fresh(client)
      invariant (i == 0 <==> client.key == []) && client.first == (if i == 0 then 0 else xs[0])
      invariant forall k :: 0 <= k < i ==>
                  && filters[k] == Same(filters[k].s0) && PairAnswers(c, filters[k].s0, depth, Hot(xs[0], depth))
                  && (PairAnswers(c, filters[k].s0, depth, Asked(xs[k], depth)) <==> SamePoint(xs[0], xs[k], depth))
    {
      var f := client.GenerateDPFFilter(c, seeds[i], xs[i]);
      PointRightIff(c, f.s0, depth, xs[0], xs[i]);
      filters := filters + [f];
      i := i + 1;
    }
  }

  // ----- comparison filters -----

  class DCFTableClient {
    const depth: nat
    const malicious: bool
    const alpha: uint128
    var key: seq<ClKey>
    // The first interval asked for and the seeds drawn for its two keys.
    ghost var first: Boundaries
    ghost var drawn: (Pair, Pair)

    ghost predicate Valid(c: Cipher)
      reads this, key
    {
      && (malicious ==> alpha != 0)
      && (key != [] ==>
            && |key| >= 2 && key[0].malicious == key[1].malicious == malicious
            && key[0].DcfFilled(depth) && key[0].dcf == DcfPair(c, drawn.0, first.left, depth, 1, false)
            && key[1].DcfFilled(depth)
            && key[1].dcf == DcfPair(c, drawn.1, Add(first.right, 1), depth, Mul(MINUS_ONE, 1), false))
    }

    constructor (d: nat, mal: bool, a: uint128, ghost c: Cipher)
      requires mal ==> a != 0
      ensures Valid(c) && depth == d && malicious == mal && key == [] && first == Boundaries(0, 0)
    {
      depth, malicious, alpha := d, mal, a;
      key, first := [], Boundaries(0, 0);
    }

    // Adds the two key pairs of an interval to the list.
    method GenDcfTableKeys(c: Cipher, seeds: (Seeds, Seeds), left: uint32, right: uint32)
      requires Valid(c)
      modifies this`key, this`first, this`drawn
      ensures Valid(c) && |key| == |old(key)| + 2 && key[..|old(key)|] == old(key)
      ensures first == if old(key) == [] then Boundaries(left, right) else old(first)
      ensures
        var l, r := key[|old(key)|], key[|old(key)| + 1];
        && fresh(l) && l.dcf == DcfPair(c, seeds.0.plain, left, depth, 1, false)
        && fresh(r) && r.dcf == DcfPair(c, seeds.1.plain, right + 1, depth, MINUS_ONE, false)
        && (malicious ==>
              && l.dcfMac == DcfPair(c, seeds.0.mac, left, depth, alpha, false)
              && r.dcfMac == DcfPair(c, seeds.1.mac, right + 1, depth, Mul(MINUS_ONE, alpha), false))
    {
      TimesOne(alpha);
      TimesOne(MINUS_ONE);
      TimesOne(Mul(MINUS_ONE, alpha));
      hide DcfPair, DcfBytes;
      DcfPairFilled(c, seeds.0.plain, left, depth, 1);
      DcfPairFilled(c, seeds.0.mac, left, depth, Mul(alpha, 1));
      DcfPairFilled(c, seeds.1.plain, Add(right, 1), depth, Mul(MINUS_ONE, 1));
      DcfPairFilled(c, seeds.1.mac, Add(right, 1), depth, Mul(Mul(MINUS_ONE, alpha), 1));
      var leftK := new ClKey();
      leftK.DcfGenerate(c, seeds.0, left, 1, depth, false, false, malicious, alpha);
      var rightK := new ClKey();
      rightK.DcfGenerate(c, seeds.1, right, 1, depth, true, false, malicious, alpha);
      if key == [] { first, drawn := Boundaries(left, right), (seeds.0.plain, seeds.1.plain); }
      key := key + [leftK, rightK];
    }

    // Serializes the first two key pairs of the list, one behind the other.
    method SerializeKeys(ghost c: Cipher) returns (k: KeyPair)
      requires Valid(c) && key != []
      ensures k == KeyPair(key[0].DcfParty(false, depth) + key[1].DcfParty(false, depth),
                           key[0].DcfParty(true, depth) + key[1].DcfParty(true, depth))
    {
      hide ClKey.DcfParty;
      var l0, l1 := key[0].DcfSerialize(depth);
      var r0, r1 := key[1].DcfSerialize(depth);
      k := KeyPair(l0 + r0, l1 + r1);
    }

    /** A filter: as for points, all servers end up with the same bytes, those of the first interval. */
    method GenerateDCFFilter(c: Cipher, seeds: Trio<(Seeds, Seeds)>, left: uint32, right: uint32)
      returns (f: Trio<KeyPair>)
      requires Valid(c)
      modifies this`key, this`first, this`drawn
      ensures Valid(c) && |key| == |old(key)| + 6 && first == if old(key) == [] then Boundaries(left, right)
              else old(first)
      ensures f == Same(f.s0) && IntervalPair(c, f.s0, depth, malicious, first)
    {
      hide DcfPair, DcfBytes, IntervalPair, ClKey.DcfParty, ClKey.DcfFilled;
      GenDcfTableKeys(c, seeds.s0, left, right);
      var a := SerializeKeys(c);
      GenDcfTableKeys(c, seeds.s1, left, right);
      var b := SerializeKeys(c);
      GenDcfTableKeys(c, seeds.s2, left, right);
      var d := SerializeKeys(c);
      f := Trio(KeyPair(a.key0, d.key1), KeyPair(b.key0, a.key1), KeyPair(d.key0, b.key1));
      FirstIntervalOpens(c, key[0], key[1], drawn.0, drawn.1, first, depth, malicious, a);
    }
  }

  // What a comparison query asks with: the buckets x with right < x < left.
  datatype Boundaries = Boundaries(left: uint32, right: uint32)

  lemma DcfPairFilled(c: Cipher, seeds: Pair, x: uint128, depth: nat, payload: uint128)
    ensures
      var p := DcfPair(c, seeds, x, depth, payload, false);
      |p.key0.k| == |p.key0.v| == |p.key1.k| == |p.key1.v| == depth + 1
  {
  }

  // Where the second key of a party starts.
  function KeySize(depth: nat, malicious: bool): nat { (if malicious then 2 else 1) * (32 * (depth + 1)) }

  // The words a server multiplies into its table for the bytes of an interval.
  function RangeVec(c: Cipher, key: seq<byte>, depth: nat, malicious: bool, party: bool): (v: Vec)
    requires |key| >= KeySize(depth, malicious) + 32 * (depth + 1)
    ensures |v| == Pow2(depth)
  {
    IntervalVec(c, ReadDcf(key, depth), ReadDcf(key[KeySize(depth, malicious)..], depth), depth, party)
  }

  // What an interval opens to: boundaries count by their low-order bits.
  function Between(b: Boundaries, depth: nat): (m: seq<int>)
    ensures |m| == Pow2(depth)
  {
    seq<int>(Pow2(depth), y requires 0 <= y < Pow2(depth) =>
      ModBelow(b.left, Pow2(depth));
      ModBelow(b.right, Pow2(depth));
      IntervalValue(b.left % Pow2(depth), b.right % Pow2(depth), depth, y))
  }

  ghost predicate IntervalPair(c: Cipher, k: KeyPair, depth: nat, malicious: bool, b: Boundaries)
  {
    && |k.key0| >= KeySize(depth, malicious) + 32 * (depth + 1)
       && |k.key1| >= KeySize(depth, malicious) + 32 * (depth + 1)
    && forall y :: 0 <= y < Pow2(depth) ==>
         Cong(RangeVec(c, k.key0, depth, malicious, false)[y] as int + RangeVec(c, k.key1, depth, malicious, true)[y],
              Between(b, depth)[y])
  }

  // The keys of an interval are those of its boundaries' low-order bits.
  lemma KeysOfRest(c: Cipher, sl: Pair, sr: Pair, b: Boundaries, depth: nat, party: bool)
    ensures 0 <= b.left % Pow2(depth) < Pow2(depth) && 0 <= b.right % Pow2(depth) < Pow2(depth)
    ensures LeftKey(c, sl, b.left, 1, depth, party) == LeftKey(c, sl, b.left % Pow2(depth), 1, depth, party)
    ensures RightKey(c, sr, b.right, 1, depth, party) == RightKey(c, sr, b.right % Pow2(depth), 1, depth, party)
  {
    hide DCF.Gen, PathOf, Pow2;
    var n := Pow2(depth);
    ModBelow(b.left, n);
    ModBelow(b.right, n);
    PathOfRest(b.left, depth);
    PathOfRest(b.right + 1, depth);
    PathOfRest(b.right % n + 1, depth);
    RestOfNext(b.right, n);
  }

  lemma RestOfNext(x: nat, n: nat)
    requires n > 0
    ensures 0 <= x % n && (x + 1) % n == (x % n + 1) % n
  {
    ModBelow(x, n);
    var q, r := x / n, x % n;
    if r + 1 < n {
      DivUnique(x + 1, n, q, r + 1);
      DivUnique(r + 1, n, 0, r + 1);
    } else {
      AddMultiple(n, q, 1);
      DivUnique(x + 1, n, q + 1, 0);
      DivUnique(n, n, 1, 0);
    }
  }

  lemma FirstIntervalOpens(c: Cipher, l: ClKey, r: ClKey, sl: Pair, sr: Pair, b: Boundaries, depth: nat,
                           malicious: bool, k: KeyPair)
    requires l.DcfFilled(depth) && r.DcfFilled(depth) && l.malicious == r.malicious == malicious
    requires l.dcf == DcfPair(c, sl, b.left, depth, 1, false)
    requires r.dcf == DcfPair(c, sr, Add(b.right, 1), depth, Mul(MINUS_ONE, 1), false)
    requires k == KeyPair(l.DcfParty(false, depth) + r.DcfParty(false, depth),
                          l.DcfParty(true, depth) + r.DcfParty(true, depth))
    ensures IntervalPair(c, k, depth, malicious, b)
  {
    hide DCF.Gen, PathOf, DcfBytes, ReadDcf, DcfPair, IntervalWord, Cong, LeftKey, RightKey, IntervalValue;
    GeneratedKeys(c, sl, sr, b.left, b.right, 1, depth);
    ReadBothBack(l, r, depth, malicious, false);
    ReadBothBack(l, r, depth, malicious, true);
    KeysOfRest(c, sl, sr, b, depth, false);
    KeysOfRest(c, sl, sr, b, depth, true);
    forall y | 0 <= y < Pow2(depth)
      ensures Cong(RangeVec(c, k.key0, depth, malicious, false)[y] as int
                   + RangeVec(c, k.key1, depth, malicious, true)[y],
                   Between(b, depth)[y])
    {
      IntervalOpens(c, sl, sr, b.left % Pow2(depth), b.right % Pow2(depth), 1, depth, y);
    }
  }

  // A server reads both of a party's keys back.
  lemma ReadBothBack(l: ClKey, r: ClKey, depth: nat, malicious: bool, party: bool)
    requires l.DcfFilled(depth) && r.DcfFilled(depth) && l.malicious == r.malicious == malicious
    ensures
      var s := l.DcfParty(party, depth) + r.DcfParty(party, depth);
      && |s| >= KeySize(depth, malicious) + 32 * (depth + 1)
      && ReadDcf(s, depth) == (if party then l.dcf.key1 else l.dcf.key0)
      && ReadDcf(s[KeySize(depth, malicious)..], depth) == (if party then r.dcf.key1 else r.dcf.key0)
  {
    hide DcfBytes, ReadDcf;
    var lp, rp := if party then l.dcf.key1 else l.dcf.key0, if party then r.dcf.key1 else r.dcf.key0;
    var lm, rm := if party then l.dcfMac.key1 else l.dcfMac.key0, if party then r.dcfMac.key1 else r.dcfMac.key0;
    if malicious {
      TwoKeysReadBack(lp, lm, rp, rm, true, depth);
    } else {
      TwoKeysReadBack(lp, lp, rp, rp, false, depth);
    }
  }

  ghost predicate IntervalAnswers(c: Cipher, k: KeyPair, depth: nat, malicious: bool, mask: seq<int>)
    requires |mask| == Pow2(depth)
  {
    && |k.key0| >= KeySize(depth, malicious) + 32 * (depth + 1)
       && |k.key1| >= KeySize(depth, malicious) + 32 * (depth + 1)
    && var a, b := RangeVec(c, k.key0, depth, malicious, false), RangeVec(c, k.key1, depth, malicious, true);
       AnswersRight(Trio(a, a, a), Trio(b, b, b), Pow2(depth), mask)
  }

  lemma IntervalAnswersBetween(c: Cipher, k: KeyPair, depth: nat, malicious: bool, b: Boundaries)
    requires IntervalPair(c, k, depth, malicious, b)
    ensures IntervalAnswers(c, k, depth, malicious, Between(b, depth))
  {
    hide AnswersRight, Between, Cong, RangeVec, Pow2;
    SameAnswers(RangeVec(c, k.key0, depth, malicious, false), RangeVec(c, k.key1, depth, malicious, true), Pow2(depth),
                Between(b, depth));
  }

  // An interval's value spelled on where it starts and ends.
  function Level(left: nat, from: nat, y: nat): int { (if y < left then 1 else 0) - (if y < from then 1 else 0) }

  lemma BetweenIs(b: Boundaries, depth: nat, y: nat)
    requires y < Pow2(depth)
    ensures 0 <= b.left % Pow2(depth) && 0 <= (b.right % Pow2(depth) + 1) % Pow2(depth)
    ensures Between(b, depth)[y] == Level(b.left % Pow2(depth), (b.right % Pow2(depth) + 1) % Pow2(depth), y)
  {
    hide Pow2;
    ModBelow(b.left, Pow2(depth));
    ModBelow(b.right, Pow2(depth));
    WrapsAtEnd(b.right % Pow2(depth), Pow2(depth));
  }

  // What an interval query asks of bucket y.
  function AskedAt(b: Boundaries, y: nat): int { if b.right < y < b.left then 1 else 0 }

  // The indicator an interval query asks for.
  function AskedBetween(b: Boundaries, depth: nat): (m: seq<int>)
    ensures |m| == Pow2(depth)
  {
    seq<int>(Pow2(depth), y requires 0 <= y < Pow2(depth) => AskedAt(b, y))
  }

  // The boundaries name the same buckets as the first ones -- and where no bucket is asked for, the first
  // ones name none either. A nonempty query reaching beyond the domain has no equal.
  predicate SameInterval(first: Boundaries, b: Boundaries, depth: nat)
  {
    var n := Pow2(depth);
    ModBelow(first.left, n);
    ModBelow(first.right, n);
    var l, r := first.left % n, first.right % n;
    if b.right + 1 < b.left && b.right + 1 < n then b.left == l && b.right == r else l == (r + 1) % n
  }

  lemma LevelMatches(left: nat, from: nat, b: Boundaries, n: nat)
    requires left < n && from < n
    ensures (forall y: nat :: y < n ==> Level(left, from, y) == AskedAt(b, y))
            <==> if b.right + 1 < b.left && b.right + 1 < n then b.left == left && b.right + 1 == from
                 else left == from
  {
    if forall y: nat :: y < n ==> Level(left, from, y) == AskedAt(b, y) {
      assert Level(left, from, left) == AskedAt(b, left) && Level(left, from, from) == AskedAt(b, from);
      if left > 0 { assert Level(left, from, left - 1) == AskedAt(b, left - 1); }
      if from > 0 { assert Level(left, from, from - 1) == AskedAt(b, from - 1); }
      if b.right + 1 < n { assert Level(left, from, b.right + 1) == AskedAt(b, b.right + 1); }
    }
  }

  /** The first interval's mask is the one the current query asks for exactly for the same interval. */
  lemma StaleIntervalIff(first: Boundaries, b: Boundaries, depth: nat)
    ensures Between(first, depth) == AskedBetween(b, depth) <==> SameInterval(first, b, depth)
  {
    hide Pow2, Between, Level, AskedAt;
    var n := Pow2(depth);
    ModBelow(first.left, n);
    ModBelow(first.right, n);
    var left, from := first.left % n, (first.right % n + 1) % n;
    WrapsAtEnd(first.right % n, n);
    forall y: nat | y < n ensures Between(first, depth)[y] == Level(left, from, y) {
      BetweenIs(first, depth, y);
    }
    LevelMatches(left, from, b, n);
    if Between(first, depth) == AskedBetween(b, depth) {
      forall y: nat | y < n ensures Level(left, from, y) == AskedAt(b, y) {
        assert Between(first, depth)[y] == AskedBetween(b, depth)[y];
      }
    }
  }

  // A pair for the first interval answers the current query exactly for the same interval.
  lemma IntervalRightIff(c: Cipher, k: KeyPair, depth: nat, first: Boundaries, b: Boundaries)
    requires IntervalPair(c, k, depth, false, first)
    ensures IntervalAnswers(c, k, depth, false, Between(first, depth))
    ensures IntervalAnswers(c, k, depth, false, AskedBetween(b, depth)) <==> SameInterval(first, b, depth)
  {
    hide AnswersRight, Between, AskedBetween, Cong, RangeVec, Pow2, SameInterval;
    IntervalAnswersBetween(c, k, depth, false, first);
    StaleIntervalIff(first, b, depth);
    SlightIntervals(first, depth);
    SlightIntervals(b, depth);
    var x, y := RangeVec(c, k.key0, depth, false, false), RangeVec(c, k.key1, depth, false, true);
    OneMask(Trio(x, x, x), Trio(y, y, y), Pow2(depth), Between(first, depth), AskedBetween(b, depth));
  }

  lemma SlightIntervals(b: Boundaries, depth: nat)
    ensures Slight(Between(b, depth)) && Slight(AskedBetween(b, depth))
  {
  }

  lemma WrapsAtEnd(r: nat, n: nat)
    requires r < n
    ensures (r + 1) % n == if r + 1 < n then r + 1 else 0
  {
    if r + 1 < n { DivUnique(r + 1, n, 0, r + 1); } else { DivUnique(n, n, 1, 0); }
  }

  /** Any number of interval queries at one client: every filter is answered with the first interval, which is
      the answer asked for exactly for the same interval. */
  method IntervalQueries(c: Cipher, depth: nat, seeds: seq<Trio<(Seeds, Seeds)>>, bs: seq<Boundaries>)
    returns (filters: seq<Trio<KeyPair>>)
    requires |seeds| == |bs|
    ensures |filters| == |bs|
    ensures forall i :: 0 <= i < |bs| ==>
              && filters[i] == Same(filters[i].s0)
              && IntervalAnswers(c, filters[i].s0, depth, false, Between(bs[0], depth))
              && (IntervalAnswers(c, filters[i].s0, depth, false, AskedBetween(bs[i], depth))
                  <==> SameInterval(bs[0], bs[i], depth))
  {
    hide IntervalPair, IntervalAnswers, Between, AskedBetween, SameInterval, DCFTableClient.Valid;
    var client := new DCFTableClient(depth, false, 0, c);
    filters := [];
    var i := 0;
    while i < |bs|
      invariant 0 <= i <= |bs| && |filters| == i && client.Valid(c) && client.depth == depth && fresh(client)
      invariant !client.malicious && (i == 0 <==> client.key == [])
      invariant i > 0 ==> client.first == bs[0]
      invariant forall k :: 0 <= k < i ==>
                  && filters[k] == Same(filters[k].s0)
                  && IntervalAnswers(c, filters[k].s0, depth, false, Between(bs[0], depth))
                  && (IntervalAnswers(c, filters[k].s0, depth, false, AskedBetween(bs[k], depth))
                      <==> SameInterval(bs[0], bs[k], depth))
    {
      var f := client.GenerateDCFFilter(c, seeds[i], bs[i].left, bs[i].right);
      IntervalRightIff(c, f.s0, depth, bs[0], bs[i]);
      filters := filters + [f];
      i := i + 1;
    }
  }
}
