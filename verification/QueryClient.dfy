/** The query client (client.cpp): sharing of tables and values, generation of block x offset filters,
    and recombination of the three servers' answers. */
module QueryClient {
  import opened Arith
  import opened Bits
  import opened Rss
  import opened Results
  import opened Compile
  import opened Filters
  import opened QS = QueryServer
  import opened TableShares
  import opened Emission
  import opened C = Cluster
  import opened Blocks
  import opened SeedTree
  import opened VectorFss
  import opened VectorFssOps
  import opened Regroup
  import opened BofssLeaves
  import opened BofssMeaning
  import opened Answers
  import Bytes
  import KP = KeyPacks

  datatype ClientError =
    | UnknownTable | LogTooLarge | BadParameters | EmptyQuery | OutOfRange | OddBoundaries | LeftAboveRight
    | NotSingleSided | NotKeyable

  // ----- queries -----

  // A result is what the client makes of the answers the three servers give from their value lists and the
  // filter they hold.
  ghost predicate FromAnswers(c: Cluster, ret: uint128, aggId: string, f: Trio<Held>)
    reads c.s0`valLists, c.s1`valLists, c.s2`valLists
  {
    && c.CanAnswer(aggId, f)
    && var res := c.Answers(aggId, f);
       ret == Sum3(res.s0, res.s1, res.s2) % M
  }

  // And the filter is a result of the servers' operations.
  ghost predicate Recombined(c: Cluster, ret: uint128, aggId: string, f: Trio<Held>, at: nat)
    reads c`ops, c.s0`prfKey0, c.s1`prfKey0, c.s2`prfKey0, c.s0`valLists, c.s1`valLists, c.s2`valLists
  {
    c.Result(at, f) && FromAnswers(c, ret, aggId, f)
  }

  // Sizes that fit 32 bits.
  predicate SmallLayout(l: Layout) { l.blockNum < 0x1_0000_0000 && l.blockSize < 0x1_0000_0000 }

  // Layouts whose two domains a key can be generated for: powers of two.
  predicate KeyableLayout(l: Layout) { DomainDepth(l.blockNum).Ok? && DomainDepth(l.blockSize).Ok? }

  // A message asks a query: its leaves open to masks that, grouped and folded as the servers do, count every
  // row in every bucket as the numbers of the query do.
  ghost predicate Asks(f: Trio<BoFilter>, l: Layout, query: seq<nat>, isPoint: bool, isAnd: bool)
  {
    ValidLayout(l) && f.s0.isAnd == isAnd
    && exists masks :: FilterMaterial(f, l, masks) && CountsRows(masks, Tags(f.s0.leaves), l, query, isPoint, isAnd)
  }

  ghost predicate CountsRows(masks: seq<LeafMask>, tags: seq<nat>, l: Layout, query: seq<nat>, isPoint: bool,
                             isAnd: bool)
  {
    && ValidLayout(l) && |masks| == |tags| && GroupsFit(MasksByPred(masks, tags), l)
    && forall buckets :: InDomain(buckets, l) ==>
         FilterPlain(isAnd, l, MasksByPred(masks, tags), buckets) == RowCounts(isAnd, query, isPoint, buckets)
  }

  // The same over keys.
  ghost predicate AsksByKeys(c: Cipher, items: Trio<seq<Primitive>>, l: Layout, query: seq<nat>, isPoint: bool)
  {
    ValidLayout(l) && exists groups :: AllKeyed(c, items, l, groups) && KeysCountRows(groups, l, query, isPoint)
  }

  ghost predicate KeysCountRows(groups: seq<seq<LeafMask>>, l: Layout, query: seq<nat>, isPoint: bool)
  {
    && ValidLayout(l) && GroupsFit(groups, l)
    && forall isAnd, buckets :: InDomain(buckets, l) ==>
         FilterPlain(isAnd, l, groups, buckets) == KeyedCounts(l, isAnd, query, isPoint, buckets)
  }

  lemma MessageAsks(isAnd: bool, ls: Trio<seq<BoLeaf>>, id: string, l: Layout, query: seq<nat>, isPoint: bool)
    requires ValidLayout(l) && Askable(query, isPoint, l.blockNum * l.blockSize)
             && AllInside(Intervals(query, isPoint), l)
    requires Built(ls, id, l, Emitted(BoxLists(l, Intervals(query, isPoint), isPoint)))
    ensures Asks(Message(isAnd, ls), l, query, isPoint, isAnd)
  {
    hide Built, FilterMaterial, FilterPlain, Emitted, BoxLists, Intervals, AllInside, RowCounts, Askable, MasksOf,
      PredsOf, MasksByPred, GroupsFit, InDomain;
    var es := Emitted(BoxLists(l, Intervals(query, isPoint), isPoint));
    BuiltMaterial(isAnd, ls, id, l, es);
    NoBuckets(l);
    forall buckets | InDomain(buckets, l)
      ensures GroupsFit(MasksByPred(MasksOf(l, es), PredsOf(es)), l)
      ensures FilterPlain(isAnd, l, MasksByPred(MasksOf(l, es), PredsOf(es)), buckets)
           == RowCounts(isAnd, query, isPoint, buckets)
    {
      EmittedCounts(l, query, isPoint, isAnd, buckets);
    }
    assert CountsRows(MasksOf(l, es), PredsOf(es), l, query, isPoint, isAnd);
  }

  lemma NoBuckets(l: Layout)
    ensures InDomain([], l)
  {
  }

  lemma SizesBelow(a: nat, b: nat)
    requires a > 0 && b > 0
    ensures a <= a * b && b <= a * b
  {
  }

  lemma PlacedNonempty(c: Cipher, useVdcf: bool, keys: Trio<TwoKeys>, n: nat, mask: seq<int>)
    requires Placed(c, useVdcf, keys, n, mask)
    ensures keys.s0.key0 != [] && keys.s0.key1 != [] && keys.s1.key0 != [] && keys.s1.key1 != [] && keys.s2.key0 != []
            && keys.s2.key1 != []
  {
    hide KeyVector, Readable, Cong;
  }

  // ----- messages -----

  ghost predicate LeafBuilt(t: Trio<BoLeaf>, id: string, l: Layout, e: Emit<Box>)
  {
    && t.s0.id == t.s1.id == t.s2.id == id && t.s0.pred == t.s1.pred == t.s2.pred == e.pred
    && LeafMaterial(Trio(t.s0.q, t.s1.q, t.s2.q), l, BoxMask(l, e.item))
  }

  // The leaves under construction carry the emission so far.
  ghost predicate Built(ls: Trio<seq<BoLeaf>>, id: string, l: Layout, es: seq<Emit<Box>>)
  {
    && |ls.s0| == |ls.s1| == |ls.s2| == |es|
    && forall i :: 0 <= i < |es| ==> LeafBuilt(Trio(ls.s0[i], ls.s1[i], ls.s2[i]), id, l, es[i])
  }

  function Message(isAnd: bool, ls: Trio<seq<BoLeaf>>): Trio<BoFilter>
  {
    Trio(BoFilter(isAnd, ls.s0), BoFilter(isAnd, ls.s1), BoFilter(isAnd, ls.s2))
  }

  lemma BuiltMaterial(isAnd: bool, ls: Trio<seq<BoLeaf>>, id: string, l: Layout, es: seq<Emit<Box>>)
    requires Built(ls, id, l, es)
    ensures FilterMaterial(Message(isAnd, ls), l, MasksOf(l, es)) && SameShape(Message(isAnd, ls))
    ensures Tags(ls.s0) == Tags(ls.s1) == Tags(ls.s2) == PredsOf(es)
    ensures forall i :: 0 <= i < |es| ==> ls.s0[i].id == ls.s1[i].id == ls.s2[i].id == id
    ensures forall i :: 0 <= i < |es| ==> Shaped(ls.s0[i].q, l) && Shaped(ls.s1[i].q, l) && Shaped(ls.s2[i].q, l)
  {
    hide IntervalMask, Cong;
    forall i | 0 <= i < |es|
      ensures Shaped(ls.s0[i].q, l) && Shaped(ls.s1[i].q, l) && Shaped(ls.s2[i].q, l)
      ensures LeafBuilt(Trio(ls.s0[i], ls.s1[i], ls.s2[i]), id, l, es[i])
    {
      assert LeafBuilt(Trio(ls.s0[i], ls.s1[i], ls.s2[i]), id, l, es[i]);
    }
  }

  // A secret of length n split into shares that sum to it.
  ghost predicate SharesOf(s: Trio<Vec>, vals: Vec)
  {
    && Rows(s, |vals|)
    && forall i :: 0 <= i < |vals| ==> CongR(Sum3(s.s0[i], s.s1[i], s.s2[i]), vals[i])
  }

  lemma ThirdShare(v: uint128, a: uint128, b: uint128)
    ensures CongR(Sum3(a, b, Sub(v, Add(a, b))), v)
  {
    var x: int, y: int, z: int := a, b, v;
    var s := (x + y) % R;
    CongRFrom(x + y, s, (x + y) / R);
    CongRRefl(z - s);
    CongRAdd(x + y, s, (z - s) % R, z - s);
  }

  lemma Complement(v: uint128, r: uint128)
    ensures Cong(r as int + Sub(v, r), v)
  {
    CongRefl(v);
    CongRefl(r);
    SubCong(v, v, r, r);
    var d := (v as int) - r;
    CongAdd(r, r, Sub(v, r), d);
  }

  // The first n entries of the three lists carry the first n values.
  ghost predicate PartialValues(v: Trio<Held>, w: nat, data: seq<uint128>, n: nat)
  {
    && n <= w <= |data| && Sized(v, w)
    && v.s0.second == v.s1.first && v.s1.second == v.s2.first && v.s2.second == v.s0.first
    && forall r :: 0 <= r < n ==> CongR(Sum3(v.s0.first[r], v.s1.first[r], v.s2.first[r]), data[r])
  }

  lemma NoValues(w: nat, data: seq<uint128>)
    requires w <= |data|
    ensures
      var zeros := Held(seq<uint128>(w, _ => 0), seq<uint128>(w, _ => 0));
      PartialValues(Trio(zeros, zeros, zeros), w, data, 0)
  {
  }

  lemma NextValue(v: Trio<Held>, w: nat, data: seq<uint128>, i: nat, s: Trio<uint128>)
    requires PartialValues(v, w, data, i) && i < w && CongR(Sum3(s.s0, s.s1, s.s2), data[i])
    ensures Sized(v, w)
    ensures PartialValues(Trio(Held(v.s0.first[i := s.s0], v.s0.second[i := s.s1]),
                               Held(v.s1.first[i := s.s1], v.s1.second[i := s.s2]),
                               Held(v.s2.first[i := s.s2], v.s2.second[i := s.s0])), w, data, i + 1)
  {
    hide CongR;
  }

  lemma AllValues(v: Trio<Held>, w: nat, data: seq<uint128>)
    requires PartialValues(v, w, data, w)
    ensures Values(v, data[..w])
  {
    hide CongR;
  }

  lemma AddThree(a: uint128, b: uint128, c: uint128)
    ensures Cong(Add(Add(Add(0, a), b), c), Sum3(a, b, c))
  {
    var x: int, y: int, z: int := a, b, c;
    CongRefl(0); CongRefl(x); CongRefl(y); CongRefl(z);
    AddCong(0, 0, a, x);
    AddCong(Add(0, a), x, b, y);
    AddCong(Add(Add(0, a), b), x + y, c, z);
  }

  lemma NothingBuilt(id: string, l: Layout)
    ensures Built(Trio([], [], []), id, l, Emitted<Box>([]))
  {
  }

  // The lists collected for the first i predicates.
  ghost predicate Collected(bss: seq<seq<Box>>, l: Layout, vs: seq<Interval>, isPoint: bool, i: nat)
  {
    && ValidLayout(l) && |bss| == i <= |vs|
    && forall k :: 0 <= k < i ==> Inside(vs[k], l) && bss[k] == BoxesOf(l, vs[k], isPoint)
  }

  lemma CollectedAll(bss: seq<seq<Box>>, l: Layout, vs: seq<Interval>, isPoint: bool)
    requires Collected(bss, l, vs, isPoint, |vs|)
    ensures AllInside(vs, l) && bss == BoxLists(l, vs, isPoint)
  {
    hide BoxesOf, Inside;
  }

  lemma CollectedNext(bss: seq<seq<Box>>, l: Layout, vs: seq<Interval>, isPoint: bool, i: nat)
    requires Collected(bss, l, vs, isPoint, i) && i < |vs| && Inside(vs[i], l)
    ensures Collected(bss + [BoxesOf(l, vs[i], isPoint)], l, vs, isPoint, i + 1)
  {
    hide BoxesOf, Inside;
  }

  ghost predicate FssCollected(fss: seq<seq<PrimLeaf>>, l: Layout, vs: seq<Interval>, isPoint: bool, i: nat)
  {
    && ValidLayout(l) && |fss| == i <= |vs|
    && forall k :: 0 <= k < i ==> Compilable(vs[k], l, isPoint) && fss[k] == FssLeavesOf(l, vs[k], isPoint)
  }

  lemma NothingCollected(l: Layout, vs: seq<Interval>, isPoint: bool)
    requires ValidLayout(l)
    ensures FssCollected([], l, vs, isPoint, 0)
  {
  }

  lemma FssCollectedNext(fss: seq<seq<PrimLeaf>>, l: Layout, vs: seq<Interval>, isPoint: bool, i: nat)
    requires FssCollected(fss, l, vs, isPoint, i) && i < |vs| && Compilable(vs[i], l, isPoint)
    ensures FssCollected(fss + [FssLeavesOf(l, vs[i], isPoint)], l, vs, isPoint, i + 1)
  {
    hide FssLeavesOf, Compilable;
  }

  lemma FssCollectedAll(fss: seq<seq<PrimLeaf>>, l: Layout, vs: seq<Interval>, isPoint: bool)
    requires FssCollected(fss, l, vs, isPoint, |vs|)
    ensures AllCompilable(vs, l, isPoint) && fss == FssLists(l, vs, isPoint)
  {
    hide FssLeavesOf, Compilable;
  }

  lemma PointBoxes(l: Layout, v: Interval)
    requires ValidLayout(l) && Inside(v, l)
    ensures BoxesOf(l, v, true) == [PointBox(l, v.left)]
    ensures Tagged(0, BoxesOf(l, v, true)) == [Emit(0, PointBox(l, v.left))]
  {
  }

  // What the client sends to a server that has the table is accepted there.
  lemma SentIsAccepted(isAnd: bool, leaves: seq<BoLeaf>, id: string, l: Layout, es: seq<Emit<Box>>,
                       tables: map<string, BoTable>)
    requires es != [] && Contiguous(PredsOf(es)) && |leaves| == |es| && Tags(leaves) == PredsOf(es)
    requires forall i :: 0 <= i < |leaves| ==> leaves[i].id == id && Shaped(leaves[i].q, l)
    requires id in tables && tables[id].layout == l
    ensures AcceptedBy(tables, BoFilter(isAnd, leaves))
  {
    hide Contiguous, Shaped;
  }

  lemma FilterValueStands(h: Trio<Held>, isAnd: bool, l: Layout, groups: seq<seq<LeafMask>>, buckets: seq<nat>)
    requires FilterValue(h, isAnd, l, groups, buckets)
    ensures ValidLayout(l) && GroupsFit(groups, l) && InDomain(buckets, l)
    ensures StandsFor(h, |buckets|, FilterPlain(isAnd, l, groups, buckets))
  {
  }

  class QueryClient {
    const servers: Cluster
    const cipher: Cipher
    // The client's generators, as arbitrary streams of words and of seeds, and how far they have been read.
    const prng: nat -> uint64
    var drawn: nat
    const seedStream: nat -> Pair
    var seedsDrawn: nat
    var boLayouts: map<string, Layout>

    // Every registered layout is made of 32-bit sizes.
    ghost predicate Valid()
      reads `boLayouts
    {
      forall id :: id in boLayouts ==> ValidLayout(boLayouts[id]) && SmallLayout(boLayouts[id])
    }

    constructor (cluster: Cluster, aes: Cipher, words: nat -> uint64, seeds: nat -> Pair)
      ensures Valid() && servers == cluster && cipher == aes && boLayouts == map[]
    {
      servers, cipher, prng, drawn, seedStream, seedsDrawn, boLayouts := cluster, aes, words, 0, seeds, 0, map[];
    }

    // A vector of words as they come from the generator.
    ghost predicate Drawn(v: Vec, from: nat) { forall i :: 0 <= i < |v| ==> v[i] == prng(from + i) }

    // A vector of every second word.
    ghost predicate EveryOtherDrawn(v: Vec, from: nat) { forall i :: 0 <= i < |v| ==> v[i] == prng(from + 2 * i) }

    method RandFieldElem() returns (r: uint64)
      modifies `drawn
      ensures r == prng(old(drawn)) && drawn == old(drawn) + 1
    {
      r := prng(drawn);
      drawn := drawn + 1;
    }

    method SplitIntoSingleArithmeticShares(val: uint128) returns (s: Trio<uint128>)
      modifies `drawn
      ensures CongR(Sum3(s.s0, s.s1, s.s2), val)
      ensures s.s0 == prng(old(drawn)) && s.s1 == prng(old(drawn) + 1) && drawn == old(drawn) + 2
    {
      var a := RandFieldElem();
      var b := RandFieldElem();
      ThirdShare(val, a, b);
      s := Trio(a, b, Sub(val, Add(a, b)));
    }

    /** Shares of a vector: the first two are fresh 64-bit words, the third completes them. */
    method SplitIntoArithmeticShares(vals: Vec) returns (s: Trio<Vec>)
      modifies `drawn
      ensures SharesOf(s, vals)
      ensures drawn == old(drawn) + 2 * |vals|
      ensures EveryOtherDrawn(s.s0, old(drawn)) && EveryOtherDrawn(s.s1, old(drawn) + 1)
      ensures forall i :: 0 <= i < |vals| ==> s.s0[i] < 0x1_0000_0000_0000_0000
    {
      hide Split, SharesOf, EveryOtherDrawn, CongR, Sub, Add;
      var n := |vals|;
      var out0, out1, out2 := new uint128[n](_ => 0), new uint128[n](_ => 0), new uint128[n](_ => 0);
      var i := 0;
      while i < n
        invariant 0 <= i <= n && drawn == old(drawn) + 2 * i
        invariant forall k :: 0 <= k < i ==> Split(out0[k], out1[k], out2[k], vals[k], old(drawn) + 2 * k)
      {
        var a := RandFieldElem();
        var b := RandFieldElem();
        out0[i], out1[i], out2[i] := a, b, Sub(vals[i], Add(a, b));
        SplitAt(vals[i], drawn - 2);
        assert Split(out0[i], out1[i], out2[i], vals[i], old(drawn) + 2 * i);
        i := i + 1;
      }
      s := Trio(out0[..], out1[..], out2[..]);
      AllSplit(s, vals, old(drawn));
    }

    // Three words that add up to a value, two of them fresh.
    ghost predicate Split(a: uint128, b: uint128, c: uint128, v: uint128, from: nat)
    {
      a == prng(from) && b == prng(from + 1) && CongR(Sum3(a, b, c), v)
    }

    lemma SplitAt(v: uint128, from: nat)
      ensures Split(prng(from), prng(from + 1), Sub(v, Add(prng(from), prng(from + 1))), v, from)
    {
      hide CongR, Sub, Add;
      ThirdShare(v, prng(from), prng(from + 1));
    }

    lemma AllSplit(s: Trio<Vec>, vals: Vec, from: nat)
      requires Rows(s, |vals|)
      requires forall k :: 0 <= k < |vals| ==> Split(s.s0[k], s.s1[k], s.s2[k], vals[k], from + 2 * k)
      ensures SharesOf(s, vals) && EveryOtherDrawn(s.s0, from) && EveryOtherDrawn(s.s1, from + 1)
      ensures forall i :: 0 <= i < |vals| ==> s.s0[i] < 0x1_0000_0000_0000_0000
    {
      hide CongR;
      forall k | 0 <= k < |vals|
        ensures s.s0[k] == prng(from + 2 * k) && s.s1[k] == prng(from + 1 + 2 * k)
                && CongR(Sum3(s.s0[k], s.s1[k], s.s2[k]), vals[k])
      {
        assert Split(s.s0[k], s.s1[k], s.s2[k], vals[k], from + 2 * k);
      }
    }

    method CreateIndicatorVector(idx: nat, n: nat) returns (v: Vec)
      requires idx < n
      ensures v == IntervalMask(n, idx, idx)
    {
      var out := new uint128[n](_ => 0);
      out[idx] := 1;
      v := out[..];
    }

    // ----- tables -----

    method RegisterBOTableMeta(id: string, numBuckets: uint32, logBlockNum: nat) returns (r: Result<(), ClientError>)
      modifies `boLayouts
      ensures r == if logBlockNum >= 31 then Err(ClientError.LogTooLarge)
                   else if numBuckets == 0 || numBuckets % Pow2(logBlockNum) != 0 then Err(ClientError.BadParameters)
                   else Ok(())
      ensures r.Ok? ==> id in boLayouts && boLayouts[id].blockNum == Pow2(logBlockNum)
                        && boLayouts[id].blockSize * Pow2(logBlockNum) == numBuckets
      ensures boLayouts == if r.Ok? then old(boLayouts)[id := LayoutFor(numBuckets, logBlockNum)] else old(boLayouts)
    {
      if logBlockNum >= 31 { return Err(ClientError.LogTooLarge); }
      var blockNum := Pow2(logBlockNum);
      if numBuckets == 0 || numBuckets % blockNum != 0 { return Err(ClientError.BadParameters); }
      boLayouts := boLayouts[id := Layout(blockNum, numBuckets / blockNum)];
      LayoutSplits(numBuckets, logBlockNum);
      return Ok(());
    }

    // One-hot shares of one bucket's block and offset.
    method ShareBucket(l: Layout, x: nat) returns (b: Trio<Vec>, o: Trio<Vec>)
      requires ValidLayout(l) && x < Buckets(l)
      modifies `drawn
      ensures OneHot(b, l.blockNum, BlockOf(l, x)) && OneHot(o, l.blockSize, OffsetOf(l, x))
    {
      hide CongR, BlockOf, OffsetOf, Buckets;
      BucketFits(l, x);
      var rawIndex := CreateIndicatorVector(BlockOf(l, x), l.blockNum);
      var rawOffset := CreateIndicatorVector(OffsetOf(l, x), l.blockSize);
      b := SplitIntoArithmeticShares(rawIndex);
      o := SplitIntoArithmeticShares(rawOffset);
    }

    /** Registers a table, creates it at the three servers and uploads its rows: afterwards the servers
        hold one-hot shares of every row's bucket. */
    method AddBOTable(id: string, windowSize: nat, numBuckets: uint32, logBlockNum: nat, data: seq<nat>)
      returns (r: Result<(), ClientError>)
      requires Valid() && servers.Valid() && windowSize <= |data|
      requires forall i :: 0 <= i < windowSize ==> data[i] < numBuckets
      modifies `drawn, `boLayouts, servers.s0`boTables, servers.s1`boTables, servers.s2`boTables
      ensures Valid() && (r.Ok? <==> logBlockNum < 31 && numBuckets > 0 && numBuckets % Pow2(logBlockNum) == 0)
      ensures r.Ok? ==> id in boLayouts && boLayouts[id].blockNum == Pow2(logBlockNum)
                        && boLayouts[id].blockSize * Pow2(logBlockNum) == numBuckets
                        && servers.HoldsTable(id, boLayouts[id], data[..windowSize])
      ensures boLayouts == if r.Ok? then old(boLayouts)[id := LayoutFor(numBuckets, logBlockNum)] else old(boLayouts)
    {
      hide Cluster.Valid, Cluster.HoldsTable, LayoutFor;
      var reg := RegisterBOTableMeta(id, numBuckets, logBlockNum);
      if reg.Err? { return Err(reg.error); }
      LayoutSplits(numBuckets, logBlockNum);
      SizesBelow(boLayouts[id].blockNum, boLayouts[id].blockSize);
      SendTable(id, windowSize, numBuckets, logBlockNum, boLayouts[id], data);
      return Ok(());
    }

    // Sets the table up at the servers and uploads its rows.
    method SendTable(id: string, windowSize: nat, numBuckets: uint32, logBlockNum: nat, l: Layout, data: seq<nat>)
      requires servers.Valid() && windowSize <= |data| && ValidTableParameters(numBuckets, logBlockNum)
      requires l.blockNum == Pow2(logBlockNum) && l.blockSize * Pow2(logBlockNum) == numBuckets
      requires forall i :: 0 <= i < windowSize ==> data[i] < numBuckets
      modifies `drawn, servers.s0`boTables, servers.s1`boTables, servers.s2`boTables
      ensures servers.HoldsTable(id, l, data[..windowSize])
    {
      hide Cluster.Valid, OneHot, BlockOf, OffsetOf, WellShaped, HoldsBuckets, Loaded, Shaped, LayoutFor, FreshTable;
      servers.InitBOTable(id, windowSize, numBuckets, logBlockNum);
      LayoutIs(l, numBuckets, logBlockNum);
      FreshLoaded(l, windowSize, data);
      UploadRows(id, l, windowSize, data);
      LoadedAll(servers.Tables(id), l, windowSize, data);
    }

    // The accepted parameters leave one layout.
    static lemma LayoutIs(l: Layout, numBuckets: nat, logBlockNum: nat)
      requires ValidTableParameters(numBuckets, logBlockNum)
      requires l.blockNum == Pow2(logBlockNum) && l.blockSize * Pow2(logBlockNum) == numBuckets
      ensures l == LayoutFor(numBuckets, logBlockNum) && ValidLayout(l) && Buckets(l) == numBuckets
    {
      LayoutSplits(numBuckets, logBlockNum);
      SameFactor(l.blockSize, LayoutFor(numBuckets, logBlockNum).blockSize, Pow2(logBlockNum));
    }

    static lemma SameFactor(a: nat, b: nat, p: nat)
      requires p > 0 && a * p == b * p
      ensures a == b
    {
    }

    method UploadRows(id: string, l: Layout, windowSize: nat, data: seq<nat>)
      requires servers.Valid() && windowSize <= |data| && ValidLayout(l)
      requires forall i :: 0 <= i < windowSize ==> data[i] < Buckets(l)
      requires id in servers.s0.boTables && id in servers.s1.boTables && id in servers.s2.boTables
      requires Loaded(servers.Tables(id), l, windowSize, data, 0)
      modifies `drawn, servers.s0`boTables, servers.s1`boTables, servers.s2`boTables
      ensures id in servers.s0.boTables && id in servers.s1.boTables && id in servers.s2.boTables
      ensures Loaded(servers.Tables(id), l, windowSize, data, windowSize)
    {
      hide Cluster.Valid, OneHot, BlockOf, OffsetOf, Buckets, Loaded;
      var idx := 0;
      while idx < windowSize
        invariant 0 <= idx <= windowSize
        invariant id in servers.s0.boTables && id in servers.s1.boTables && id in servers.s2.boTables
        invariant Loaded(servers.Tables(id), l, windowSize, data, idx)
      {
        var b, o := ShareBucket(l, data[idx]);
        BOTableUpdate(id, idx, b, o, l, windowSize, data);
        idx := idx + 1;
      }
    }

    // Sends one row: server i gets share i and share i + 1.
    method BOTableUpdate(id: string, idx: nat, b: Trio<Vec>, o: Trio<Vec>, ghost l: Layout, ghost w: nat,
                         ghost data: seq<nat>)
      requires servers.Valid()
      requires id in servers.s0.boTables && id in servers.s1.boTables && id in servers.s2.boTables
      requires Loaded(servers.Tables(id), l, w, data, idx) && idx < w
      requires OneHot(b, l.blockNum, BlockOf(l, data[idx])) && OneHot(o, l.blockSize, OffsetOf(l, data[idx]))
      modifies servers.s0`boTables, servers.s1`boTables, servers.s2`boTables
      ensures id in servers.s0.boTables && id in servers.s1.boTables && id in servers.s2.boTables
      ensures Loaded(servers.Tables(id), l, w, data, idx + 1)
    {
      hide CongR, BlockOf, OffsetOf, Buckets, WellShaped;
      ghost var t := servers.Tables(id);
      LoadRow(t, l, w, data, idx, b, o);
      var r0 := servers.s0.BOTableUpdate(id, QS.Loc.At(idx), b.s0, b.s1, o.s0, o.s1);
      var r1 := servers.s1.BOTableUpdate(id, QS.Loc.At(idx), b.s1, b.s2, o.s1, o.s2);
      var r2 := servers.s2.BOTableUpdate(id, QS.Loc.At(idx), b.s2, b.s0, o.s2, o.s0);
    }

    /** Creates a value list and uploads shares of the values. */
    method AddValList(id: string, windowSize: nat, data: seq<uint128>)
      requires servers.Valid() && windowSize <= |data|
      modifies `drawn, servers.s0`valLists, servers.s1`valLists, servers.s2`valLists
      modifies servers.s0`valListWindowPtrs, servers.s1`valListWindowPtrs, servers.s2`valListWindowPtrs
      ensures servers.HoldsValues(id, data[..windowSize])
    {
      hide Cluster.Traced, PartialValues;
      servers.s0.AddValList(id, windowSize);
      servers.s1.AddValList(id, windowSize);
      servers.s2.AddValList(id, windowSize);
      NoValues(windowSize, data);
      UploadValues(id, windowSize, data);
      AllValues(servers.Lists(id), windowSize, data);
    }

    method UploadValues(id: string, windowSize: nat, data: seq<uint128>)
      requires servers.Valid() && windowSize <= |data|
      requires id in servers.s0.valLists && id in servers.s1.valLists && id in servers.s2.valLists
      requires PartialValues(servers.Lists(id), windowSize, data, 0)
      modifies `drawn, servers.s0`valLists, servers.s1`valLists, servers.s2`valLists
      modifies servers.s0`valListWindowPtrs, servers.s1`valListWindowPtrs, servers.s2`valListWindowPtrs
      ensures id in servers.s0.valLists && id in servers.s1.valLists && id in servers.s2.valLists
      ensures PartialValues(servers.Lists(id), windowSize, data, windowSize)
    {
      hide Cluster.Valid, PartialValues;
      var i := 0;
      while i < windowSize
        invariant 0 <= i <= windowSize
        invariant id in servers.s0.valLists && id in servers.s1.valLists && id in servers.s2.valLists
        invariant PartialValues(servers.Lists(id), windowSize, data, i)
      {
        ValListUpdate(id, i, windowSize, data);
        i := i + 1;
      }
    }

    // Shares one value: server i gets share i and share i + 1.
    method ValListUpdate(id: string, idx: nat, ghost w: nat, data: seq<uint128>)
      requires servers.Valid()
      requires id in servers.s0.valLists && id in servers.s1.valLists && id in servers.s2.valLists
      requires PartialValues(servers.Lists(id), w, data, idx) && idx < w <= |data|
      modifies `drawn, servers.s0`valLists, servers.s1`valLists, servers.s2`valLists
      modifies servers.s0`valListWindowPtrs, servers.s1`valListWindowPtrs, servers.s2`valListWindowPtrs
      ensures id in servers.s0.valLists && id in servers.s1.valLists && id in servers.s2.valLists
      ensures PartialValues(servers.Lists(id), w, data, idx + 1)
    {
      hide Cluster.Traced, CongR, PartialValues;
      ghost var v := servers.Lists(id);
      var s := SplitIntoSingleArithmeticShares(data[idx]);
      NextValue(v, w, data, idx, s);
      servers.s0.ValListUpdate(id, QS.Loc.At(idx), s.s0, s.s1);
      servers.s1.ValListUpdate(id, QS.Loc.At(idx), s.s1, s.s2);
      servers.s2.ValListUpdate(id, QS.Loc.At(idx), s.s2, s.s0);
    }

    // ----- filters -----

    // A random word and its complement to the selector, a place each.
    method ShareMask(raw: Vec) returns (r: Vec, q: Vec)
      modifies `drawn
      ensures |r| == |q| == |raw| && forall i :: 0 <= i < |raw| ==> Cong(r[i] as int + q[i], raw[i])
      ensures Drawn(r, old(drawn)) && drawn == old(drawn) + |raw|
    {
      hide Masked, Sub;
      var n := |raw|;
      var tmpR, tmpQ := new uint128[n](_ => 0), new uint128[n](_ => 0);
      var i := 0;
      while i < n
        invariant 0 <= i <= n && drawn == old(drawn) + i
        invariant forall k :: 0 <= k < i ==> Masked(tmpR[k], tmpQ[k], raw[k], old(drawn) + k)
      {
        var x := RandFieldElem();
        tmpR[i], tmpQ[i] := x, Sub(raw[i], x);
        MaskedAt(raw[i], drawn - 1);
        i := i + 1;
      }
      r, q := tmpR[..], tmpQ[..];
      AllMasked(r, q, raw, old(drawn));
    }

    // A fresh word and what completes it to a value.
    ghost predicate Masked(r: uint128, q: uint128, v: uint128, from: nat)
    {
      r == prng(from) && Cong(r as int + q, v)
    }

    lemma MaskedAt(v: uint128, from: nat)
      ensures Masked(prng(from), Sub(v, prng(from)), v, from)
    {
      hide Cong, Sub;
      Complement(v, prng(from));
    }

    lemma AllMasked(r: Vec, q: Vec, raw: Vec, from: nat)
      requires |r| == |q| == |raw| && forall k :: 0 <= k < |raw| ==> Masked(r[k], q[k], raw[k], from + k)
      ensures Drawn(r, from) && forall k :: 0 <= k < |raw| ==> Cong(r[k] as int + q[k], raw[k])
    {
      hide Cong;
    }

    /** Query material for one leaf: for each share index a fresh pair, its halves sent to the two servers
        that hold that share. */
    method GenerateBaseBOFilter(id: string, pred: nat, block: Vec, offset: Vec) returns (t: Trio<BoLeaf>)
      modifies `drawn
      ensures t.s0.id == t.s1.id == t.s2.id == id && t.s0.pred == t.s1.pred == t.s2.pred == pred
      ensures LeafMaterial(Trio(t.s0.q, t.s1.q, t.s2.q), Layout(|block|, |offset|), LeafMask(block, offset))
      ensures Drawn(t.s0.q.block0, old(drawn)) && Drawn(t.s0.q.block1, old(drawn) + |block|)
              && Drawn(t.s1.q.block1, old(drawn) + 2 * |block|)
      ensures Drawn(t.s0.q.offset0, old(drawn) + 3 * |block|)
              && Drawn(t.s0.q.offset1, old(drawn) + 3 * |block| + |offset|)
              && Drawn(t.s1.q.offset1, old(drawn) + 3 * |block| + 2 * |offset|)
      ensures drawn == old(drawn) + 3 * (|block| + |offset|)
    {
      hide Cong, Drawn;
      var b0, c0 := ShareMask(block);
      var b1, c1 := ShareMask(block);
      var b2, c2 := ShareMask(block);
      var o0, p0 := ShareMask(offset);
      var o1, p1 := ShareMask(offset);
      var o2, p2 := ShareMask(offset);
      t := Trio(BoLeaf(id, pred, QueryVecs(b0, b1, o0, o1)),
                BoLeaf(id, pred, QueryVecs(c1, b2, p1, o2)),
                BoLeaf(id, pred, QueryVecs(c2, c0, p2, p0)));
    }

    // A selector that is one on lo..hi.
    method MakeInterval(n: nat, lo: nat, hi: nat) returns (m: Vec)
      requires hi < n
      ensures m == IntervalMask(n, lo, hi)
    {
      var out := new uint128[n](_ => 0);
      var b := lo;
      while b <= hi
        invariant lo <= b && (b <= hi + 1 || b == lo)
        invariant forall i :: 0 <= i < n ==> out[i] == if lo <= i < b && i <= hi then 1 else 0
      {
        out[b] := 1;
        b := b + 1;
      }
      m := out[..];
    }

    method EmitLeaf(id: string, l: Layout, pred: nat, box: Box, ls: Trio<seq<BoLeaf>>, ghost es: seq<Emit<Box>>)
      returns (out: Trio<seq<BoLeaf>>)
      requires Built(ls, id, l, es) && box.blockHi < l.blockNum && box.offHi < l.blockSize
      modifies `drawn
      ensures Built(out, id, l, es + [Emit(pred, box)])
    {
      hide LeafMaterial, IntervalMask;
      var block := MakeInterval(l.blockNum, box.blockLo, box.blockHi);
      var offset := MakeInterval(l.blockSize, box.offLo, box.offHi);
      var t := GenerateBaseBOFilter(id, pred, block, offset);
      out := Trio(ls.s0 + [t.s0], ls.s1 + [t.s1], ls.s2 + [t.s2]);
      assert LeafBuilt(t, id, l, Emit(pred, box));
    }

    // The leaves of one interval, branch by branch.
    method EmitRange(id: string, l: Layout, pred: nat, left: nat, right: nat, ls: Trio<seq<BoLeaf>>,
                     ghost es: seq<Emit<Box>>)
      returns (out: Trio<seq<BoLeaf>>)
      requires ValidLayout(l) && left <= right < Buckets(l) && Built(ls, id, l, es)
      modifies `drawn
      ensures Built(out, id, l, es + Tagged(pred, RangeBoxes(l, left, right)))
    {
      hide Built, BlockOf, OffsetOf, Buckets;
      RangeByBlocks(l, left, right, left);
      var last := Buckets(l) - 1;
      var bL, oL, bR, oR := BlockOf(l, left), OffsetOf(l, left), BlockOf(l, right), OffsetOf(l, right);
      var top := l.blockSize - 1;
      ghost var boxes := RangeBoxes(l, left, right);
      ghost var done := es;
      out := ls;
      if left == 0 && right < last {
        if bR > 0 {
          out := EmitLeaf(id, l, pred, Box(0, bR - 1, 0, top), out, done);
          done := done + [Emit(pred, Box(0, bR - 1, 0, top))];
        }
        out := EmitLeaf(id, l, pred, Box(bR, bR, 0, oR), out, done);
        done := done + [Emit(pred, Box(bR, bR, 0, oR))];
        assert done == es + Tagged(pred, boxes);
        return;
      }
      if right == last && left > 0 {
        if bL + 1 < l.blockNum {
          out := EmitLeaf(id, l, pred, Box(bL + 1, l.blockNum - 1, 0, top), out, done);
          done := done + [Emit(pred, Box(bL + 1, l.blockNum - 1, 0, top))];
        }
        out := EmitLeaf(id, l, pred, Box(bL, bL, oL, top), out, done);
        done := done + [Emit(pred, Box(bL, bL, oL, top))];
        assert done == es + Tagged(pred, boxes);
        return;
      }
      if bL == bR {
        out := EmitLeaf(id, l, pred, Box(bL, bL, oL, oR), out, done);
        assert done + [Emit(pred, Box(bL, bL, oL, oR))] == es + Tagged(pred, boxes);
        return;
      }
      if oL > 0 {
        out := EmitLeaf(id, l, pred, Box(bL, bL, oL, top), out, done);
        done := done + [Emit(pred, Box(bL, bL, oL, top))];
      }
      if oR + 1 < l.blockSize {
        out := EmitLeaf(id, l, pred, Box(bR, bR, 0, oR), out, done);
        done := done + [Emit(pred, Box(bR, bR, 0, oR))];
      }
      var midL := bL + (if oL > 0 then 1 else 0);
      var midR := bR - (if oR + 1 < l.blockSize then 1 else 0);
      if midL <= midR {
        out := EmitLeaf(id, l, pred, Box(midL, midR, 0, top), out, done);
        done := done + [Emit(pred, Box(midL, midR, 0, top))];
      }
      assert done == es + Tagged(pred, boxes);
    }

    /** GenerateCombinedBOFilter: accepts exactly the valid queries on registered tables, and emits the
        leaves of every predicate in order. */
    method GenerateCombinedBOFilter(id: string, query: seq<nat>, isPoint: bool, isAnd: bool)
      returns (r: Result<Trio<BoFilter>, ClientError>, ghost ls: Trio<seq<BoLeaf>>)
      requires id in boLayouts ==> ValidLayout(boLayouts[id])
      modifies `drawn
      ensures r.Ok? <==>
        id in boLayouts && Askable(query, isPoint, boLayouts[id].blockNum * boLayouts[id].blockSize)
      ensures r.Ok? ==>
        && r.value == Message(isAnd, ls)
        && AllInside(Intervals(query, isPoint), boLayouts[id])
        && Built(ls, id, boLayouts[id], Emitted(BoxLists(boLayouts[id], Intervals(query, isPoint), isPoint)))
      ensures r.Ok? ==> Asks(r.value, boLayouts[id], query, isPoint, isAnd)
      ensures id !in boLayouts ==> r == Err(ClientError.UnknownTable)
      ensures id in boLayouts && query == [] ==> r == Err(EmptyQuery)
      ensures id in boLayouts && query != [] && !isPoint && |query| % 2 != 0 ==> r == Err(OddBoundaries)
      ensures id in boLayouts && query != [] && isPoint && r.Err? ==> r == Err(OutOfRange)
    {
      hide Built, Buckets, Collected, BoxLists, Emitted, Intervals, AllInside;
      ls := Trio([], [], []);
      if id !in boLayouts { return Err(ClientError.UnknownTable), ls; }
      if query == [] { return Err(EmptyQuery), ls; }
      var l := boLayouts[id];
      SizeIs(l);
      AskableInside(query, isPoint, l);
      ghost var vs := Intervals(query, isPoint);
      if isPoint {
        var built := EmitPoints(id, l, query, vs);
        if built.Err? { return Err(built.error), ls; }
        ls := built.value;
        MessageAsks(isAnd, ls, id, l, query, isPoint);
        return Ok(Message(isAnd, built.value)), ls;
      }
      if |query| % 2 != 0 { return Err(OddBoundaries), ls; }
      var built := EmitRanges(id, l, query, vs);
      if built.Err? { return Err(built.error), ls; }
      ls := built.value;
      MessageAsks(isAnd, ls, id, l, query, isPoint);
      return Ok(Message(isAnd, built.value)), ls;
    }

    static lemma SizeIs(l: Layout)
      ensures Buckets(l) == l.blockNum * l.blockSize
    {
    }

    method EmitPoints(id: string, l: Layout, query: seq<nat>, ghost vs: seq<Interval>)
      returns (r: Result<Trio<seq<BoLeaf>>, ClientError>)
      requires ValidLayout(l) && vs == Intervals(query, true)
      modifies `drawn
      ensures (r.Ok? <==> AllInside(vs, l)) && (r.Err? ==> r == Err(OutOfRange))
      ensures r.Ok? ==> Built(r.value, id, l, Emitted(BoxLists(l, vs, true)))
    {
      hide Built, BlockOf, OffsetOf, Buckets, BoxesOf;
      var leaves: Trio<seq<BoLeaf>> := Trio([], [], []);
      ghost var bss: seq<seq<Box>> := [];
      NothingBuilt(id, l);
      var i := 0;
      while i < |query|
        invariant 0 <= i <= |query|
        invariant Collected(bss, l, vs, true, i) && Built(leaves, id, l, Emitted(bss))
      {
        if query[i] >= Buckets(l) { assert !Inside(vs[i], l); return Err(OutOfRange); }
        BucketFits(l, query[i]);
        PointBoxes(l, vs[i]);
        CollectedNext(bss, l, vs, true, i);
        EmittedSnoc(bss, [PointBox(l, query[i])]);
        assert Tagged(i, [PointBox(l, query[i])]) == [Emit(i, PointBox(l, query[i]))];
        leaves := EmitLeaf(id, l, i, PointBox(l, query[i]), leaves, Emitted(bss));
        bss := bss + [[PointBox(l, query[i])]];
        i := i + 1;
      }
      CollectedAll(bss, l, vs, true);
      return Ok(leaves);
    }

    method EmitRanges(id: string, l: Layout, query: seq<nat>, ghost vs: seq<Interval>)
      returns (r: Result<Trio<seq<BoLeaf>>, ClientError>)
      requires ValidLayout(l) && vs == Intervals(query, false)
      modifies `drawn
      ensures r.Ok? <==> AllInside(vs, l)
      ensures r.Ok? ==> Built(r.value, id, l, Emitted(BoxLists(l, vs, false)))
    {
      hide Built, BlockOf, OffsetOf, Buckets, RangeBoxes;
      var leaves: Trio<seq<BoLeaf>> := Trio([], [], []);
      ghost var bss: seq<seq<Box>> := [];
      NothingBuilt(id, l);
      var i := 0;
      while i < |query| / 2
        invariant 0 <= i <= |query| / 2
        invariant Collected(bss, l, vs, false, i) && Built(leaves, id, l, Emitted(bss))
      {
        var left, right := query[2 * i], query[2 * i + 1];
        assert vs[i] == Interval(left, right);
        if left >= Buckets(l) || right >= Buckets(l) { assert !Inside(vs[i], l); return Err(OutOfRange); }
        if left > right { assert !Inside(vs[i], l); return Err(LeftAboveRight); }
        CollectedNext(bss, l, vs, false, i);
        EmittedSnoc(bss, BoxesOf(l, vs[i], false));
        leaves := EmitRange(id, l, i, left, right, leaves, Emitted(bss));
        bss := bss + [BoxesOf(l, vs[i], false)];
        i := i + 1;
      }
      CollectedAll(bss, l, vs, false);
      return Ok(leaves);
    }

    /** The whole query: filters out, three answers back, their sum reduced modulo 2^125. Every row counts
        with its weight: under AND once if it satisfies all predicates and not otherwise; under OR
        2^k - 1 times, for k satisfied predicates. */
    method BOAggQuery(aggId: string, id: string, isPoint: bool, isAnd: bool, query: seq<nat>,
                      ghost buckets: seq<nat>, ghost vals: seq<uint128>)
      returns (r: Result<uint128, ClientError>, ghost filter: Trio<Held>, ghost at: nat)
      requires servers.Valid()
      requires id in boLayouts ==> servers.HoldsTable(id, boLayouts[id], buckets)
      requires servers.HoldsValues(aggId, vals) && |vals| <= |buckets|
      modifies `drawn, servers`ops, servers.s0`prfCounter, servers.s0`multReceivedShares, servers.s1`prfCounter,
               servers.s1`multReceivedShares, servers.s2`prfCounter, servers.s2`multReceivedShares
      ensures servers.Valid()
      ensures r.Ok? <==>
        id in boLayouts && Askable(query, isPoint, boLayouts[id].blockNum * boLayouts[id].blockSize)
      ensures r.Ok? ==> r.value == Answer(isAnd, query, isPoint, buckets, vals, |vals|) % M
      ensures r.Ok? ==> Recombined(servers, r.value, aggId, filter, at)
    {
      filter, at := *, 0;
      hide Cluster.Valid, Cluster.Result, Cluster.HoldsTable, Cluster.HoldsValues, FromAnswers, StandsFor, RowCounts,
        WeightedSum, Answer, Askable;
      var eval;
      eval, at := FilterByVectors(id, isPoint, isAnd, query, buckets);
      if eval.Err? { r := Err(eval.error); return; }
      filter := eval.value;
      var ret := SumUp(aggId, eval.value, vals, |buckets|, RowCounts(isAnd, query, isPoint, buckets));
      CountedSum(isAnd, query, isPoint, buckets, vals, |vals|);
      r := Ok(ret);
    }

    // Filters out, evaluated and combined at the servers: a filter that weighs every row as the query does.
    method FilterByVectors(id: string, isPoint: bool, isAnd: bool, query: seq<nat>, ghost buckets: seq<nat>)
      returns (r: Result<Trio<Held>, ClientError>, ghost at: nat)
      requires servers.Valid()
      requires id in boLayouts ==> servers.HoldsTable(id, boLayouts[id], buckets)
      modifies `drawn, servers`ops, servers.s0`prfCounter, servers.s0`multReceivedShares, servers.s1`prfCounter,
               servers.s1`multReceivedShares, servers.s2`prfCounter, servers.s2`multReceivedShares
      ensures servers.Valid()
      ensures r.Ok? <==>
        id in boLayouts && Askable(query, isPoint, boLayouts[id].blockNum * boLayouts[id].blockSize)
      ensures r.Ok? ==>
        StandsFor(r.value, |buckets|, RowCounts(isAnd, query, isPoint, buckets)) && servers.Result(at, r.value)
    {
      at := 0;
      hide Cluster.Valid, Cluster.Result, Cluster.HoldsTable, StandsFor, Built, Weights, Emitted, Intervals, BoxLists,
        AllInside, RowCounts, Asks;
      if id in boLayouts { TableIsThere(id, boLayouts[id], buckets); }
      var gen, ls := GenerateCombinedBOFilter(id, query, isPoint, isAnd);
      if gen.Err? { r := Err(gen.error); return; }
      ghost var l := boLayouts[id];
      var h;
      h, at := SendVectors(gen.value, id, isPoint, isAnd, ls, l, Intervals(query, isPoint), buckets);
      WeightsCount(isAnd, query, isPoint, buckets);
      r := Ok(h);
    }

    // The servers group, evaluate and combine the leaves of a query.
    method SendVectors(f: Trio<BoFilter>, id: string, isPoint: bool, isAnd: bool, ghost ls: Trio<seq<BoLeaf>>,
                       ghost l: Layout, ghost vs: seq<Interval>, ghost buckets: seq<nat>)
      returns (h: Trio<Held>, ghost at: nat)
      requires servers.Valid() && servers.HoldsTable(id, l, buckets)
      requires AllInside(vs, l) && vs != [] && (isPoint ==> forall i :: 0 <= i < |vs| ==> vs[i].left == vs[i].right)
      requires f == Message(isAnd, ls) && Built(ls, id, l, Emitted(BoxLists(l, vs, isPoint)))
      modifies servers`ops, servers.s0`prfCounter, servers.s0`multReceivedShares, servers.s1`prfCounter,
               servers.s1`multReceivedShares, servers.s2`prfCounter, servers.s2`multReceivedShares
      ensures servers.Valid() && servers.Result(at, h)
      ensures StandsFor(h, |buckets|, Weights(isAnd, vs, buckets))
    {
      hide Cluster.Valid, Cluster.Result, Cluster.HoldsTable, StandsFor, Built, FilterMaterial, FilterValue, Weights,
        Emitted, SameShape, QueryServer.Accepts, BoxLists, MasksOf, MasksByPred, PredsOf, AllInside, Shaped, Contiguous;
      TableIsThere(id, l, buckets);
      BoSent(isAnd, ls, id, l, vs, isPoint, buckets);
      ghost var es := Emitted(BoxLists(l, vs, isPoint));
      AcceptedAt(isAnd, ls.s0, id, l, es, servers.s0);
      AcceptedAt(isAnd, ls.s1, id, l, es, servers.s1);
      AcceptedAt(isAnd, ls.s2, id, l, es, servers.s2);
      var eval;
      eval, at := servers.BOEvalFilter(f, l, buckets, MasksOf(l, es));
      h := eval.value;
      BoWeighs(h, l, vs, isPoint, isAnd, buckets);
    }

    // The three messages of a query are as the servers expect them.
    static lemma BoSent(isAnd: bool, ls: Trio<seq<BoLeaf>>, id: string, l: Layout, vs: seq<Interval>, isPoint: bool,
                        buckets: seq<nat>)
      requires ValidLayout(l) && AllInside(vs, l) && InDomain(buckets, l) && vs != []
      requires isPoint ==> forall i :: 0 <= i < |vs| ==> vs[i].left == vs[i].right
      requires Built(ls, id, l, Emitted(BoxLists(l, vs, isPoint)))
      ensures
        var es := Emitted(BoxLists(l, vs, isPoint));
        && FilterMaterial(Message(isAnd, ls), l, MasksOf(l, es)) && SameShape(Message(isAnd, ls))
        && es != [] && ls.s0 != [] && ls.s0[0].id == id && Tags(ls.s0) == PredsOf(es)
        && Sendable(ls.s0, id, l, es) && Sendable(ls.s1, id, l, es) && Sendable(ls.s2, id, l, es)
    {
      hide Built, FilterMaterial, Emitted, SameShape, Shaped, Contiguous;
      var es := Emitted(BoxLists(l, vs, isPoint));
      EmittedMeaning(l, vs, isPoint, true, buckets);
      BuiltMaterial(isAnd, ls, id, l, es);
      EmittedContiguous(BoxLists(l, vs, isPoint));
    }

    // Leaves of one server's message, ready to be accepted where the table is.
    static ghost predicate Sendable(leaves: seq<BoLeaf>, id: string, l: Layout, es: seq<Emit<Box>>)
    {
      && es != [] && Contiguous(PredsOf(es)) && |leaves| == |es| && Tags(leaves) == PredsOf(es)
      && forall i :: 0 <= i < |leaves| ==> leaves[i].id == id && Shaped(leaves[i].q, l)
    }

    static lemma AcceptedAt(isAnd: bool, leaves: seq<BoLeaf>, id: string, l: Layout, es: seq<Emit<Box>>, s: QueryServer)
      requires Sendable(leaves, id, l, es) && id in s.boTables && s.boTables[id].layout == l
      ensures s.Accepts(BoFilter(isAnd, leaves))
    {
      hide AcceptedBy, Shaped, Contiguous;
      SentIsAccepted(isAnd, leaves, id, l, es, s.boTables);
    }

    // The filter of a BO query weighs every row as the query does.
    static lemma BoWeighs(f: Trio<Held>, l: Layout, vs: seq<Interval>, isPoint: bool, isAnd: bool, buckets: seq<nat>)
      requires ValidLayout(l) && AllInside(vs, l) && InDomain(buckets, l) && vs != []
      requires isPoint ==> forall i :: 0 <= i < |vs| ==> vs[i].left == vs[i].right
      requires
        var es := Emitted(BoxLists(l, vs, isPoint));
        FilterValue(f, isAnd, l, MasksByPred(MasksOf(l, es), PredsOf(es)), buckets)
      ensures StandsFor(f, |buckets|, Weights(isAnd, vs, buckets))
    {
      hide BoxLists, Emitted, MasksOf, FilterValue, Weights, StandsFor;
      var es := Emitted(BoxLists(l, vs, isPoint));
      EmittedMeaning(l, vs, isPoint, isAnd, buckets);
      FilterValueStands(f, isAnd, l, MasksByPred(MasksOf(l, es), PredsOf(es)), buckets);
    }

    // The three servers' answers for a filter, added up and reduced.
    method SumUp(aggId: string, f: Trio<Held>, ghost vals: seq<uint128>, ghost w: nat, ghost weights: seq<int>)
      returns (ret: uint128)
      requires servers.HoldsValues(aggId, vals) && StandsFor(f, w, weights) && |vals| <= w
      ensures ret == WeightedSum(vals, weights, |vals|) % M
      ensures FromAnswers(servers, ret, aggId, f)
    {
      hide Cong, WeightedSum, Replicated, Open, Values, Cluster.CanAnswer, Cluster.Answers;
      var res := servers.Aggregate(aggId, f, vals, w, weights);
      var sum := Combine(res);
      CongTrans(sum, Sum3(res.s0, res.s1, res.s2), WeightedSum(vals, weights, |vals|));
      CongMod(sum, WeightedSum(vals, weights, |vals|));
      CongMod(sum, Sum3(res.s0, res.s1, res.s2));
      ret := sum % M;
    }

    // Adds up the answers as they arrive.
    static method Combine(res: Trio<uint128>) returns (ret: uint128)
      ensures Cong(ret, Sum3(res.s0, res.s1, res.s2))
    {
      ret := 0;
      CongRRefl(0);
      ret := Add(ret, res.s0);
      ret := Add(ret, res.s1);
      ret := Add(ret, res.s2);
      AddThree(res.s0, res.s1, res.s2);
    }

    // ----- function secret sharing filters -----

    method NextSeeds() returns (p: Pair)
      modifies `seedsDrawn
      ensures p == seedStream(old(seedsDrawn)) && seedsDrawn == old(seedsDrawn) + 1
    {
      p := seedStream(seedsDrawn);
      seedsDrawn := seedsDrawn + 1;
    }

    // The bytes of one party's key for a primitive, from one pair of seeds and, for a comparison, one word.
    ghost function KeyBytes(seeds: Pair, word: uint64, n: uint32, prim: Prim, party: bool): seq<Bytes.byte>
      requires DomainDepth(n).Ok? && (prim.Compare? ==> prim.t < 0x1_0000_0000)
    {
      match prim
      case Point(x) => KP.SerializeVdpf(PointPack(cipher, [seeds], n, x, DomainDepth(n).value, [1], party))
      case Compare(op, t) =>
        KP.SerializeVdcf(ComparePack(cipher, [seeds], [word], n, MakePlan(n, op, t), DomainDepth(n).value, [1], party))
    }

    // A pair of keys generated from the seeds and the word at two places of the client's streams.
    ghost predicate PairFrom(k0: seq<Bytes.byte>, k1: seq<Bytes.byte>, n: uint32, prim: Prim, seedsAt: nat, wordAt: nat)
      requires DomainDepth(n).Ok? && (prim.Compare? ==> prim.t < 0x1_0000_0000)
    {
      && k0 == KeyBytes(seedStream(seedsAt), prng(wordAt), n, prim, false)
      && k1 == KeyBytes(seedStream(seedsAt), prng(wordAt), n, prim, true)
    }

    // Three pairs, each from seeds -- and for a comparison a word -- of its own, placed with one share index.
    ghost predicate ThreeFrom(keys: Trio<TwoKeys>, n: uint32, prim: Prim, seedsAt: nat, wordAt: nat)
      requires DomainDepth(n).Ok? && (prim.Compare? ==> prim.t < 0x1_0000_0000)
    {
      var d := if prim.Compare? then 1 else 0;
      && PairFrom(keys.s0.key0, keys.s2.key1, n, prim, seedsAt, wordAt)
      && PairFrom(keys.s1.key0, keys.s0.key1, n, prim, seedsAt + 1, wordAt + d)
      && PairFrom(keys.s2.key0, keys.s1.key1, n, prim, seedsAt + 2, wordAt + 2 * d)
    }

    // One key pair of a point, serialized.
    method PointPair(n: uint32, point: uint32) returns (r: Result<TwoKeys, FssError>)
      requires point < n
      modifies `seedsDrawn
      ensures r.Ok? <==> DomainDepth(n).Ok?
      ensures r.Ok? ==> KeyPairFor(cipher, false, r.value.key0, r.value.key1, n, PrimMask(n, Point(point)))
      ensures seedsDrawn == old(seedsDrawn) + 1
      ensures r.Ok? ==> PairFrom(r.value.key0, r.value.key1, n, Point(point), old(seedsDrawn), drawn)
    {
      hide PointPack, KP.SerializeVdpf, KeyPairFor, CeilLog2;
      var seeds := NextSeeds();
      var gen := GenPointVector(cipher, [seeds], n, point, [1]);
      if gen.Err? { return Err(gen.error); }
      PointPackPair(cipher, seeds, n, point, DomainDepth(n).value);
      var b0 := KP.PrintVdpf(gen.value.0);
      var b1 := KP.PrintVdpf(gen.value.1);
      return Ok(TwoKeys(b0, b1));
    }

    // One key pair of a comparison, serialized.
    method ComparePair(n: uint32, op: CompareOp, t: uint32) returns (r: Result<TwoKeys, FssError>)
      modifies `drawn, `seedsDrawn
      ensures r.Ok? <==> DomainDepth(n).Ok?
      ensures r.Ok? ==> KeyPairFor(cipher, true, r.value.key0, r.value.key1, n, PrimMask(n, Compare(op, t)))
      ensures seedsDrawn == old(seedsDrawn) + 1 && drawn == old(drawn) + 1
      ensures r.Ok? ==> PairFrom(r.value.key0, r.value.key1, n, Compare(op, t), old(seedsDrawn), old(drawn))
    {
      hide ComparePack, KP.SerializeVdcf, KeyPairFor, CeilLog2, MakePlan;
      var seeds := NextSeeds();
      var word := RandFieldElem();
      var gen := GenCompareVector(cipher, [seeds], [word], n, op, t, [1]);
      if gen.Err? { return Err(gen.error); }
      ComparePackPair(cipher, seeds, word, n, op, t, DomainDepth(n).value);
      var b0 := KP.PrintVdcf(gen.value.0);
      var b1 := KP.PrintVdcf(gen.value.1);
      return Ok(TwoKeys(b0, b1));
    }

    method KeyPair(n: uint32, prim: Prim) returns (r: Result<TwoKeys, FssError>)
      requires prim.Point? ==> prim.x < n
      requires prim.Compare? ==> prim.t < 0x1_0000_0000
      modifies `drawn, `seedsDrawn
      ensures r.Ok? <==> DomainDepth(n).Ok?
      ensures r.Ok? ==> KeyPairFor(cipher, prim.Compare?, r.value.key0, r.value.key1, n, PrimMask(n, prim))
      ensures seedsDrawn == old(seedsDrawn) + 1 && drawn == old(drawn) + if prim.Compare? then 1 else 0
      ensures r.Ok? ==> PairFrom(r.value.key0, r.value.key1, n, prim, old(seedsDrawn), old(drawn))
    {
      hide KeyPairFor, PairFrom, CeilLog2;
      match prim {
        case Point(x) => r := PointPair(n, x);
        case Compare(op, t) => r := ComparePair(n, op, t);
      }
    }

    /** Three independent key pairs of one primitive, each placed with one share index: its first key
        where that share is the first copy, its second key where it is the second. */
    method GenPlacedKeys(n: uint32, prim: Prim) returns (r: Result<Trio<TwoKeys>, FssError>)
      requires prim.Point? ==> prim.x < n
      requires prim.Compare? ==> prim.t < 0x1_0000_0000
      modifies `drawn, `seedsDrawn
      ensures r.Ok? <==> DomainDepth(n).Ok?
      ensures r.Ok? ==> Placed(cipher, prim.Compare?, r.value, n, PrimMask(n, prim))
      ensures r.Ok? ==> ThreeFrom(r.value, n, prim, old(seedsDrawn), old(drawn)) && seedsDrawn == old(seedsDrawn) + 3
                        && drawn == old(drawn) + if prim.Compare? then 3 else 0
    {
      hide KeyPairFor, PairFrom, CeilLog2;
      var ks0 := KeyPair(n, prim);
      if ks0.Err? { return Err(ks0.error); }
      var ks1 := KeyPair(n, prim);
      var ks2 := KeyPair(n, prim);
      return Ok(Trio(TwoKeys(ks0.value.key0, ks1.value.key1),
                     TwoKeys(ks1.value.key0, ks2.value.key1),
                     TwoKeys(ks2.value.key0, ks0.value.key1)));
    }

    // Appends one leaf to the three messages.
    method EmitPrimLeaf(id: string, l: Layout, pred: nat, f: PrimLeaf, items: Trio<seq<Primitive>>,
                        ghost es: seq<Emit<PrimLeaf>>)
      returns (r: Result<Trio<seq<Primitive>>, ClientError>)
      requires SmallLayout(l) && FssBuilt(cipher, items, id, l, es)
      requires f.block.Point? ==> f.block.x < l.blockNum
      requires f.offset.Point? ==> f.offset.x < l.blockSize
      requires f.block.Compare? ==> f.block.t < 0x1_0000_0000
      requires f.offset.Compare? ==> f.offset.t < 0x1_0000_0000
      modifies `drawn, `seedsDrawn
      ensures r.Ok? <==> KeyableLayout(l)
      ensures r.Ok? ==> FssBuilt(cipher, r.value, id, l, es + [Emit(pred, f)])
    {
      hide FssBuilt, Placed, CeilLog2, PrimMask, ThreeFrom;
      var bk := GenPlacedKeys(l.blockNum, f.block);
      if bk.Err? { return Err(NotKeyable); }
      var ok := GenPlacedKeys(l.blockSize, f.offset);
      if ok.Err? { return Err(NotKeyable); }
      PlacedNonempty(cipher, f.block.Compare?, bk.value, l.blockNum, PrimMask(l.blockNum, f.block));
      PlacedNonempty(cipher, f.offset.Compare?, ok.value, l.blockSize, PrimMask(l.blockSize, f.offset));
      var b := Trio(Primitive(id, pred, BlockDomain, l.blockNum, f.block.Compare?, bk.value.s0.key0, bk.value.s0.key1),
                    Primitive(id, pred, BlockDomain, l.blockNum, f.block.Compare?, bk.value.s1.key0, bk.value.s1.key1),
                    Primitive(id, pred, BlockDomain, l.blockNum, f.block.Compare?, bk.value.s2.key0, bk.value.s2.key1));
      var o := Trio(Primitive(id, pred, OffsetDomain, l.blockSize, f.offset.Compare?, ok.value.s0.key0,
                              ok.value.s0.key1),
                    Primitive(id, pred, OffsetDomain, l.blockSize, f.offset.Compare?, ok.value.s1.key0,
                              ok.value.s1.key1),
                    Primitive(id, pred, OffsetDomain, l.blockSize, f.offset.Compare?, ok.value.s2.key0,
                              ok.value.s2.key1));
      FssBuiltSnoc(cipher, items, id, l, es, pred, f, b, o);
      return Ok(Trio(items.s0 + [b.s0, o.s0], items.s1 + [b.s1, o.s1], items.s2 + [b.s2, o.s2]));
    }

    // The leaves of one predicate: a point, or the full blocks and the boundary block of a single-sided
    // interval.
    method EmitPredicate(id: string, l: Layout, pred: nat, v: Interval, isPoint: bool, items: Trio<seq<Primitive>>,
                         ghost es: seq<Emit<PrimLeaf>>)
      returns (r: Result<Trio<seq<Primitive>>, ClientError>)
      requires ValidLayout(l) && SmallLayout(l) && Compilable(v, l, isPoint) && FssBuilt(cipher, items, id, l, es)
      modifies `drawn, `seedsDrawn
      ensures r.Ok? <==> KeyableLayout(l)
      ensures r.Ok? ==> FssBuilt(cipher, r.value, id, l, es + Tagged(pred, FssLeavesOf(l, v, isPoint)))
    {
      hide FssBuilt, BlockOf, OffsetOf, Buckets, KeyableLayout;
      BucketFits(l, v.left);
      BucketFits(l, v.right);
      if isPoint {
        var f := PrimLeaf(Point(BlockOf(l, v.left)), Point(OffsetOf(l, v.left)));
        r := EmitPrimLeaf(id, l, pred, f, items, es);
        assert Tagged(pred, FssLeavesOf(l, v, isPoint)) == [Emit(pred, f)];
        return;
      }
      var full, boundary;
      if v.left == 0 {
        var b, o := BlockOf(l, v.right), OffsetOf(l, v.right);
        full := PrimLeaf(Compare(LT, b), Compare(GE, 0));
        boundary := PrimLeaf(Point(b), Compare(LE, o));
      } else {
        var b, o := BlockOf(l, v.left), OffsetOf(l, v.left);
        full := PrimLeaf(Compare(GT, b), Compare(GE, 0));
        boundary := PrimLeaf(Point(b), Compare(GE, o));
      }
      r := EmitPrimLeaf(id, l, pred, full, items, es);
      if r.Err? { return; }
      r := EmitPrimLeaf(id, l, pred, boundary, r.value, es + [Emit(pred, full)]);
      assert es + [Emit(pred, full)] + [Emit(pred, boundary)] == es + Tagged(pred, FssLeavesOf(l, v, isPoint));
    }

    /** GenerateCombinedBOFSSFilter: accepts exactly the valid queries on registered tables whose block and
        offset domains are powers of two. */
    method GenerateCombinedBOFSSFilter(id: string, query: seq<nat>, isPoint: bool)
      returns (r: Result<Trio<seq<Primitive>>, ClientError>)
      requires Valid()
      modifies `drawn, `seedsDrawn
      ensures r.Ok? <==> id in boLayouts && Keyable(boLayouts[id], query, isPoint)
      ensures r.Ok? ==>
        var l, vs := boLayouts[id], Intervals(query, isPoint);
        AllCompilable(vs, l, isPoint) && FssBuilt(cipher, r.value, id, l, Emitted(FssLists(l, vs, isPoint)))
      ensures r.Ok? ==> AsksByKeys(cipher, r.value, boLayouts[id], query, isPoint)
      ensures id !in boLayouts ==> r == Err(ClientError.UnknownTable)
      ensures id in boLayouts && query == [] ==> r == Err(EmptyQuery)
      ensures id in boLayouts && query != [] && !isPoint && |query| % 2 != 0 ==> r == Err(OddBoundaries)
    {
      hide FssBuilt, BlockOf, OffsetOf, Buckets, KeyableLayout, FssLeavesOf, Compilable, FssCollected, FssLists,
        Emitted, AskableByKeys, IsPow2, AsksByKeys;
      if id !in boLayouts { return Err(ClientError.UnknownTable); }
      var l := boLayouts[id];
      KeyableCompiles(l, query, isPoint);
      if query == [] { return Err(EmptyQuery); }
      if !isPoint && |query| % 2 != 0 { return Err(OddBoundaries); }
      ghost var vs := Intervals(query, isPoint);
      var items: Trio<seq<Primitive>> := Trio([], [], []);
      ghost var fss: seq<seq<PrimLeaf>> := [];
      NothingFssBuilt(cipher, id, l);
      assert FssCollected(fss, l, vs, isPoint, 0) by { NothingCollected(l, vs, isPoint); }
      var i := 0;
      while i < if isPoint then |query| else |query| / 2
        invariant 0 <= i <= |vs|
        invariant |fss| == i && FssCollected(fss, l, vs, isPoint, i)
        invariant i > 0 ==> KeyableLayout(l)
        invariant FssBuilt(cipher, items, id, l, Emitted(fss))
      {
        var v := if isPoint then Interval(query[i], query[i]) else Interval(query[2 * i], query[2 * i + 1]);
        var check := CheckInterval(l, v, isPoint);
        if check.Err? { assert !Compilable(vs[i], l, isPoint); return Err(check.error); }
        EmittedSnoc(fss, FssLeavesOf(l, vs[i], isPoint));
        FssCollectedNext(fss, l, vs, isPoint, i);
        var next := EmitPredicate(id, l, i, v, isPoint, items, Emitted(fss));
        if next.Err? { return Err(next.error); }
        items := next.value;
        fss := fss + [FssLeavesOf(l, vs[i], isPoint)];
        i := i + 1;
      }
      FssCollectedAll(fss, l, vs, isPoint);
      KeysAsk(items, id, l, query, isPoint);
      return Ok(items);
    }

    // The queries a keyed message is generated for: those over keys, on domains that are powers of two.
    static ghost predicate Keyable(l: Layout, query: seq<nat>, isPoint: bool)
    {
      AskableByKeys(query, isPoint, l.blockNum * l.blockSize) && IsPow2(l.blockNum) && IsPow2(l.blockSize)
    }

    static lemma KeyableCompiles(l: Layout, query: seq<nat>, isPoint: bool)
      ensures Keyable(l, query, isPoint)
         <==> query != [] && (isPoint || |query| % 2 == 0) && AllCompilable(Intervals(query, isPoint), l, isPoint)
              && KeyableLayout(l)
    {
      hide AskableByKeys, IsPow2, Intervals, Compilable;
      AskableCompiles(query, isPoint, l);
      DomainIsPower(l.blockNum);
      DomainIsPower(l.blockSize);
    }

    lemma KeysAsk(items: Trio<seq<Primitive>>, id: string, l: Layout, query: seq<nat>, isPoint: bool)
      requires ValidLayout(l) && Keyable(l, query, isPoint) && AllCompilable(Intervals(query, isPoint), l, isPoint)
      requires FssBuilt(cipher, items, id, l, Emitted(FssLists(l, Intervals(query, isPoint), isPoint)))
      ensures AsksByKeys(cipher, items, l, query, isPoint)
    {
      hide FssLists, Emitted, Compilable, FssMasks, AllKeyed, FssBuilt, FilterPlain, KeyedCounts, AskableByKeys,
        Intervals, IsPow2, InDomain, GroupsFit, PredsOf, ItemsOf;
      var es := Emitted(FssLists(l, Intervals(query, isPoint), isPoint));
      var groups := MasksByPred(FssMasks(l, ItemsOf(es)), PredsOf(es));
      KeyableAsks(l, query, isPoint);
      FssKeyed(items, id, l, Intervals(query, isPoint), isPoint);
      NoBuckets(l);
      forall isAnd, buckets | InDomain(buckets, l)
        ensures GroupsFit(groups, l)
        ensures FilterPlain(isAnd, l, groups, buckets) == KeyedCounts(l, isAnd, query, isPoint, buckets)
      {
        KeyedCount(l, query, isPoint, isAnd, buckets);
      }
      assert KeysCountRows(groups, l, query, isPoint) by {
        KeyedCount(l, query, isPoint, true, []);
      }
    }

    static lemma KeyableAsks(l: Layout, query: seq<nat>, isPoint: bool)
      requires Keyable(l, query, isPoint)
      ensures Intervals(query, isPoint) != []
    {
    }

    // The guards of one predicate.
    static method CheckInterval(l: Layout, v: Interval, isPoint: bool) returns (r: Result<(), ClientError>)
      requires ValidLayout(l) && (isPoint ==> v.left == v.right)
      ensures r.Ok? <==> Compilable(v, l, isPoint)
    {
      if v.left >= Buckets(l) || v.right >= Buckets(l) { return Err(OutOfRange); }
      if isPoint { return Ok(()); }
      var last := Buckets(l) - 1;
      if v.left != 0 && v.right != last { return Err(NotSingleSided); }
      return Ok(());
    }

    /** The whole BOFSS query. On layouts with at least two blocks -- and, for points, at least two offsets
        -- the answer is the one the BO query gives; on the others the point keys open to nothing and the
        answer is zero. */
    method BOFSSAggQuery(aggId: string, id: string, isPoint: bool, isAnd: bool, query: seq<nat>,
                         ghost buckets: seq<nat>, ghost vals: seq<uint128>)
      returns (r: Result<uint128, ClientError>, ghost filter: Trio<Held>, ghost at: nat)
      requires Valid() && servers.Valid()
      requires id in boLayouts ==> servers.HoldsTable(id, boLayouts[id], buckets)
      requires servers.HoldsValues(aggId, vals) && |vals| <= |buckets|
      modifies `drawn, `seedsDrawn, servers`ops, servers.s0`prfCounter, servers.s0`multReceivedShares,
               servers.s1`prfCounter, servers.s1`multReceivedShares, servers.s2`prfCounter,
               servers.s2`multReceivedShares
      ensures servers.Valid()
      ensures r.Ok? <==> id in boLayouts && Keyable(boLayouts[id], query, isPoint)
      ensures r.Ok? ==>
        r.value == KeyedAnswer(boLayouts[id], isAnd, query, isPoint, buckets, vals)
      ensures r.Ok? ==> Recombined(servers, r.value, aggId, filter, at)
    {
      filter, at := *, 0;
      hide Cluster.Valid, Cluster.Result, Cluster.HoldsTable, Cluster.HoldsValues, FromAnswers, WeightedSum,
        StandsFor, KeyedCounts, Keyable, KeyedAnswer;
      var eval;
      eval, at := FilterByKeys(id, isPoint, isAnd, query, buckets);
      if eval.Err? { r := Err(eval.error); return; }
      filter := eval.value;
      ghost var l := boLayouts[id];
      var ret := SumUp(aggId, eval.value, vals, |buckets|, KeyedCounts(l, isAnd, query, isPoint, buckets));
      KeyedSum(l, isAnd, query, isPoint, buckets, vals);
      r := Ok(ret);
    }

    // A result of the servers' operations that stands for what every row counts.
    ghost predicate HoldsCounts(h: Trio<Held>, at: nat, counts: seq<int>)
      reads servers`ops, servers.s0`prfKey0, servers.s1`prfKey0, servers.s2`prfKey0
    {
      StandsFor(h, |counts|, counts) && servers.Result(at, h)
    }

    // Keys out, evaluated and combined at the servers: a filter that weighs every row as the query does, with
    // unsupported intervals read as empty.
    method FilterByKeys(id: string, isPoint: bool, isAnd: bool, query: seq<nat>, ghost buckets: seq<nat>)
      returns (r: Result<Trio<Held>, ClientError>, ghost at: nat)
      requires Valid() && servers.Valid()
      requires id in boLayouts ==> servers.HoldsTable(id, boLayouts[id], buckets)
      modifies `drawn, `seedsDrawn, servers`ops, servers.s0`prfCounter, servers.s0`multReceivedShares,
               servers.s1`prfCounter, servers.s1`multReceivedShares, servers.s2`prfCounter,
               servers.s2`multReceivedShares
      ensures servers.Valid()
      ensures r.Ok? <==> id in boLayouts && Keyable(boLayouts[id], query, isPoint)
      ensures r.Ok? ==> HoldsCounts(r.value, at, KeyedCounts(boLayouts[id], isAnd, query, isPoint, buckets))
    {
      at := 0;
      hide Cluster.Valid, Cluster.Result, Cluster.HoldsTable, Weights, Emitted, Intervals, FssLists,
        Supported, StandsFor, Effective, FssBuilt, AllCompilable, Buckets, Keyable, KeyedCounts, AsksByKeys,
        InDomain, HoldsCounts;
      var gen := GenerateCombinedBOFSSFilter(id, query, isPoint);
      if gen.Err? { r := Err(gen.error); return; }
      ghost var l := boLayouts[id];
      KeyableAsks(l, query, isPoint);
      KeyedWeights(l, isAnd, query, isPoint, buckets);
      var h;
      h, at := SendKeys(gen.value, id, isPoint, isAnd, l, Intervals(query, isPoint), buckets);
      r := Ok(h);
    }

    // The servers regroup, evaluate and combine the primitives of a query.
    method SendKeys(items: Trio<seq<Primitive>>, id: string, isPoint: bool, isAnd: bool, ghost l: Layout,
                    ghost vs: seq<Interval>, ghost buckets: seq<nat>)
      returns (h: Trio<Held>, ghost at: nat)
      requires servers.Valid() && servers.HoldsTable(id, l, buckets)
      requires AllCompilable(vs, l, isPoint) && vs != []
      requires FssBuilt(cipher, items, id, l, Emitted(FssLists(l, vs, isPoint)))
      modifies servers`ops, servers.s0`prfCounter, servers.s0`multReceivedShares, servers.s1`prfCounter,
               servers.s1`multReceivedShares, servers.s2`prfCounter, servers.s2`multReceivedShares
      ensures servers.Valid() && HoldsCounts(h, at, Weights(isAnd, Effective(vs, Supported(l, isPoint)), buckets))
    {
      hide Cluster.Valid, Cluster.Result, Cluster.HoldsTable, QueryServer.Metas, AllKeyed, FilterValue, Weights,
        Acceptable,
        Emitted, FssLists, Supported, FssMasks, StandsFor, Effective, FssBuilt, Compilable, Buckets;
      TableIsThere(id, l, buckets);
      ghost var es := Emitted(FssLists(l, vs, isPoint));
      ghost var groups := MasksByPred(FssMasks(l, ItemsOf(es)), PredsOf(es));
      FssSent(items, id, l, vs, isPoint, servers.s0.Metas(), servers.s1.Metas(), servers.s2.Metas());
      var eval;
      eval, at := servers.BOFSSEvalFilter(cipher, isAnd, items, l, buckets, groups);
      h := eval.value;
      FssWeighs(h, l, vs, isPoint, isAnd, buckets);
    }

    // What holding a table means to the client.
    lemma TableIsThere(id: string, l: Layout, buckets: seq<nat>)
      requires servers.HoldsTable(id, l, buckets)
      ensures ValidLayout(l) && InDomain(buckets, l)
      ensures id in servers.s0.boTables && id in servers.s1.boTables && id in servers.s2.boTables
      ensures servers.s0.boTables[id].layout == l && servers.s1.boTables[id].layout == l
              && servers.s2.boTables[id].layout == l
      ensures id in servers.s0.Metas() && id in servers.s1.Metas() && id in servers.s2.Metas()
      ensures servers.s0.Metas()[id] == servers.s1.Metas()[id] == servers.s2.Metas()[id] == l
    {
      hide HoldsBuckets;
      HeldWindow(servers.Tables(id), l, buckets);
    }

    // The filter of a BOFSS query weighs every row as the query does, with unsupported intervals empty.
    static lemma FssWeighs(f: Trio<Held>, l: Layout, vs: seq<Interval>, isPoint: bool, isAnd: bool, buckets: seq<nat>)
      requires ValidLayout(l) && AllCompilable(vs, l, isPoint) && InDomain(buckets, l) && vs != []
      requires
        var es := Emitted(FssLists(l, vs, isPoint));
        FilterValue(f, isAnd, l, MasksByPred(FssMasks(l, ItemsOf(es)), PredsOf(es)), buckets)
      ensures StandsFor(f, |buckets|, Weights(isAnd, Effective(vs, Supported(l, isPoint)), buckets))
    {
      hide FssLists, Emitted, Compilable, FssMasks, FilterValue, Weights, StandsFor, Supported;
      var es := Emitted(FssLists(l, vs, isPoint));
      FssMeaning(l, vs, isPoint, isAnd, buckets);
      FilterValueStands(f, isAnd, l, MasksByPred(FssMasks(l, ItemsOf(es)), PredsOf(es)), buckets);
    }

    // The three messages of a query are accepted wherever the table is, and key every predicate.
    lemma FssSent(items: Trio<seq<Primitive>>, id: string, l: Layout, vs: seq<Interval>, isPoint: bool,
                  m0: map<string, Layout>, m1: map<string, Layout>, m2: map<string, Layout>)
      requires ValidLayout(l) && AllCompilable(vs, l, isPoint) && vs != []
      requires FssBuilt(cipher, items, id, l, Emitted(FssLists(l, vs, isPoint)))
      requires id in m0 && id in m1 && id in m2 && m0[id] == m1[id] == m2[id] == l
      ensures Acceptable(items.s0, m0) && Acceptable(items.s1, m1) && Acceptable(items.s2, m2) && items.s0[0].id == id
      ensures
        var es := Emitted(FssLists(l, vs, isPoint));
        AllKeyed(cipher, items, l, MasksByPred(FssMasks(l, ItemsOf(es)), PredsOf(es)))
    {
      hide FssLists, Emitted, Compilable, Positions, TagCount, Contiguous, Acceptable, AllKeyed, Alternating, LeafKeyed,
        FitsAll,
        Buckets, FssMasks;
      var es := Emitted(FssLists(l, vs, isPoint));
      EmittedContiguous(FssLists(l, vs, isPoint));
      SentFssIsAccepted(items.s0, PredsOf(es), id, l, m0);
      SentFssIsAccepted(items.s1, PredsOf(es), id, l, m1);
      SentFssIsAccepted(items.s2, PredsOf(es), id, l, m2);
      FssKeyed(items, id, l, vs, isPoint);
    }

    lemma FssKeyed(items: Trio<seq<Primitive>>, id: string, l: Layout, vs: seq<Interval>, isPoint: bool)
      requires ValidLayout(l) && AllCompilable(vs, l, isPoint) && vs != []
      requires FssBuilt(cipher, items, id, l, Emitted(FssLists(l, vs, isPoint)))
      ensures
        var es := Emitted(FssLists(l, vs, isPoint));
        AllKeyed(cipher, items, l, MasksByPred(FssMasks(l, ItemsOf(es)), PredsOf(es)))
    {
      hide FssLists, Emitted, Compilable, Positions, TagCount, Contiguous, AllKeyed, Alternating, LeafKeyed, FitsAll,
        Buckets, FssMasks;
      var es := Emitted(FssLists(l, vs, isPoint));
      EmittedContiguous(FssLists(l, vs, isPoint));
      EmittedIsKeyed(cipher, items, l, PredsOf(es), FssMasks(l, ItemsOf(es)));
    }
  }
}
