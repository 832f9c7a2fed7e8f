/** Whole sessions as the benchmark client runs them: a value list and a table are uploaded to three fresh
    servers, then queries of every kind are asked one after the other. */
module Sessions {
  import opened Arith
  import opened Bits
  import opened Blocks
  import opened SeedTree
  import opened Results
  import opened Rss
  import opened Answers
  import opened TreeShape
  import opened TreeValues
  import SA = SharedAppend
  import C = Cluster
  import QC = QueryClient

  // What a session starts from: the servers' keys and pseudorandom function, the client's ciphers and
  // generators -- all arbitrary.
  datatype Randomness = Randomness(prf: Prf, k0: uint64, k1: uint64, k2: uint64, aes: Cipher,
                                   words: nat -> uint64, seeds: nat -> Pair)

  method Setup(rand: Randomness, vals: seq<uint128>, buckets: seq<nat>, numBuckets: uint32, logBlockNum: nat)
    returns (client: QC.QueryClient)
    requires |vals| == |buckets| && logBlockNum < 31 && numBuckets > 0 && numBuckets % Pow2(logBlockNum) == 0
    requires forall i :: 0 <= i < |buckets| ==> buckets[i] < numBuckets
    ensures fresh(client) && fresh(client.servers) && fresh(client.servers.s0) && fresh(client.servers.s1)
            && fresh(client.servers.s2)
    ensures Ready(client, vals, buckets, numBuckets, logBlockNum)
  {
    hide C.Cluster.Valid, C.Cluster.HoldsTable, C.Cluster.HoldsValues;
    var cluster := new C.Cluster(rand.prf, rand.k0, rand.k1, rand.k2);
    client := new QC.QueryClient(cluster, rand.aes, rand.words, rand.seeds);
    client.AddValList("vals", |vals|, vals);
    assert vals[..|vals|] == vals && buckets[..|buckets|] == buckets;
    var r := client.AddBOTable("tbl", |buckets|, numBuckets, logBlockNum, buckets);
  }

  // What a client that has uploaded a table and a value list can count on between two queries.
  ghost predicate Ready(client: QC.QueryClient, vals: seq<uint128>, buckets: seq<nat>, numBuckets: nat,
                        logBlockNum: nat)
    reads client, client.servers, client.servers.s0, client.servers.s1, client.servers.s2
  {
    && client.Valid() && client.servers.Valid() && "tbl" in client.boLayouts
    && client.boLayouts["tbl"].blockNum == Pow2(logBlockNum)
    && client.boLayouts["tbl"].blockSize * Pow2(logBlockNum) == numBuckets
    && client.servers.HoldsTable("tbl", client.boLayouts["tbl"], buckets) && client.servers.HoldsValues("vals", vals)
  }

  // A query of either kind: over materialized vectors or over keys, points or intervals, AND or OR.
  datatype Query = Query(keyed: bool, isPoint: bool, isAnd: bool, bounds: seq<nat>)

  // What a query must come back with: an error exactly where its numbers, or for keys the number of buckets,
  // are not such as can be asked; and otherwise what the rows' values add up to -- but for keys with a single
  // block, or for points over keys with blocks of a single bucket, which come back with 0.
  ghost predicate AnsweredAs(r: Result<uint128, QC.ClientError>, numBuckets: nat, logBlockNum: nat, q: Query,
                             vals: seq<uint128>, buckets: seq<nat>)
    requires |vals| == |buckets|
  {
    && (r.Ok? <==> if q.keyed then AskableByKeys(q.bounds, q.isPoint, numBuckets) && IsPow2(numBuckets)
                   else Askable(q.bounds, q.isPoint, numBuckets))
    && (r.Ok? ==>
          r.value == if q.keyed && (logBlockNum == 0 || (q.isPoint && numBuckets == Pow2(logBlockNum))) then 0
                     else Answer(q.isAnd, q.bounds, q.isPoint, buckets, vals, |vals|) % M)
  }

  // One query.
  method Ask(client: QC.QueryClient, vals: seq<uint128>, buckets: seq<nat>, q: Query, ghost numBuckets: nat,
             ghost logBlockNum: nat)
    returns (r: Result<uint128, QC.ClientError>, ghost filter: Trio<Held>, ghost at: nat)
    requires Ready(client, vals, buckets, numBuckets, logBlockNum) && |vals| == |buckets| && numBuckets > 0
    modifies client`drawn, client`seedsDrawn, client.servers`ops, client.servers.s0`prfCounter,
             client.servers.s0`multReceivedShares, client.servers.s1`prfCounter, client.servers.s1`multReceivedShares,
             client.servers.s2`prfCounter, client.servers.s2`multReceivedShares
    ensures Ready(client, vals, buckets, numBuckets, logBlockNum)
    ensures AnsweredAs(r, numBuckets, logBlockNum, q, vals, buckets)
    ensures r.Ok? ==> QC.Recombined(client.servers, r.value, "vals", filter, at)
  {
    hide Askable, AskableByKeys, IsPow2, Answer, Pow2, QC.Recombined, C.Cluster.Valid, C.Cluster.HoldsTable,
      C.Cluster.HoldsValues;
    if q.keyed {
      ghost var l := client.boLayouts["tbl"];
      LayoutNumbers(l.blockNum, l.blockSize, numBuckets, logBlockNum);
      r, filter, at := client.BOFSSAggQuery("vals", "tbl", q.isPoint, q.isAnd, q.bounds, buckets, vals);
    } else {
      r, filter, at := client.BOAggQuery("vals", "tbl", q.isPoint, q.isAnd, q.bounds, buckets, vals);
    }
  }

  // What the two sizes of a layout say in terms of the table's parameters.
  lemma LayoutNumbers(blockNum: nat, blockSize: nat, numBuckets: nat, logBlockNum: nat)
    requires numBuckets > 0 && blockNum == Pow2(logBlockNum) && blockSize * Pow2(logBlockNum) == numBuckets
    ensures IsPow2(blockNum) && (IsPow2(blockSize) <==> IsPow2(numBuckets))
    ensures (blockNum == 1 <==> logBlockNum == 0) && (blockSize == 1 <==> numBuckets == Pow2(logBlockNum))
  {
    FactorOfPower(blockSize, logBlockNum);
    OnlyOne(blockSize, Pow2(logBlockNum));
  }

  lemma OnlyOne(a: nat, p: nat)
    requires p > 0
    ensures a * p == p <==> a == 1
  {
  }

  lemma Doubled(a: nat, p: nat)
    ensures a * (2 * p) == 2 * (a * p)
  {
  }

  lemma {:induction false} FactorOfPower(a: nat, k: nat)
    requires a > 0
    ensures IsPow2(a) <==> IsPow2(a * Pow2(k))
  {
    if k > 0 {
      FactorOfPower(a, k - 1);
      Doubled(a, Pow2(k - 1));
      TwiceAPower(a * Pow2(k - 1));
    }
  }

  lemma TwiceAPower(n: nat)
    requires n > 0
    ensures IsPow2(n) <==> IsPow2(2 * n)
  {
    if IsPow2(n) {
      var e: nat :| n == Pow2(e);
      assert 2 * n == Pow2(e + 1);
    }
    if IsPow2(2 * n) {
      var e: nat :| 2 * n == Pow2(e);
      assert n == Pow2(e - 1);
    }
  }

  /** A whole session: fresh servers, one upload, then any queries of any kinds in any order, refused ones
      among them. Each comes back as stated, whatever was asked before it. */
  method QuerySession(rand: Randomness, vals: seq<uint128>, buckets: seq<nat>, numBuckets: uint32, logBlockNum: nat,
                      queries: seq<Query>)
    returns (answers: seq<Result<uint128, QC.ClientError>>)
    requires |vals| == |buckets| && logBlockNum < 31 && numBuckets > 0 && numBuckets % Pow2(logBlockNum) == 0
    requires forall i :: 0 <= i < |buckets| ==> buckets[i] < numBuckets
    ensures |answers| == |queries|
    ensures forall i :: 0 <= i < |queries| ==>
              AnsweredAs(answers[i], numBuckets, logBlockNum, queries[i], vals, buckets)
  {
    hide AnsweredAs, Ready;
    var client := Setup(rand, vals, buckets, numBuckets, logBlockNum);
    answers := [];
    var i := 0;
    while i < |queries|
      invariant 0 <= i <= |queries| && |answers| == i
      invariant Ready(client, vals, buckets, numBuckets, logBlockNum)
      invariant forall k :: 0 <= k < i ==>
                  AnsweredAs(answers[k], numBuckets, logBlockNum, queries[k], vals, buckets)
    {
      var answer;
      ghost var filter, at;
      answer, filter, at := Ask(client, vals, buckets, queries[i], numBuckets, logBlockNum);
      answers := answers + [answer];
      i := i + 1;
    }
  }

  // The two trees every server keeps, empty.
  method SixEmptyTrees(maxDepth: nat, func: AggFunc) returns (trees: seq<SA.AggTreeIndexServer>)
    requires maxDepth >= 2
    ensures SA.Apart(trees) && fresh(SA.Objects(trees))
    ensures
      var e := PlainRun(maxDepth, func, []);
      SA.AllHold(trees, false, maxDepth, [], Trio(e, e, e))
  {
    hide PlainRun, SA.AggTreeIndexServer.Holds;
    trees := [];
    var i := 0;
    while i < 6
      invariant 0 <= i <= 6 && |trees| == i
      invariant forall k :: 0 <= k < i ==>
                  trees[k].Holds(false, maxDepth, [], PlainRun(maxDepth, func, [])) && fresh(trees[k].Repr)
      invariant forall j, k :: 0 <= j < k < i ==> trees[j].Repr !! trees[k].Repr
    {
      var t := new SA.AggTreeIndexServer(maxDepth, func);
      trees := trees + [t];
      i := i + 1;
    }
  }

  /** Appends over shares, from empty trees: recombining the three first trees' aggregates gives, at every
      node, the fold of the values below it. */
  method AppendSession(rand: Randomness, maxDepth: nat, func: AggFunc, idxs: seq<uint64>, vals: seq<uint128>)
    returns (trees: seq<SA.AggTreeIndexServer>, ghost s: Trio<seq<uint128>>)
    requires maxDepth >= 2 && |idxs| == |vals| <= First(maxDepth) + 1
    ensures SA.AllHold(trees, false, maxDepth, SA.Indices(idxs), s)
    ensures forall t :: t in trees ==>
              |t.tree.keys| == |idxs|
              && ((forall i :: 0 <= i < |idxs| ==> t.tree.keys[i] == idxs[i]) <==> SA.Small(idxs))
    ensures |s.s0| == |s.s1| == |s.s2| == First(maxDepth) + |vals|
    ensures forall h :: 0 <= h < |s.s0| ==>
              SA.CombineWord(s.s0[h], s.s1[h], s.s2[h]) == FoldAgg(func, Below(maxDepth, vals, h))
  {
    hide First, PlainRun, SA.Small, SA.AllHold, SA.Apart, SA.Indices, SA.CombineWord, FoldAgg, Below, SA.SharedValue;
    var cluster := new C.Cluster(rand.prf, rand.k0, rand.k1, rand.k2);
    var client := new QC.QueryClient(cluster, rand.aes, rand.words, rand.seeds);
    trees := SixEmptyTrees(maxDepth, func);
    s := SA.AppendAll(client, trees, func, idxs, vals, maxDepth);
    forall h | 0 <= h < |s.s0|
      ensures SA.CombineWord(s.s0[h], s.s1[h], s.s2[h]) == FoldAgg(func, Below(maxDepth, vals, h))
    {
      SA.SharesOpenToFolds(maxDepth, func, vals, s, h);
    }
  }
}
