/** The append protocol over shares (AggTree.cpp, AggTreeAppend of client.cpp): six server trees of one
    shape, their aggregates shares of the plaintext tree's. */
module SharedAppend {
  import opened Arith
  import opened Rss
  import opened Bits
  import opened TreeShape
  import opened TreeValues
  import opened AggTree
  import opened QC = QueryClient

  class AggTreeIndexServer {
    const tree: RootNode
    var nextFree: Node?
    // This object, its tree and the tree's nodes.
    ghost var Repr: set<object>

    // A tree of the given leaves and aggregates, either idle or waiting for the new aggregates of the path
    // it last returned.
    ghost predicate Holds(waiting: bool, maxDepth: nat, keys: seq<Key>, aggs: seq<uint128>)
      reads this, Repr
    {
      && this in Repr && tree in Repr && (forall n :: n in tree.at ==> n in Repr)
      && tree.Valid() && tree.maxDepth == maxDepth && tree.keys == keys && tree.aggs == aggs
      && if !waiting then nextFree == null
         else |keys| <= First(maxDepth) && nextFree == tree.at[(First(maxDepth) + |keys| - 1) / 2]
    }

    constructor (depth: nat, func: AggFunc)
      requires depth >= 2
      ensures Holds(false, depth, [], PlainRun(depth, func, [])) && fresh(Repr)
    {
      tree := new RootNode(depth, func);
      nextFree := null;
      new;
      Repr := {this, tree} + set n | n in tree.at;
    }

    /** Remembers where the next leaf goes and returns the aggregates of its path. */
    method GetAppendPath(ghost maxDepth: nat, ghost keys: seq<Key>, ghost aggs: seq<uint128>)
      returns (parents: seq<uint128>)
      requires Holds(false, maxDepth, keys, aggs) && |keys| <= First(maxDepth)
      modifies Repr
      ensures Holds(true, maxDepth, keys, aggs) && Repr == old(Repr) && this in Repr
              && PathList(maxDepth, aggs, parents)
    {
      hide First, PathList;
      var free, full := tree.GetAppendParent();
      parents := tree.ReadPath(free);
      nextFree := free;
    }

    /** Appends the leaf and its path's new aggregates. */
    method FinishAppend(idx: uint32, newAggVals: seq<uint128>, ghost maxDepth: nat, ghost keys: seq<Key>,
                        ghost aggs: seq<uint128>)
      requires Holds(true, maxDepth, keys, aggs) && |newAggVals| == maxDepth
      modifies Repr
      ensures |keys| <= First(maxDepth) && |aggs| == First(maxDepth) + |keys| && maxDepth >= 2
      ensures Holds(false, maxDepth, keys + [idx], PathAggs(maxDepth, aggs, newAggVals[0], newAggVals[1..]))
      ensures fresh(Repr - old(Repr)) && this in Repr
    {
      hide First, PathAggs, RootNode.Valid, RootNode.Indexed;
      tree.RootIsThere();
      tree.AppendFromParent(idx, newAggVals[0], nextFree, newAggVals[1..]);
      nextFree := null;
      Repr := Repr + set n | n in tree.at;
      assert forall n :: n in tree.at ==> n in old(tree.at) || n == tree.at[|old(tree.at)|];
    }
  }

  // ----- shares of a tree -----

  // One aggregate and its three shares: sentinels all over, or shares that sum to it, the first a 64-bit
  // word so that it never looks like the sentinel.
  ghost predicate SharedValue(empty: bool, plain: uint128, a: uint128, b: uint128, c: uint128)
  {
    if empty then plain == a == b == c == NO_VALUE
    else a < 0x1_0000_0000_0000_0000 && CongR(Sum3(a, b, c), plain)
  }

  // Shares of all aggregates of a tree of k leaves; node h is empty if its first leaf is missing.
  ghost predicate SharesTree(maxDepth: nat, k: nat, plain: seq<uint128>, s: Trio<seq<uint128>>)
    requires maxDepth >= 2
  {
    && k <= First(maxDepth) + 1 && |plain| == |s.s0| == |s.s1| == |s.s2| == First(maxDepth) + k
    && forall h :: 0 <= h < |plain| ==>
         SharedValue(Lo(First(maxDepth), h) >= k, plain[h], s.s0[h], s.s1[h], s.s2[h])
  }

  // combineArithmeticShares with ignoreNegOne.
  function CombineWord(a: uint128, b: uint128, c: uint128): uint128
  {
    if a == NO_VALUE then NO_VALUE else Sum3(a, b, c) % R
  }

  /** The sentinel test on the first share is exact: combining gives back the aggregate, sentinels and
      values that happen to equal the sentinel alike. */
  lemma CombineIsExact(empty: bool, plain: uint128, a: uint128, b: uint128, c: uint128)
    requires SharedValue(empty, plain, a, b, c)
    ensures CombineWord(a, b, c) == plain
    ensures a == NO_VALUE <==> empty
  {
    if !empty { CongRMod(Sum3(a, b, c), plain); }
  }

  // The shares after one append.
  ghost function NextShares(maxDepth: nat, s: Trio<seq<uint128>>, news: Trio<Vec>): Trio<seq<uint128>>
    requires maxDepth >= 2 && |news.s0| == |news.s1| == |news.s2| == maxDepth
    requires First(maxDepth) <= |s.s0| <= 2 * First(maxDepth) && |s.s0| == |s.s1| == |s.s2|
  {
    Trio(PathAggs(maxDepth, s.s0, news.s0[0], news.s0[1..]), PathAggs(maxDepth, s.s1, news.s1[0], news.s1[1..]),
         PathAggs(maxDepth, s.s2, news.s2[0], news.s2[1..]))
  }

  // Fresh shares of the new leaf and of its raised path.
  ghost predicate NewShares(maxDepth: nat, f: AggFunc, plain: seq<uint128>, val: uint128, news: Trio<Vec>)
    requires maxDepth >= 2
  {
    exists parents: seq<uint128> ::
      && PathList(maxDepth, plain, parents)
      && SharesOf(news, [val] + Raised(f, parents, val))
      && forall i :: 0 <= i < |news.s0| ==> news.s0[i] < 0x1_0000_0000_0000_0000
  }

  /** One append keeps shares shares: they now share the plaintext tree with the value appended. */
  lemma AppendShares(maxDepth: nat, f: AggFunc, k: nat, plain: seq<uint128>, val: uint128, s: Trio<seq<uint128>>,
                     news: Trio<Vec>)
    requires maxDepth >= 2 && k <= First(maxDepth) && SharesTree(maxDepth, k, plain, s)
    requires NewShares(maxDepth, f, plain, val, news) && |news.s0| == |news.s1| == |news.s2| == maxDepth
    ensures SharesTree(maxDepth, k + 1, PlainAggs(f, plain, val), NextShares(maxDepth, s, news))
  {
    hide First, OnPath, ComputeAggregate, Lo, DepthOf, SharedValue;
    var parents: seq<uint128> :|
      && PathList(maxDepth, plain, parents)
      && SharesOf(news, [val] + Raised(f, parents, val))
      && forall i :: 0 <= i < |news.s0| ==> news.s0[i] < 0x1_0000_0000_0000_0000;
    var raised := Raised(f, parents, val);
    PathRaised(maxDepth, f, plain, val, parents);
    PathIsPlain(maxDepth, f, plain, val, raised);
    var out := NextShares(maxDepth, s, news);
    forall h | 0 <= h <= |plain|
      ensures SharedValue(Lo(First(maxDepth), h) >= k + 1, PlainAggs(f, plain, val)[h], out.s0[h], out.s1[h], out.s2[h])
    {
      AppendShareAt(maxDepth, k, plain, val, raised, s, news, h);
    }
  }

  lemma AppendShareAt(maxDepth: nat, k: nat, plain: seq<uint128>, val: uint128, raised: seq<uint128>,
                      s: Trio<seq<uint128>>, news: Trio<Vec>, h: nat)
    requires maxDepth >= 2 && k <= First(maxDepth) && SharesTree(maxDepth, k, plain, s) && h <= |plain|
    requires |raised| == maxDepth - 1 && |news.s0| == |news.s1| == |news.s2| == maxDepth
    requires SharesOf(news, [val] + raised) && forall i :: 0 <= i < |news.s0| ==> news.s0[i] < 0x1_0000_0000_0000_0000
    ensures
      var out := NextShares(maxDepth, s, news);
      SharedValue(Lo(First(maxDepth), h) >= k + 1, PathAggs(maxDepth, plain, val, raised)[h], out.s0[h], out.s1[h],
                  out.s2[h])
  {
    hide First, OnPath, DepthOf, CongR;
    var n := |plain|;
    UnderIsOnPath(maxDepth, h, k);
    if h == n {
      assert CongR(Sum3(news.s0[0], news.s1[0], news.s2[0]), ([val] + raised)[0]);
    } else if OnPath(n, h) {
      LeafDepth(maxDepth, n);
      PathDepth(n, h);
      var i := maxDepth - 2 - DepthOf(h);
      assert CongR(Sum3(news.s0[i + 1], news.s1[i + 1], news.s2[i + 1]), ([val] + raised)[i + 1]);
      assert news.s0[1..][i] == news.s0[i + 1];
    } else {
      Nonempty(maxDepth, h);
    }
  }

  // ----- the six trees -----

  // Trees 2 i and 2 i + 1 are the first and the second tree of server i: they hold share i and share i + 1.
  function ShareIndex(i: nat): (j: nat)
    ensures j < 3
  {
    (i / 2 + i % 2) % 3
  }

  // Six trees that share no object.
  ghost predicate Apart(trees: seq<AggTreeIndexServer>)
    reads trees`Repr
  {
    |trees| == 6 && forall i, j :: 0 <= i < j < 6 ==> trees[i].Repr !! trees[j].Repr
  }

  ghost function Objects(trees: seq<AggTreeIndexServer>): set<object>
    reads trees`Repr
  {
    set t, o | t in trees && o in t.Repr :: o
  }

  // Six trees of one shape whose aggregates are the six copies of three shares.
  ghost predicate AllHold(trees: seq<AggTreeIndexServer>, waiting: bool, maxDepth: nat, keys: seq<Key>,
                          s: Trio<seq<uint128>>)
    reads trees, Objects(trees)
  {
    && |trees| == 6
    && forall i :: 0 <= i < 6 ==>
         assert forall o :: o in trees[i].Repr ==> o in Objects(trees);
         trees[i].Holds(waiting, maxDepth, keys, Share(s, ShareIndex(i)))
  }

  // Appending to the shares is appending to each of them.
  lemma ShareOfNext(maxDepth: nat, s: Trio<seq<uint128>>, news: Trio<Vec>, j: nat)
    requires maxDepth >= 2 && |news.s0| == |news.s1| == |news.s2| == maxDepth && j < 3
    requires First(maxDepth) <= |s.s0| <= 2 * First(maxDepth) && |s.s0| == |s.s1| == |s.s2|
    ensures |Share(news, j)| == maxDepth && |Share(s, j)| == |s.s0|
    ensures Share(NextShares(maxDepth, s, news), j) == PathAggs(maxDepth, Share(s, j), Share(news, j)[0],
                                                                Share(news, j)[1..])
  {
    hide First, PathAggs;
  }

  ghost function Reprs(trees: seq<AggTreeIndexServer>): (r: seq<set<object>>)
    reads trees`Repr
    ensures |r| == |trees| && forall k :: 0 <= k < |trees| ==> r[k] == trees[k].Repr
  {
    if trees == [] then [] else Reprs(trees[..|trees| - 1]) + [trees[|trees| - 1].Repr]
  }

  // One tree grew by objects none of the others has.
  lemma StillApart(trees: seq<AggTreeIndexServer>, was: seq<set<object>>, i: nat)
    requires |trees| == |was| == 6 && i < 6
    requires forall a, b :: 0 <= a < b < 6 ==> was[a] !! was[b]
    requires forall k :: 0 <= k < 6 && k != i ==> trees[k].Repr == was[k]
    requires forall k :: 0 <= k < 6 && k != i ==> (trees[i].Repr - was[i]) !! was[k]
    ensures Apart(trees)
  {
    forall a, b | 0 <= a < b < 6 ensures trees[a].Repr !! trees[b].Repr {
      assert was[a] !! was[b];
    }
  }

  lemma SelfOwned(trees: seq<AggTreeIndexServer>, waiting: bool, maxDepth: nat, keys: seq<Key>, s: Trio<seq<uint128>>)
    requires AllHold(trees, waiting, maxDepth, keys, s)
    ensures forall k :: 0 <= k < 6 ==> trees[k] in trees[k].Repr
  {
    hide RootNode.Valid;
  }

  // The first round so far: the first i trees have reported their paths and wait.
  ghost predicate Collecting(trees: seq<AggTreeIndexServer>, i: nat, maxDepth: nat, keys: seq<Key>,
                             s: Trio<seq<uint128>>, paths: seq<seq<uint128>>)
    requires maxDepth >= 2
    reads trees, Objects(trees)
  {
    && Apart(trees) && (forall k :: 0 <= k < 6 ==> trees[k] in trees[k].Repr) && |paths| == i <= 6
    && (forall k :: 0 <= k < 6 ==> trees[k].Holds(k < i, maxDepth, keys, Share(s, ShareIndex(k))))
    && (forall k :: 0 <= k < i ==> PathList(maxDepth, Share(s, ShareIndex(k)), paths[k]))
  }

  // One tree reports its path.
  method CollectAt(trees: seq<AggTreeIndexServer>, i: nat, ghost maxDepth: nat, ghost keys: seq<Key>,
                   ghost s: Trio<seq<uint128>>, ghost paths: seq<seq<uint128>>)
    returns (path: seq<uint128>)
    requires i < 6 && maxDepth >= 2 && |keys| <= First(maxDepth) && Collecting(trees, i, maxDepth, keys, s, paths)
    modifies trees[i].Repr
    ensures Collecting(trees, i + 1, maxDepth, keys, s, paths + [path])
    ensures forall k :: 0 <= k < 6 ==> trees[k].Repr == old(trees[k].Repr)
  {
    hide First, PathList, ShareIndex, Share, AggTreeIndexServer.Holds;
    path := trees[i].GetAppendPath(maxDepth, keys, Share(s, ShareIndex(i)));
  }

  // First round: every server reports its path, from both of its trees.
  method CollectPaths(trees: seq<AggTreeIndexServer>, ghost maxDepth: nat, ghost keys: seq<Key>,
                      ghost s: Trio<seq<uint128>>)
    returns (paths: seq<seq<uint128>>)
    requires Apart(trees) && AllHold(trees, false, maxDepth, keys, s) && maxDepth >= 2 && |keys| <= First(maxDepth)
    modifies Objects(trees)
    ensures Apart(trees) && AllHold(trees, true, maxDepth, keys, s) && Objects(trees) == old(Objects(trees))
    ensures forall i :: 0 <= i < 6 ==> trees[i].Repr == old(trees[i].Repr)
    ensures |paths| == 6 && forall i :: 0 <= i < 6 ==> PathList(maxDepth, Share(s, ShareIndex(i)), paths[i])
  {
    hide First, PathList, ShareIndex, Share, AggTreeIndexServer.Holds;
    SelfOwned(trees, false, maxDepth, keys, s);
    paths := [];
    var i := 0;
    while i < 6
      invariant 0 <= i <= 6 && Collecting(trees, i, maxDepth, keys, s, paths)
      invariant forall k :: 0 <= k < 6 ==> trees[k].Repr == old(trees[k].Repr)
    {
      var path := CollectAt(trees, i, maxDepth, keys, s, paths);
      paths := paths + [path];
      i := i + 1;
    }
  }

  twostate lemma GrownObjects(trees: seq<AggTreeIndexServer>)
    requires forall i :: 0 <= i < |trees| ==> fresh(trees[i].Repr - old(trees[i].Repr))
    ensures fresh(Objects(trees) - old(Objects(trees)))
  {
    forall o | o in Objects(trees) && o !in old(Objects(trees)) ensures fresh(o) {
      var i :| 0 <= i < |trees| && o in trees[i].Repr;
      assert o !in old(trees[i].Repr);
    }
  }

  // The second round so far: the first i trees hold the new leaf, the others still wait for it.
  ghost predicate Finishing(trees: seq<AggTreeIndexServer>, i: nat, maxDepth: nat, keys: seq<Key>, idx: Key,
                            s: Trio<seq<uint128>>, next: Trio<seq<uint128>>)
    reads trees, Objects(trees)
  {
    && Apart(trees) && (forall k :: 0 <= k < 6 ==> trees[k] in trees[k].Repr)
    && (forall k :: 0 <= k < 6 && k < i ==> trees[k].Holds(false, maxDepth, keys + [idx], Share(next, ShareIndex(k))))
    && (forall k :: 0 <= k < 6 && k >= i ==> trees[k].Holds(true, maxDepth, keys, Share(s, ShareIndex(k))))
  }

  // One tree gets the leaf and its path's new shares.
  method FinishAt(trees: seq<AggTreeIndexServer>, i: nat, idx: uint32, news: Trio<Vec>, ghost maxDepth: nat,
                  ghost keys: seq<Key>, ghost s: Trio<seq<uint128>>)
    requires |news.s0| == |news.s1| == |news.s2| == maxDepth >= 2
    requires First(maxDepth) <= |s.s0| <= 2 * First(maxDepth) && |s.s0| == |s.s1| == |s.s2|
    requires i < 6 && Finishing(trees, i, maxDepth, keys, idx, s, NextShares(maxDepth, s, news))
    modifies trees[i].Repr
    ensures Finishing(trees, i + 1, maxDepth, keys, idx, s, NextShares(maxDepth, s, news))
    ensures fresh(trees[i].Repr - old(trees[i].Repr))
    ensures forall k :: 0 <= k < 6 && k != i ==> trees[k].Repr == old(trees[k].Repr)
  {
    hide First, PathAggs, ShareIndex, Share, NextShares, AggTreeIndexServer.Holds;
    ShareOfNext(maxDepth, s, news, ShareIndex(i));
    ghost var reprs := Reprs(trees);
    var t := trees[i];
    t.FinishAppend(idx, Share(news, ShareIndex(i)), maxDepth, keys, Share(s, ShareIndex(i)));
    StillApart(trees, reprs, i);
  }

  // Second round: every tree gets the leaf and its path's new shares.
  method FinishAll(trees: seq<AggTreeIndexServer>, idx: uint32, news: Trio<Vec>, ghost maxDepth: nat,
                   ghost keys: seq<Key>, ghost s: Trio<seq<uint128>>)
    requires Apart(trees) && AllHold(trees, true, maxDepth, keys, s)
    requires |news.s0| == |news.s1| == |news.s2| == maxDepth >= 2
    requires First(maxDepth) <= |s.s0| <= 2 * First(maxDepth) && |s.s0| == |s.s1| == |s.s2|
    modifies Objects(trees)
    ensures Apart(trees) && AllHold(trees, false, maxDepth, keys + [idx], NextShares(maxDepth, s, news))
    ensures forall i :: 0 <= i < 6 ==> fresh(trees[i].Repr - old(trees[i].Repr))
  {
    hide First, ShareIndex, Share, NextShares, AggTreeIndexServer.Holds;
    SelfOwned(trees, true, maxDepth, keys, s);
    var i := 0;
    while i < 6
      invariant 0 <= i <= 6 && Finishing(trees, i, maxDepth, keys, idx, s, NextShares(maxDepth, s, news))
      invariant forall k :: i <= k < 6 ==> trees[k].Repr == old(trees[k].Repr)
      invariant forall k :: 0 <= k < 6 ==> fresh(trees[k].Repr - old(trees[k].Repr))
    {
      FinishAt(trees, i, idx, news, maxDepth, keys, s);
      i := i + 1;
    }
  }

  // ----- the client's part -----

  // Combines the three servers' paths, minding the sentinel.
  method CombinePaths(p0: seq<uint128>, p1: seq<uint128>, p2: seq<uint128>) returns (parents: seq<uint128>)
    requires |p0| == |p1| == |p2|
    ensures |parents| == |p0| && forall i :: 0 <= i < |p0| ==> parents[i] == CombineWord(p0[i], p1[i], p2[i])
  {
    var vals := new uint128[|p0|](_ => 0);
    var i := 0;
    while i < |p0|
      invariant 0 <= i <= |p0|
      invariant forall k :: 0 <= k < i ==> vals[k] == CombineWord(p0[k], p1[k], p2[k])
    {
      if p0[i] == NO_VALUE {
        vals[i] := NO_VALUE;
      } else {
        vals[i] := Add(Add(Add(0, p0[i]), p1[i]), p2[i]);
        AddInOrder(p0[i], p1[i], p2[i]);
      }
      i := i + 1;
    }
    parents := vals[..];
  }

  lemma AddInOrder(a: uint128, b: uint128, c: uint128)
    ensures Add(Add(Add(0, a), b), c) == Sum3(a, b, c) % R
  {
    hide CongR, Add;
    var x: int, y: int, z: int := a, b, c;
    CongRRefl(0); CongRRefl(x); CongRRefl(y); CongRRefl(z);
    AddR(0, 0, a, x);
    AddR(Add(0, a), x, b, y);
    AddR(Add(Add(0, a), b), x + y, c, z);
    CongRMod(Add(Add(Add(0, a), b), c), x + y + z);
    WordIsReduced(Add(Add(Add(0, a), b), c));
  }

  lemma WordIsReduced(w: uint128)
    ensures w % R == w
  {
  }

  // The combined paths are the path of the plaintext tree.
  lemma CombinedPath(maxDepth: nat, k: nat, plain: seq<uint128>, s: Trio<seq<uint128>>, p0: seq<uint128>,
                     p1: seq<uint128>,
                     p2: seq<uint128>, parents: seq<uint128>)
    requires maxDepth >= 2 && SharesTree(maxDepth, k, plain, s)
    requires PathList(maxDepth, s.s0, p0) && PathList(maxDepth, s.s1, p1) && PathList(maxDepth, s.s2, p2)
    requires |parents| == |p0| && forall i :: 0 <= i < |p0| ==> parents[i] == CombineWord(p0[i], p1[i], p2[i])
    ensures PathList(maxDepth, plain, parents)
  {
    hide First, OnPath, DepthOf, Lo, SharedValue, CombineWord;
    forall h: nat | h < |plain| && OnPath(|plain|, h)
      ensures DepthOf(h) <= maxDepth - 2 && parents[maxDepth - 2 - DepthOf(h)] == plain[h]
    {
      CombineIsExact(Lo(First(maxDepth), h) >= k, plain[h], s.s0[h], s.s1[h], s.s2[h]);
    }
  }

  // propagateNewVal: the value, then every aggregate of the path with the value taken in.
  method PropagateNewVal(f: AggFunc, val: uint128, parents: seq<uint128>) returns (newAggVals: seq<uint128>)
    ensures newAggVals == [val] + Raised(f, parents, val)
  {
    hide ComputeAggregate;
    var n := |parents| + 1;
    var out := new uint128[n](_ => val);
    var i := 1;
    while i < n
      invariant 1 <= i <= n && out[0] == val
      invariant forall k :: 1 <= k < i ==> out[k] == ComputeAggregate(parents[k - 1], val, f)
    {
      out[i] := ComputeAggregate(parents[i - 1], val, f);
      i := i + 1;
    }
    newAggVals := out[..];
  }

  // The consistency check of the first round: both copies of every share report the same path.
  lemma CopiesAgree(maxDepth: nat, k: nat, plain: seq<uint128>, s: Trio<seq<uint128>>, paths: seq<seq<uint128>>, i: nat)
    requires maxDepth >= 2 && SharesTree(maxDepth, k, plain, s) && |paths| == 6 && i < 3 && k <= First(maxDepth)
    requires forall j :: 0 <= j < 6 ==> PathList(maxDepth, Share(s, ShareIndex(j)), paths[j])
    ensures paths[2 * ((i + 1) % 3)] == paths[2 * i + 1]
  {
    hide PathList, First, SharedValue;
    var a, b := 2 * ((i + 1) % 3), 2 * i + 1;
    assert ShareIndex(a) == ShareIndex(b);
    LeafDepth(maxDepth, |plain|);
    PathListUnique(maxDepth, Share(s, ShareIndex(a)), paths[a], paths[b]);
  }

  // The index as the servers keep it: 32 bits.
  function Truncated(idx: uint64): uint32 { idx % 0x1_0000_0000 }

  // The client's work between the two rounds: recombine the path, take the value in, share the result.
  method ShareNewPath(client: QueryClient, f: AggFunc, val: uint128, paths: seq<seq<uint128>>, ghost maxDepth: nat,
                      ghost k: nat,
                      ghost plain: seq<uint128>, ghost s: Trio<seq<uint128>>)
    returns (news: Trio<Vec>)
    requires maxDepth >= 2 && k <= First(maxDepth) && SharesTree(maxDepth, k, plain, s)
    requires |paths| == 6 && forall i :: 0 <= i < 6 ==> PathList(maxDepth, Share(s, ShareIndex(i)), paths[i])
    modifies client`drawn
    ensures |news.s0| == |news.s1| == |news.s2| == maxDepth && NewShares(maxDepth, f, plain, val, news)
  {
    hide First, PathList, SharesTree, SharesOf, NewShares, CombineWord;
    assert forall i :: 0 <= i < 3 ==> paths[2 * ((i + 1) % 3)] == paths[2 * i + 1] by {
      forall i | 0 <= i < 3 ensures paths[2 * ((i + 1) % 3)] == paths[2 * i + 1] {
        CopiesAgree(maxDepth, k, plain, s, paths, i);
      }
    }
    assert ShareIndex(0) == 0 && ShareIndex(2) == 1 && ShareIndex(4) == 2;
    PathListLength(maxDepth, s.s0, paths[0]);
    PathListLength(maxDepth, s.s1, paths[2]);
    PathListLength(maxDepth, s.s2, paths[4]);
    var parents := CombinePaths(paths[0], paths[2], paths[4]);
    CombinedPath(maxDepth, k, plain, s, paths[0], paths[2], paths[4], parents);
    var newAggVals := PropagateNewVal(f, val, parents);
    news := client.SplitIntoArithmeticShares(newAggVals);
    SharesLength(news, newAggVals);
    AreNewShares(maxDepth, f, plain, val, parents, news);
  }

  // Everything up to the second round: the trees wait, and the new shares are drawn.
  method FirstRound(client: QueryClient, trees: seq<AggTreeIndexServer>, f: AggFunc, val: uint128,
                    ghost maxDepth: nat, ghost keys: seq<Key>, ghost plain: seq<uint128>,
                    ghost s: Trio<seq<uint128>>)
    returns (news: Trio<Vec>)
    requires Apart(trees) && AllHold(trees, false, maxDepth, keys, s) && client !in Objects(trees)
    requires maxDepth >= 2 && |keys| <= First(maxDepth) && SharesTree(maxDepth, |keys|, plain, s)
    modifies client`drawn, Objects(trees)
    ensures Apart(trees) && AllHold(trees, true, maxDepth, keys, s) && Objects(trees) == old(Objects(trees))
    ensures forall i :: 0 <= i < |trees| ==> trees[i].Repr == old(trees[i].Repr)
    ensures |news.s0| == |news.s1| == |news.s2| == maxDepth && NewShares(maxDepth, f, plain, val, news)
  {
    hide First, PathList, AllHold, SharesTree, Apart, NewShares, Share, ShareIndex, AggTreeIndexServer.Holds;
    SixTrees(trees);
    var paths := CollectPaths(trees, maxDepth, keys, s);
    news := ShareNewPath(client, f, val, paths, maxDepth, |keys|, plain, s);
  }

  /** One append over shares: two rounds with the six trees. Afterwards they have one more leaf, all of one
      shape, and their aggregates share the plaintext tree with the value appended. The servers keep the
      index as a 32-bit word. */
  method AggTreeAppend(client: QueryClient, trees: seq<AggTreeIndexServer>, f: AggFunc, idx: uint64, val: uint128,
                       ghost maxDepth: nat, ghost keys: seq<Key>, ghost plain: seq<uint128>,
                       ghost s: Trio<seq<uint128>>)
    returns (ghost s': Trio<seq<uint128>>)
    requires Apart(trees) && AllHold(trees, false, maxDepth, keys, s) && client !in Objects(trees)
    requires maxDepth >= 2 && |keys| <= First(maxDepth) && SharesTree(maxDepth, |keys|, plain, s)
    modifies client`drawn, Objects(trees)
    ensures Apart(trees) && AllHold(trees, false, maxDepth, keys + [Truncated(idx)], s')
    ensures SharesTree(maxDepth, |keys| + 1, PlainAggs(f, plain, val), s')
    ensures fresh(Objects(trees) - old(Objects(trees))) && client !in Objects(trees)
  {
    hide First, PathList, AllHold, SharesTree, Apart, PlainAggs, NewShares, Share, Objects, NextShares, ShareIndex,
      Truncated, AggTreeIndexServer.Holds;
    SixTrees(trees);
    var news := FirstRound(client, trees, f, val, maxDepth, keys, plain, s);
    SharesTreeLength(maxDepth, |keys|, plain, s);
    AppendShares(maxDepth, f, |keys|, plain, val, s, news);
    s' := NextShares(maxDepth, s, news);
    FinishAll(trees, Truncated(idx), news, maxDepth, keys, s);
    GrownObjects(trees);
  }

  lemma SixTrees(trees: seq<AggTreeIndexServer>)
    requires Apart(trees)
    ensures |trees| == 6
  {
  }

  lemma AreNewShares(maxDepth: nat, f: AggFunc, plain: seq<uint128>, val: uint128, parents: seq<uint128>,
                     news: Trio<Vec>)
    requires maxDepth >= 2 && PathList(maxDepth, plain, parents) && SharesOf(news, [val] + Raised(f, parents, val))
    requires forall i :: 0 <= i < |news.s0| ==> news.s0[i] < 0x1_0000_0000_0000_0000
    ensures NewShares(maxDepth, f, plain, val, news)
  {
    hide PathList, SharesOf;
  }

  lemma SharesLength(s: Trio<Vec>, vals: Vec)
    requires SharesOf(s, vals)
    ensures |s.s0| == |s.s1| == |s.s2| == |vals|
  {
  }

  lemma SharesTreeLength(maxDepth: nat, k: nat, plain: seq<uint128>, s: Trio<seq<uint128>>)
    requires maxDepth >= 2 && SharesTree(maxDepth, k, plain, s) && k <= First(maxDepth)
    ensures First(maxDepth) <= |s.s0| <= 2 * First(maxDepth) && |s.s0| == |s.s1| == |s.s2|
  {
  }

  // Six empty trees share the empty plaintext tree.
  lemma EmptyShares(maxDepth: nat, f: AggFunc)
    requires maxDepth >= 2
    ensures
      var e := PlainRun(maxDepth, f, []);
      SharesTree(maxDepth, 0, e, Trio(e, e, e))
  {
    hide First, Lo;
  }

  function Indices(idxs: seq<uint64>): (ks: seq<Key>)
    ensures |ks| == |idxs|
  {
    seq<Key>(|idxs|, i requires 0 <= i < |idxs| => Truncated(idxs[i]))
  }

  lemma IndicesSnoc(idxs: seq<uint64>, i: nat)
    requires i < |idxs|
    ensures Indices(idxs[..i + 1]) == Indices(idxs[..i]) + [Truncated(idxs[i])]
  {
    hide Truncated;
  }

  // ----- what truncation does to the indices -----

  ghost predicate Small(idxs: seq<uint64>) { forall i :: 0 <= i < |idxs| ==> idxs[i] < 0x1_0000_0000 }

  ghost predicate Increasing(xs: seq<uint64>) { forall i, j :: 0 <= i < j < |xs| ==> xs[i] < xs[j] }

  /** The trees keep the indices that were sent if and only if every one of them fits in 32 bits. */
  lemma IndicesKeptIff(idxs: seq<uint64>)
    ensures (forall i :: 0 <= i < |idxs| ==> Indices(idxs)[i] == idxs[i]) <==> Small(idxs)
    ensures forall i :: 0 <= i < |idxs| ==> Indices(idxs)[i] == idxs[i] % 0x1_0000_0000
  {
    forall i | 0 <= i < |idxs| ensures Indices(idxs)[i] == idxs[i] <==> idxs[i] < 0x1_0000_0000 {
      KeptIff(idxs[i]);
    }
  }

  lemma KeptIff(idx: uint64)
    ensures Truncated(idx) == idx <==> idx < 0x1_0000_0000
  {
  }

  // An index of -1, as a 64-bit word, is kept as 2^32 - 1: neither what was sent nor the sentinel.
  lemma MinusOneIsKeptAs()
    ensures Truncated(0xFFFF_FFFF_FFFF_FFFF) == 0xFFFF_FFFF
  {
  }

  /** Small increasing indices keep their order, and every node that is full carries the first and the last
      index below it as they were sent, with all indices below it between them. */
  lemma FieldsAsSent(maxDepth: nat, idxs: seq<uint64>, h: nat)
    requires maxDepth >= 1 && h <= 2 * First(maxDepth) && Small(idxs) && Increasing(idxs)
    requires Hi(First(maxDepth), h) <= |idxs|
    ensures Increasing(Indices(idxs))
    ensures
      var f, n := First(maxDepth), FieldsOf(maxDepth, Indices(idxs), h);
      && Lo(f, h) < Hi(f, h) && n.left == idxs[Lo(f, h)] && n.right == idxs[Hi(f, h) - 1]
      && forall k :: Lo(f, h) <= k < Hi(f, h) ==> n.left <= idxs[k] <= n.right
  {
    hide First, Indices;
    Nonempty(maxDepth, h);
    IndicesKeptIff(idxs);
  }

  // One index above the limit is enough to lose both: the increasing indices 5 and 2^32 are kept as 5 and 0.
  lemma OrderIsLost()
    ensures
      var idxs: seq<uint64> := [5, 0x1_0000_0000];
      && Increasing(idxs) && !Increasing(Indices(idxs))
      && First(2) == 1 && FieldsOf(2, Indices(idxs), 0) == Fields(5, 0, 0)
  {
    var idxs: seq<uint64> := [5, 0x1_0000_0000];
    assert Truncated(idxs[0]) == 5 && Truncated(idxs[1]) == 0;
    assert Indices(idxs) == [5, 0] && Indices(idxs)[0] == 5 && Indices(idxs)[1] == 0;
    assert First(2) == 1 by { assert Pow2(1) == 2; }
    RootCovers(2);
  }

  /** Any number of appends within capacity, from empty trees: the six server trees have the shape of that
      many leaves, and their aggregates share those of the plaintext run. */
  method AppendAll(client: QueryClient, trees: seq<AggTreeIndexServer>, f: AggFunc, idxs: seq<uint64>,
                   vals: seq<uint128>,
                   ghost maxDepth: nat)
    returns (ghost s: Trio<seq<uint128>>)
    requires Apart(trees) && client !in Objects(trees) && maxDepth >= 2
    requires |idxs| == |vals| <= First(maxDepth) + 1
    requires
      var e := PlainRun(maxDepth, f, []);
      AllHold(trees, false, maxDepth, [], Trio(e, e, e))
    modifies client`drawn, Objects(trees)
    ensures Apart(trees) && AllHold(trees, false, maxDepth, Indices(idxs), s)
    ensures SharesTree(maxDepth, |vals|, PlainRun(maxDepth, f, vals), s)
    ensures |trees| == 6 && trees[0].tree.aggs == trees[5].tree.aggs == s.s0
            && trees[1].tree.aggs == trees[2].tree.aggs == s.s1 && trees[3].tree.aggs == trees[4].tree.aggs == s.s2
    ensures forall t :: t in trees ==>
              && |t.tree.keys| == |idxs| && t.tree.maxDepth >= 2 && t.tree.Indexed()
              && (forall i :: 0 <= i < |idxs| ==> t.tree.keys[i] == idxs[i] % 0x1_0000_0000)
              && ((forall i :: 0 <= i < |idxs| ==> t.tree.keys[i] == idxs[i]) <==> Small(idxs))
  {
    hide First, RootNode.Indexed, AllHold, SharesTree, Apart, PlainAggs, PlainRun, Indices, Truncated, Objects;
    ghost var e := PlainRun(maxDepth, f, []);
    s := Trio(e, e, e);
    EmptyShares(maxDepth, f);
    SixTrees(trees);
    var i := 0;
    assert vals[..0] == [] && idxs[..0] == [] && Indices([]) == [];
    while i < |vals|
      invariant 0 <= i <= |vals| && Apart(trees) && client !in Objects(trees)
      invariant AllHold(trees, false, maxDepth, Indices(idxs[..i]), s)
      invariant SharesTree(maxDepth, i, PlainRun(maxDepth, f, vals[..i]), s)
      invariant fresh(Objects(trees) - old(Objects(trees)))
    {
      ghost var before := Objects(trees);
      label Before:
      s := AggTreeAppend(client, trees, f, idxs[i], vals[i], maxDepth, Indices(idxs[..i]),
                         PlainRun(maxDepth, f, vals[..i]), s);
      forall o | o in Objects(trees) && o !in old(Objects(trees)) ensures fresh(o) {
        if o !in before { assert fresh@Before(o); }
      }
      PlainRunSnoc(maxDepth, f, vals, i);
      IndicesSnoc(idxs, i);
      i := i + 1;
    }
    assert vals[..i] == vals && idxs[..i] == idxs;
    IndicesKeptIff(idxs);
    KeysHeld(trees, maxDepth, Indices(idxs), s);
  }

  lemma KeysHeld(trees: seq<AggTreeIndexServer>, maxDepth: nat, keys: seq<Key>, s: Trio<seq<uint128>>)
    requires AllHold(trees, false, maxDepth, keys, s)
    ensures forall t :: t in trees ==> t.tree.keys == keys && t.tree.maxDepth >= 2 && t.tree.Indexed()
    ensures |trees| == 6 && trees[0].tree.aggs == trees[5].tree.aggs == s.s0
            && trees[1].tree.aggs == trees[2].tree.aggs == s.s1 && trees[3].tree.aggs == trees[4].tree.aggs == s.s2
  {
    hide RootNode.Valid, RootNode.Indexed;
    forall t | t in trees ensures t.tree.keys == keys && t.tree.maxDepth >= 2 && t.tree.Indexed() {
      t.tree.RootIsThere();
      t.tree.AllIndexed();
    }
  }

  /** What recombining the shares of any node gives, after any run: the fold of the values below it. */
  lemma SharesOpenToFolds(maxDepth: nat, f: AggFunc, vals: seq<uint128>, s: Trio<seq<uint128>>, h: nat)
    requires maxDepth >= 2 && |vals| <= First(maxDepth) + 1 && h < First(maxDepth) + |vals|
    requires SharesTree(maxDepth, |vals|, PlainRun(maxDepth, f, vals), s)
    ensures CombineWord(s.s0[h], s.s1[h], s.s2[h]) == FoldAgg(f, Below(maxDepth, vals, h))
  {
    hide First, PlainRun, Below, FoldAgg, CombineWord, Lo;
    RunIsFold(maxDepth, f, vals, h);
    CombineIsExact(Lo(First(maxDepth), h) >= |vals|, PlainRun(maxDepth, f, vals)[h], s.s0[h], s.s1[h], s.s2[h]);
  }
}
