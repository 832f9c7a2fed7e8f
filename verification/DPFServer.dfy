/** evalOneDPF and the recursive evaluation of a range, which writes a result buffer. */
module DPFServer {
  import opened Arith
  import opened Bits
  import opened Blocks
  import opened SeedTree
  import opened Shares
  import opened DPF
  import opened Ranges

  method EvalOneDPF(c: Cipher, idx: uint128, key: Key, depth: nat, party: bool) returns (res: uint128)
    requires |key.k| == depth + 1
    ensures res == Eval(c, key, party, PathOf(idx / 128, depth))
  {
    hide Traverse, Term, Convert, BitAt;
    var kIdx := idx / 128;
    var s := key.k[0];
    var i := 0;
    while i < depth
      invariant 0 <= i <= depth
      invariant s == StateAt(c, key.k, PathOf(kIdx, depth), i)
    {
      var keep := BitAt(kIdx, depth - 1 - i);
      s := Traverse(c, s, key.k[i + 1], keep);
      i := i + 1;
    }
    res := LeafShare(party, s, key.g);
  }

  // What the leaves of a call evaluate to.
  ghost function Leaves(c: Cipher, key: Key, party: bool, path: seq<bool>, start: nat, e: nat,
                        depth: nat): (v: seq<uint128>)
    requires |key.k| == depth + 1 && |path| <= depth
    ensures |v| == Pow2(e)
  {
    seq<uint128>(Pow2(e), j requires 0 <= j < Pow2(e) => Eval(c, key, party, Walk(path, start, e, depth, |path|, j)))
  }

  // One level: the next state, and what it amounts to at a leaf.
  lemma OneLevel(c: Cipher, key: Key, party: bool, path: seq<bool>, keep: bool)
    requires |key.k| > 0 && |path| + 1 < |key.k|
    ensures
      var i, path' := |path|, path + [keep];
      var s' := Traverse(c, StateAt(c, key.k, path, i), key.k[i + 1], keep);
      && s' == StateAt(c, key.k, path', i + 1)
      && Eval(c, key, party, path') == LeafShare(party, s', key.g)
  {
    hide Traverse, LeafShare;
    var path' := path + [keep];
    StateOfPrefix(c, key.k, path', path, |path|);
  }

  // The leaves of a call are those of its one or two children.
  lemma LeavesSplit(c: Cipher, key: Key, party: bool, path: seq<bool>, start: nat, e: nat, depth: nat)
    requires |key.k| == depth + 1 && |path| < depth
    ensures
      var path' := path + [BitAt(start, depth - 1 - |path|)];
      Leaves(c, key, party, path, start, e, depth)
      == if e == 0 then Leaves(c, key, party, path', start, 0, depth)
         else Leaves(c, key, party, path', start, e - 1, depth)
              + Leaves(c, key, party, path', start + Pow2(e - 1), e - 1, depth)
  {
    hide Eval, BitAt, Walk;
    forall j: nat | j < Pow2(e) {
      WalkSplits(path, start, e, depth, |path|, j);
    }
  }

  lemma LastLeaf(c: Cipher, key: Key, party: bool, path: seq<bool>, start: nat, depth: nat)
    requires |key.k| == depth + 1 && |path| == depth
    ensures Leaves(c, key, party, path, start, 0, depth) == [Eval(c, key, party, path)]
  {
    hide Eval;
    assert Walk(path, start, 0, depth, depth, 0) == path;
  }

  // The leaves of a whole range.
  ghost function RangeLeaves(c: Cipher, key: Key, party: bool, start: nat, e: nat, depth: nat): (v: seq<uint128>)
    requires |key.k| == depth + 1
    ensures |v| == Pow2(e)
  {
    seq<uint128>(Pow2(e), j requires 0 <= j < Pow2(e) => Eval(c, key, party, RangePath(start, e, depth, j)))
  }

  lemma RangeSplit(c: Cipher, key: Key, party: bool, start: nat, e: nat, depth: nat)
    requires |key.k| == depth + 1
    ensures RangeLeaves(c, key, party, start, e, depth)
         == if e == 0 then Leaves(c, key, party, [], start, 0, depth)
            else Leaves(c, key, party, [], start, e - 1, depth)
                 + Leaves(c, key, party, [], start + Pow2(e - 1), e - 1, depth)
  {
    hide Eval, Steps;
    forall j: nat | j < Pow2(e) {
      EmptyPath(start, e, depth, j);
    }
  }

  /** The recursion below one node: s is the state reached along `path`, `range` the number of leaves
      still to be split off. Its leaves go to res[off..off + Width(range)), and nothing else changes. */
  method ContigEvalOneDPFLarge(res: array<uint128>, off: nat, c: Cipher, key: Key, s: Block, depth: nat,
                               curDepth: nat, start: nat, range: nat, end: nat, party: bool,
                               ghost e: nat, ghost path: seq<bool>)
    requires |key.k| == depth + 1 && |path| + 1 == curDepth
    requires curDepth <= depth ==>
      && Width(range) == Pow2(e) && e <= depth - curDepth && start + Width(range) - 1 <= end
      && off + Width(range) <= res.Length
      && s == StateAt(c, key.k, path, curDepth - 1)
    modifies res
    ensures curDepth > depth ==> res[..] == old(res[..])
    ensures curDepth <= depth ==> res[..] == Written(old(res[..]), off, Leaves(c, key, party, path, start, e, depth))
    decreases depth + 1 - curDepth
  {
    hide Traverse, LeafShare, BitAt, Leaves, StateAt, Eval, Written;
    if start > end { return; }
    if curDepth > depth { return; }
    var keep := BitAt(start, depth - curDepth);
    var s' := Traverse(c, s, key.k[curDepth], keep);
    ghost var path', was := path + [keep], res[..];
    OneLevel(c, key, party, path, keep);
    LeavesSplit(c, key, party, path, start, e, depth);
    if range > 1 { HalfOf(range, e); }
    if curDepth == depth {
      res[off] := LeafShare(party, s', key.g);
      LastLeaf(c, key, party, path', start, depth);
      assert res[..] == Written(was, off, Leaves(c, key, party, path', start, 0, depth)) by { OneCell(was, off,
                 res[off]); }
    }
    // left child, then right child
    ContigEvalOneDPFLarge(res, off, c, key, s', depth, curDepth + 1, start, range / 2, end, party,
                          if range > 1 then e - 1 else e, path');
    if range > 1 {
      WrittenTwice(was, off, Leaves(c, key, party, path', start, e - 1, depth),
                   Leaves(c, key, party, path', start + range / 2, e - 1, depth));
      ContigEvalOneDPFLarge(res, off + range / 2, c, key, s', depth, curDepth + 1, start + range / 2, range / 2,
                            end, party, e - 1, path');
    }
  }

  /** Evaluates the range [start, end], whose length is a power of two no larger than the tree: cell j
      receives the leaf of the j-th range path, which for a range aligned to its size is leaf start + j. A
      tree of depth zero has no level to walk: nothing is written. */
  method ContigDomainDPFLargeOutOptimized(res: array<uint128>, off: nat, c: Cipher, key: Key, depth: nat,
                                          start: nat, end: nat, party: bool, ghost e: nat)
    requires |key.k| == depth + 1
    requires start <= end && end - start + 1 == Pow2(e) && (depth > 0 ==> e <= depth)
    requires off + (end - start + 1) <= res.Length
    modifies res
    ensures depth == 0 ==> res[..] == old(res[..])
    ensures depth > 0 ==>
      forall j :: 0 <= j < res.Length ==>
        res[j] == if off <= j <= off + (end - start) then Eval(c, key, party, RangePath(start, e, depth, j - off))
                  else old(res[j])
    ensures depth > 0 && start % Pow2(e) == 0 ==>
      forall j :: off <= j <= off + (end - start) ==> res[j] == Eval(c, key, party, PathOf(start + j - off, depth))
  {
    hide Eval, PathOf, RangePath, Leaves, RangeLeaves, Written;
    var range := end - start + 1;
    var s := key.k[0];
    ghost var e', was := if range > 1 then e - 1 else e, res[..];
    if range > 1 { HalfOf(range, e); }
    if depth > 0 { TwoHalves(was, off, c, key, party, start, e, depth); }
    ContigEvalOneDPFLarge(res, off, c, key, s, depth, 1, start, range / 2, end, party, e', []);
    ContigEvalOneDPFLarge(res, off + range / 2, c, key, s, depth, 1, start + range / 2, range / 2, end, party, e', []);
    if depth > 0 {
      assert res[..] == Written(was, off, RangeLeaves(c, key, party, start, e, depth));
      CellsWritten(was, off, c, key, party, start, e, depth);
    }
  }

  // The two calls write the range -- a range of one leaf twice.
  lemma TwoHalves(was: seq<uint128>, off: nat, c: Cipher, key: Key, party: bool, start: nat, e: nat, depth: nat)
    requires |key.k| == depth + 1 && off + Pow2(e) <= |was|
    ensures
      var e', half := if e > 0 then e - 1 else e, Pow2(e) / 2;
      && off + Pow2(e') <= |was| && off + half + Pow2(e') <= |was|
      && Written(Written(was, off, Leaves(c, key, party, [], start, e', depth)), off + half,
                 Leaves(c, key, party, [], start + half, e', depth))
         == Written(was, off, RangeLeaves(c, key, party, start, e, depth))
  {
    hide Leaves, RangeLeaves, Written;
    RangeSplit(c, key, party, start, e, depth);
    if e > 0 {
      HalfPower(e);
      WrittenTwice(was, off, Leaves(c, key, party, [], start, e - 1, depth),
                   Leaves(c, key, party, [], start + Pow2(e - 1), e - 1, depth));
    } else {
      WrittenAgain(was, off, Leaves(c, key, party, [], start, 0, depth));
    }
  }

  // Cell by cell.
  lemma CellsWritten(was: seq<uint128>, off: nat, c: Cipher, key: Key, party: bool, start: nat, e: nat, depth: nat)
    requires |key.k| == depth + 1 && off + Pow2(e) <= |was| && e <= depth
    ensures
      var now := Written(was, off, RangeLeaves(c, key, party, start, e, depth));
      && (forall j :: 0 <= j < |was| ==>
            now[j] == if off <= j < off + Pow2(e) then Eval(c, key, party, RangePath(start, e, depth, j - off))
                else was[j])
      && (start % Pow2(e) == 0 ==>
            forall j :: off <= j < off + Pow2(e) ==> now[j] == Eval(c, key, party, PathOf(start + j - off, depth)))
  {
    hide Eval, PathOf, RangePath, Pow2;
    if start % Pow2(e) == 0 {
      forall j: nat | j < Pow2(e) ensures RangePath(start, e, depth, j) == PathOf(start + j, depth) {
        AlignedPath(start, e, depth, j);
      }
    }
  }

}
