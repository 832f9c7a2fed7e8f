/** evalOneDCFMAC, the recursive evaluation of a range, and the chunked evaluation of a
    whole table domain. */
module DCFServer {
  import opened Arith
  import opened Bits
  import opened Blocks
  import opened SeedTree
  import opened Shares
  import opened DCF
  import opened Ranges

  /** One level of evaluation: adds the level's term to the accumulator and returns the next state. */
  method TraverseOneDCFMAC(c: Cipher, s: Block, cw: Block, keep: bool, acc: uint128, word: uint128, party: bool)
    returns (next: Block, acc': uint128)
    ensures next == Traverse(c, s, cw, keep)
    ensures acc' == Add(acc, Term(party, ValueOf(c, s, keep), s.t, word)) % M
  {
    hide Expand;
    var value := ToInt(Expand(if keep then c.aes3 else c.aes2, s));
    acc' := Add(acc, Mul(Sign(party), Add(value, Mul(Num(s.t), word)))) % M;
    var tau := Expand(if keep then c.aes1 else c.aes0, s);
    var correction := if s.t then Block(cw.hi, false, if keep then cw.t else cw.mid) else ZERO;
    next := Xor(correction, tau);
  }

  method EvalOneDCFMAC(c: Cipher, idx: uint128, key: Key, depth: nat, party: bool) returns (res: uint128)
    requires |key.k| == |key.v| == depth + 1
    ensures res == Eval(c, key, party, PathOf(idx / 128, depth))
  {
    hide Traverse, Term, ValueOf, BitAt;
    var kIdx := idx / 128;
    var s := key.k[0];
    res := 0;
    var i := 0;
    while i < depth
      invariant 0 <= i <= depth
      invariant s == StateAt(c, key.k, PathOf(kIdx, depth), i)
      invariant res == AccAt(c, key, party, PathOf(kIdx, depth), i)
    {
      var keep := BitAt(kIdx, depth - 1 - i);
      s, res := TraverseOneDCFMAC(c, s, key.k[i + 1], keep, res, key.v[i], party);
      i := i + 1;
    }
    res := LeafShare(party, res, s, key.v[depth]);
  }

  // What the leaves of a call evaluate to.
  ghost function Leaves(c: Cipher, key: Key, party: bool, path: seq<bool>, start: nat, e: nat,
                        depth: nat): (v: seq<uint128>)
    requires |key.k| == |key.v| == depth + 1 && |path| <= depth
    ensures |v| == Pow2(e)
  {
    seq<uint128>(Pow2(e), j requires 0 <= j < Pow2(e) => Eval(c, key, party, Walk(path, start, e, depth, |path|, j)))
  }

  // One level: the next state and accumulator, and what it amounts to at a leaf.
  lemma OneLevel(c: Cipher, key: Key, party: bool, path: seq<bool>, keep: bool)
    requires |key.k| == |key.v| && |path| + 1 < |key.k|
    ensures
      var i, path' := |path|, path + [keep];
      var s' := Traverse(c, StateAt(c, key.k, path, i), key.k[i + 1], keep);
      var s := StateAt(c, key.k, path, i);
      var acc' := Add(AccAt(c, key, party, path, i), Term(party, ValueOf(c, s, keep), s.t, key.v[i])) % M;
      && s' == StateAt(c, key.k, path', i + 1)
      && acc' == AccAt(c, key, party, path', i + 1)
      && Eval(c, key, party, path') == LeafShare(party, acc', s', key.v[i + 1])
  {
    hide Traverse, LeafShare, Term, ValueOf;
    var path' := path + [keep];
    StateOfPrefix(c, key.k, path', path, |path|);
    AccOfPrefix(c, key, party, path', path, |path|);
  }

  // The leaves of a call are those of its one or two children.
  lemma LeavesSplit(c: Cipher, key: Key, party: bool, path: seq<bool>, start: nat, e: nat, depth: nat)
    requires |key.k| == |key.v| == depth + 1 && |path| < depth
    ensures
      var path' := path + [BitAt(start, depth - 1 - |path|)];
      Leaves(c, key, party, path, start, e, depth)
      == if e == 0 then Leaves(c, key, party, path', start, 0, depth)
         else Leaves(c, key, party, path', start, e - 1, depth)
              + Leaves(c, key, party, path', start + Pow2(e - 1), e - 1, depth)
  {
    hide Eval, BitAt, Walk;
    forall j: nat | j < Pow2(e) {
      WalkSplits(path, start, e, depth, |path|, j);
    }
  }

  lemma LastLeaf(c: Cipher, key: Key, party: bool, path: seq<bool>, start: nat, depth: nat)
    requires |key.k| == |key.v| == depth + 1 && |path| == depth
    ensures Leaves(c, key, party, path, start, 0, depth) == [Eval(c, key, party, path)]
  {
    hide Eval;
    assert Walk(path, start, 0, depth, depth, 0) == path;
  }

  // The leaves of a whole range.
  ghost function RangeLeaves(c: Cipher, key: Key, party: bool, start: nat, e: nat, depth: nat): (v: seq<uint128>)
    requires |key.k| == |key.v| == depth + 1
    ensures |v| == Pow2(e)
  {
    seq<uint128>(Pow2(e), j requires 0 <= j < Pow2(e) => Eval(c, key, party, RangePath(start, e, depth, j)))
  }

  lemma RangeSplit(c: Cipher, key: Key, party: bool, start: nat, e: nat, depth: nat)
    requires |key.k| == |key.v| == depth + 1
    ensures RangeLeaves(c, key, party, start, e, depth)
         == if e == 0 then Leaves(c, key, party, [], start, 0, depth)
            else Leaves(c, key, party, [], start, e - 1, depth)
                 + Leaves(c, key, party, [], start + Pow2(e - 1), e - 1, depth)
  {
    hide Eval, Steps;
    forall j: nat | j < Pow2(e) {
      EmptyPath(start, e, depth, j);
    }
  }

  /** The recursion below one node: s and acc are the state and accumulator reached along `path`, `range` the number of
      leaves
      still to be split off. Its leaves go to res[off..off + Width(range)), and nothing else changes. */
  method ContigEvalOneDCFLarge(res: array<uint128>, off: nat, c: Cipher, key: Key, s: Block, acc: uint128, depth: nat,
                               curDepth: nat, start: nat, range: nat, end: nat, party: bool,
                               ghost e: nat, ghost path: seq<bool>)
    requires |key.k| == |key.v| == depth + 1 && |path| + 1 == curDepth
    requires curDepth <= depth ==>
      && Width(range) == Pow2(e) && e <= depth - curDepth && start + Width(range) - 1 <= end
      && off + Width(range) <= res.Length
      && s == StateAt(c, key.k, path, curDepth - 1)
      && acc == AccAt(c, key, party, path, curDepth - 1)
    modifies res
    ensures curDepth > depth ==> res[..] == old(res[..])
    ensures curDepth <= depth ==> res[..] == Written(old(res[..]), off, Leaves(c, key, party, path, start, e, depth))
    decreases depth + 1 - curDepth
  {
    hide Traverse, LeafShare, BitAt, Leaves, StateAt, Eval, AccAt, Add, Written, Term, ValueOf;
    if start > end { return; }
    if curDepth > depth { return; }
    var keep := BitAt(start, depth - curDepth);
    var s', acc' := TraverseOneDCFMAC(c, s, key.k[curDepth], keep, acc, key.v[curDepth - 1], party);
    ghost var path', was := path + [keep], res[..];
    OneLevel(c, key, party, path, keep);
    LeavesSplit(c, key, party, path, start, e, depth);
    if range > 1 { HalfOf(range, e); }
    if curDepth == depth {
      acc' := LeafShare(party, acc', s', key.v[depth]);
      res[off] := acc';
      LastLeaf(c, key, party, path', start, depth);
      assert res[..] == Written(was, off, Leaves(c, key, party, path', start, 0, depth)) by { OneCell(was, off,
                 res[off]); }
    }
    // left child, then right child
    ContigEvalOneDCFLarge(res, off, c, key, s', acc', depth, curDepth + 1, start, range / 2, end, party,
                          if range > 1 then e - 1 else e, path');
    if range > 1 {
      WrittenTwice(was, off, Leaves(c, key, party, path', start, e - 1, depth),
                   Leaves(c, key, party, path', start + range / 2, e - 1, depth));
      ContigEvalOneDCFLarge(res, off + range / 2, c, key, s', acc', depth, curDepth + 1, start + range / 2, range / 2,
                            end, party, e - 1, path');
    }
  }

  /** Evaluates the range [start, end], whose length is a power of two no larger than the tree: cell j
      receives the leaf of the j-th range path, which for a range aligned to its size is leaf start + j. A
      tree of depth zero has no level to walk: nothing is written. */
  method ContigDomainDCFLargeOutOptimized(res: array<uint128>, off: nat, c: Cipher, key: Key, depth: nat,
                                          start: nat, end: nat, party: bool, ghost e: nat)
    requires |key.k| == |key.v| == depth + 1
    requires start <= end && end - start + 1 == Pow2(e) && (depth > 0 ==> e <= depth)
    requires off + (end - start + 1) <= res.Length
    modifies res
    ensures depth == 0 ==> res[..] == old(res[..])
    ensures depth > 0 ==>
      forall j :: 0 <= j < res.Length ==>
        res[j] == if off <= j <= off + (end - start) then Eval(c, key, party, RangePath(start, e, depth, j - off))
                  else old(res[j])
    ensures depth > 0 && start % Pow2(e) == 0 ==>
      forall j :: off <= j <= off + (end - start) ==> res[j] == Eval(c, key, party, PathOf(start + j - off, depth))
  {
    hide Eval, PathOf, RangePath, Leaves, RangeLeaves, Written;
    var range := end - start + 1;
    var s := key.k[0];
    ghost var e', was := if range > 1 then e - 1 else e, res[..];
    if range > 1 { HalfOf(range, e); }
    if depth > 0 { TwoHalves(was, off, c, key, party, start, e, depth); }
    ContigEvalOneDCFLarge(res, off, c, key, s, 0, depth, 1, start, range / 2, end, party, e', []);
    ContigEvalOneDCFLarge(res, off + range / 2, c, key, s, 0, depth, 1, start + range / 2, range / 2, end, party, e',
                          []);
    if depth > 0 {
      assert res[..] == Written(was, off, RangeLeaves(c, key, party, start, e, depth));
      CellsWritten(was, off, c, key, party, start, e, depth);
    }
  }

  // The two calls write the range -- a range of one leaf twice.
  lemma TwoHalves(was: seq<uint128>, off: nat, c: Cipher, key: Key, party: bool, start: nat, e: nat, depth: nat)
    requires |key.k| == |key.v| == depth + 1 && off + Pow2(e) <= |was|
    ensures
      var e', half := if e > 0 then e - 1 else e, Pow2(e) / 2;
      && off + Pow2(e') <= |was| && off + half + Pow2(e') <= |was|
      && Written(Written(was, off, Leaves(c, key, party, [], start, e', depth)), off + half,
                 Leaves(c, key, party, [], start + half, e', depth))
         == Written(was, off, RangeLeaves(c, key, party, start, e, depth))
  {
    hide Leaves, RangeLeaves, Written;
    RangeSplit(c, key, party, start, e, depth);
    if e > 0 {
      HalfPower(e);
      WrittenTwice(was, off, Leaves(c, key, party, [], start, e - 1, depth),
                   Leaves(c, key, party, [], start + Pow2(e - 1), e - 1, depth));
    } else {
      WrittenAgain(was, off, Leaves(c, key, party, [], start, 0, depth));
    }
  }

  // Cell by cell.
  lemma CellsWritten(was: seq<uint128>, off: nat, c: Cipher, key: Key, party: bool, start: nat, e: nat, depth: nat)
    requires |key.k| == |key.v| == depth + 1 && off + Pow2(e) <= |was| && e <= depth
    ensures
      var now := Written(was, off, RangeLeaves(c, key, party, start, e, depth));
      && (forall j :: 0 <= j < |was| ==>
            now[j] == if off <= j < off + Pow2(e) then Eval(c, key, party, RangePath(start, e, depth, j - off))
                else was[j])
      && (start % Pow2(e) == 0 ==>
            forall j :: off <= j < off + Pow2(e) ==> now[j] == Eval(c, key, party, PathOf(start + j - off, depth)))
  {
    hide Eval, PathOf, RangePath, Pow2;
    if start % Pow2(e) == 0 {
      forall j: nat | j < Pow2(e) ensures RangePath(start, e, depth, j) == PathOf(start + j, depth) {
        AlignedPath(start, e, depth, j);
      }
    }
  }

  // The depth from which the table evaluation is split over the cores.
  const THREADING_MINIMUM: nat := 14

  // What the assertion in the range evaluation demands of a split over the cores: every chunk, the longer
  // last one included, has a power-of-two length.
  ghost predicate Splittable(n: nat, cores: nat)
  {
    cores > 0 && IsPow2(n / cores) && IsPow2(n - (cores - 1) * (n / cores))
  }

  // A stretch of a buffer holds a key's evaluations.
  ghost predicate Evaluated(res: seq<uint128>, off: nat, c: Cipher, key: Key, depth: nat, party: bool, upTo: nat)
  {
    && |key.k| == |key.v| == depth + 1 && off + upTo <= |res|
    && forall x :: 0 <= x < upTo ==> res[off + x] == Eval(c, key, party, PathOf(x, depth))
  }

  // Both halves of a buffer: the plain key's evaluations and, in malicious mode, behind them the MAC key's.
  ghost predicate BothEvaluated(res: seq<uint128>, c: Cipher, key: Key, mac: Key, malicious: bool, depth: nat,
                                party: bool, upTo: nat)
  {
    && |res| == (if malicious then 2 * Pow2(depth) else Pow2(depth))
    && Evaluated(res, 0, c, key, depth, party, upTo)
    && (malicious ==> Evaluated(res, Pow2(depth), c, mac, depth, party, upTo))
  }

  lemma EvaluatedStill(was: seq<uint128>, now: seq<uint128>, off: nat, c: Cipher, key: Key, depth: nat, party: bool,
                       upTo: nat)
    requires Evaluated(was, off, c, key, depth, party, upTo)
    requires |now| == |was| && now[off..off + upTo] == was[off..off + upTo]
    ensures Evaluated(now, off, c, key, depth, party, upTo)
  {
    hide Eval, PathOf;
    forall x | 0 <= x < upTo ensures now[off + x] == Eval(c, key, party, PathOf(x, depth)) {
      assert now[off..off + upTo][x] == was[off..off + upTo][x];
    }
  }

  // The next range of one half.
  method EvalRange(res: array<uint128>, off: nat, c: Cipher, key: Key, depth: nat, party: bool, start: nat, end: nat,
                   ghost e: nat)
    requires depth > 0 && start <= end && end - start + 1 == Pow2(e) && e <= depth && start % Pow2(e) == 0
    requires off + end < res.Length && Evaluated(res[..], off, c, key, depth, party, start)
    modifies res
    ensures Evaluated(res[..], off, c, key, depth, party, end + 1)
    ensures res[..off] == old(res[..off]) && res[off + end + 1..] == old(res[off + end + 1..])
  {
    hide Eval, PathOf, RangePath, Pow2;
    ContigDomainDCFLargeOutOptimized(res, off + start, c, key, depth, start, end, party, e);
    forall x: nat | x <= end ensures res[off + x] == Eval(c, key, party, PathOf(x, depth)) {
      if x >= start {
        assert res[off + x] == Eval(c, key, party, PathOf(start + (off + x) - (off + start), depth));
      }
    }
  }

  // One core's range: the plain key into the first half of the buffer, the MAC key into the second.
  method EvalRoutine(res: array<uint128>, c: Cipher, key: Key, mac: Key, malicious: bool, depth: nat, party: bool,
                     start: nat, end: nat, ghost e: nat)
    requires depth > 0 && BothEvaluated(res[..], c, key, mac, malicious, depth, party, start)
    requires start <= end < Pow2(depth) && end - start + 1 == Pow2(e) && e <= depth && start % Pow2(e) == 0
    modifies res
    ensures BothEvaluated(res[..], c, key, mac, malicious, depth, party, end + 1)
  {
    hide Evaluated, Pow2;
    ghost var was, n := res[..], Pow2(depth);
    EvalRange(res, 0, c, key, depth, party, start, end, e);
    if malicious {
      ghost var half := res[..];
      assert half[n..n + start] == was[n..n + start] by {
        assert half[end + 1..][n - end - 1..n + start - end - 1] == was[end + 1..][n - end - 1..n + start - end - 1];
      }
      EvaluatedStill(was, half, n, c, mac, depth, party, start);
      EvalRange(res, res.Length / 2, c, mac, depth, party, start, end, e);
      assert res[..][0..end + 1] == half[0..end + 1] by { assert res[..n][..end + 1] == half[..n][..end + 1]; }
      EvaluatedStill(half, res[..], 0, c, key, depth, party, end + 1);
    }
  }

  // A tree of depth zero is silent.
  method EvalNothing(res: array<uint128>, c: Cipher, key: Key, mac: Key, malicious: bool, depth: nat,
                     party: bool)
    requires depth == 0 && |key.k| == |key.v| == 1 && (malicious ==> |mac.k| == |mac.v| == 1)
    requires res.Length == if malicious then 2 * Pow2(depth) else Pow2(depth)
    modifies res
    ensures res[..] == old(res[..])
  {
    ContigDomainDCFLargeOutOptimized(res, 0, c, key, 0, 0, 0, party, 0);
    if malicious { ContigDomainDCFLargeOutOptimized(res, 1, c, mac, 0, 0, 0, party, 0); }
  }

  lemma NoneEvaluated(res: seq<uint128>, c: Cipher, key: Key, mac: Key, malicious: bool, depth: nat, party: bool)
    requires |key.k| == |key.v| == depth + 1 && (malicious ==> |mac.k| == |mac.v| == depth + 1)
    requires |res| == if malicious then 2 * Pow2(depth) else Pow2(depth)
    ensures BothEvaluated(res, c, key, mac, malicious, depth, party, 0)
  {
  }

  /** eval_dcf_table_part_a: the whole domain in one go, or split into one chunk a core when the tree is deep
      enough; the chunks put together are the full-domain vector, in bucket order, and in malicious mode behind
      it that of the MAC key. Nothing is written for a tree of depth zero. */
  method EvalTablePartA(res: array<uint128>, c: Cipher, key: Key, mac: Key, malicious: bool, depth: nat, party: bool,
                        cores: nat)
    requires |key.k| == |key.v| == depth + 1 && (malicious ==> |mac.k| == |mac.v| == depth + 1)
    requires res.Length == if malicious then 2 * Pow2(depth) else Pow2(depth)
    requires depth >= THREADING_MINIMUM ==> Splittable(Pow2(depth), cores)
    modifies res
    ensures depth == 0 ==> res[..] == old(res[..])
    ensures depth > 0 ==> BothEvaluated(res[..], c, key, mac, malicious, depth, party, Pow2(depth))
  {
    hide BothEvaluated, Splittable, Pow2;
    if depth == 0 {
      EvalNothing(res, c, key, mac, malicious, depth, party);
      return;
    }
    var numBuckets := if malicious then res.Length / 2 else res.Length;
    NoneEvaluated(res[..], c, key, mac, malicious, depth, party);
    if depth < THREADING_MINIMUM {
      WholeAligned(numBuckets);
      EvalRoutine(res, c, key, mac, malicious, depth, party, 0, numBuckets - 1, depth);
      return;
    }
    SomeCore(Pow2(depth), cores);
    var chunkSize := numBuckets / cores;
    var th := 0;
    ghost var done: nat := 0;
    while th < cores
      invariant 0 <= th <= cores && done == if th == cores then numBuckets else th * chunkSize
      invariant BothEvaluated(res[..], c, key, mac, malicious, depth, party, done)
    {
      ghost var e := ChunkFits(depth, th, cores);
      var start, end := th * chunkSize, if th == cores - 1 then numBuckets - 1 else (th + 1) * chunkSize - 1;
      EvalRoutine(res, c, key, mac, malicious, depth, party, start, end, e);
      done := end + 1;
      th := th + 1;
    }
  }

  lemma SomeCore(n: nat, cores: nat)
    requires Splittable(n, cores)
    ensures cores > 0
  {
  }

  lemma WholeAligned(n: nat)
    requires n > 0
    ensures 0 % n == 0
  {
    DivUnique(0, n, 0, 0);
  }

  // Chunk th is a power of two long, inside the domain, and aligned to its length.
  lemma ChunkFits(depth: nat, th: nat, cores: nat) returns (e: nat)
    requires Splittable(Pow2(depth), cores) && th < cores
    ensures
      var size := Pow2(depth) / cores;
      var end := if th == cores - 1 then Pow2(depth) - 1 else (th + 1) * size - 1;
      && 0 <= th * size <= end < Pow2(depth) && end - th * size + 1 == Pow2(e) && e <= depth
      && (th * size) % Pow2(e) == 0
  {
    hide Pow2;
    var n, size := Pow2(depth), Pow2(depth) / cores;
    ChunkBounds(n, cores, th);
    if th == cores - 1 {
      e :| n - th * size == Pow2(e);
      BlockFits(e, depth, 0, Pow2(e));
      Pow2Add(e, depth - e);
      AlignedRest(Pow2(e), Pow2(depth - e));
    } else {
      e :| size == Pow2(e);
      BlockFits(e, depth, 0, Pow2(e));
      AlignedMultiple(size, th);
    }
  }

  lemma ChunkBounds(n: nat, cores: nat, th: nat)
    requires th < cores && n / cores > 0
    ensures
      var size := n / cores;
      && 0 <= th * size && th * size + size <= n && (th + 1) * size == th * size + size && size <= n
      && (th == cores - 1 ==> th * size == (cores - 1) * size)
  {
    var size := n / cores;
    ModBelow(n, cores);
    MulSplit(th, 1, size);
    MulSplit(th + 1, cores - th - 1, size);
    MulSplit(1, cores - 1, size);
    assert cores * size == size * cores;
  }

  lemma AlignedRest(w: nat, k: nat)
    requires w > 0 && k > 0
    ensures (w * k - w) % w == 0
  {
    AddMultiple(w, k - 1, 1);
    DivUnique(w * k - w, w, k - 1, 0);
  }

  lemma AlignedMultiple(w: nat, k: nat)
    requires w > 0
    ensures (k * w) % w == 0
  {
    DivUnique(k * w, w, k, 0);
  }

  lemma MulSplit(a: nat, b: nat, size: nat)
    ensures (a + b) * size == a * size + b * size && 0 <= a * size && 0 <= b * size
  {
  }
}
