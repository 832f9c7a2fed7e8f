/** The aggregate tree (Tree.cpp): linked nodes filled from the left, with sentinel indices. */
module AggTree {
  import opened Arith
  import opened Bits
  import opened TreeShape
  import opened TreeValues

  class Node {
    var leftIdx: uint64
    var midIdx: uint64
    var rightIdx: uint64
    var aggVal: uint128
    var depth: nat
    var parent: Node?
    var leftChild: Node?
    var rightChild: Node?

    constructor (idx: uint64, agg: uint128, up: Node?, d: nat)
      ensures leftIdx == midIdx == rightIdx == idx && aggVal == agg && parent == up && depth == d
      ensures leftChild == rightChild == null
    {
      leftIdx, midIdx, rightIdx, aggVal, parent, depth := idx, idx, idx, agg, up, d;
      leftChild, rightChild := null, null;
    }

    ghost function Idx(): Fields
      reads `leftIdx, `midIdx, `rightIdx
    {
      Fields(leftIdx, midIdx, rightIdx)
    }

    // Takes over what one child learned, on the way up from a new leaf.
    method Absorb(child: Node, agg: uint128)
      requires child != this && child.rightChild != this && (leftChild == child || rightChild == child)
      modifies `leftIdx, `midIdx, `rightIdx, `aggVal
      ensures aggVal == agg
      ensures Idx() == Absorbed(leftChild == child, child.rightChild != null && child.rightChild.rightIdx != NONE,
                                old(Idx()), child.Idx())
      // from the left child: the smaller first index, and the larger middle once the child's right half is full
      ensures leftChild == child ==>
        && leftIdx == (if old(leftIdx) < child.leftIdx then old(leftIdx) else child.leftIdx)
        && rightIdx == old(rightIdx)
        && var next := (child.rightIdx + 1) % 0x1_0000_0000_0000_0000;
           midIdx == if child.rightChild == null || child.rightChild.rightIdx == 0xFFFF_FFFF_FFFF_FFFF then old(midIdx)
                     else if old(midIdx) == 0xFFFF_FFFF_FFFF_FFFF || old(midIdx) < next then next else old(midIdx)
      // from the right child: the smaller middle, and the larger last index
      ensures leftChild != child ==>
        && leftIdx == old(leftIdx)
        && midIdx == (if old(midIdx) < child.leftIdx then old(midIdx) else child.leftIdx)
        && rightIdx == if old(rightIdx) == 0xFFFF_FFFF_FFFF_FFFF || old(rightIdx) < child.rightIdx then child.rightIdx
                       else old(rightIdx)
    {
      if leftChild == child {
        leftIdx := if leftIdx == NONE then child.leftIdx else Min(leftIdx, child.leftIdx);
        if child.rightChild != null && child.rightChild.rightIdx != NONE {
          midIdx := if midIdx == NONE then Succ(child.rightIdx) else Max(midIdx, Succ(child.rightIdx));
        }
      } else if rightChild == child {
        midIdx := if midIdx == NONE then child.leftIdx else Min(midIdx, child.leftIdx);
        rightIdx := if rightIdx == NONE then child.rightIdx else Max(rightIdx, child.rightIdx);
      }
      aggVal := agg;
    }
  }

  // ----- nodes in heap order -----

  ghost predicate Distinct(at: seq<Node>)
  {
    forall i, j :: 0 <= i < j < |at| ==> at[i] != at[j]
  }

  // The links and the depth of node h.
  ghost predicate Linked(at: seq<Node>, h: nat)
    requires h < |at|
    reads at`depth, at`parent, at`leftChild, at`rightChild
  {
    && at[h].depth == DepthOf(h)
    && at[h].parent == (if h == 0 then null else at[(h - 1) / 2])
    && at[h].leftChild == (if 2 * h + 1 < |at| then at[2 * h + 1] else null)
    && at[h].rightChild == (if 2 * h + 2 < |at| then at[2 * h + 2] else null)
  }

  ghost predicate AllLinked(at: seq<Node>)
    reads at`depth, at`parent, at`leftChild, at`rightChild
  {
    forall h :: 0 <= h < |at| ==> Linked(at, h)
  }

  // Two empty children for a node that has none.
  method Fork(front: Node) returns (left: Node, right: Node)
    modifies front`leftChild, front`rightChild
    ensures fresh(left) && fresh(right) && left != right && front.leftChild == left && front.rightChild == right
    ensures left.Idx() == right.Idx() == Fields(NONE, NONE, NONE) && left.aggVal == right.aggVal == NO_VALUE
    ensures left.parent == right.parent == front && left.depth == right.depth == front.depth + 1
    ensures left.leftChild == left.rightChild == right.leftChild == right.rightChild == null
  {
    left := new Node(NONE, NO_VALUE, front, front.depth + 1);
    right := new Node(NONE, NO_VALUE, front, front.depth + 1);
    front.leftChild := left;
    front.rightChild := right;
  }

  // A leaf in the first free place under a node.
  method Hang(idx: Key, val: uint128, nextFree: Node, depth: nat) returns (curr: Node)
    modifies nextFree`leftChild, nextFree`rightChild
    ensures fresh(curr) && curr.Idx() == Fields(idx, idx, idx) && curr.aggVal == val
    ensures curr.parent == nextFree && curr.depth == depth && curr.leftChild == curr.rightChild == null
    ensures nextFree.leftChild == if old(nextFree.leftChild) == null then curr else old(nextFree.leftChild)
    ensures nextFree.rightChild == if old(nextFree.leftChild) == null then old(nextFree.rightChild) else curr
  {
    curr := new Node(idx, val, nextFree, depth);
    if nextFree.leftChild == null {
      nextFree.leftChild := curr;
    } else {
      nextFree.rightChild := curr;
    }
  }

  class RootNode {
    const maxDepth: nat
    const aggFunc: AggFunc
    var root: Node
    // The nodes in heap order, the indices appended so far, and the aggregates in heap order.
    ghost var at: seq<Node>
    ghost var keys: seq<Key>
    ghost var aggs: seq<uint128>

    // The tree is the first |at| nodes of the heap numbering: all nodes above the leaves, and the first
    // |keys| leaves; every index field is the one those leaves call for.
    ghost predicate Valid()
      reads this, at
    {
      && maxDepth >= 2
      && |keys| <= First(maxDepth) + 1 && |at| == First(maxDepth) + |keys| == |aggs|
      && at[0] == root && Distinct(at) && AllLinked(at)
      && (forall h :: 0 <= h < |at| ==> at[h].Idx() == FieldsOf(maxDepth, keys, h))
      && (forall h :: 0 <= h < |at| ==> at[h].aggVal == aggs[h])
    }

    // An empty tree: every node above the leaves, all sentinels.
    constructor (depth: nat, func: AggFunc)
      requires depth >= 2
      ensures Valid() && fresh(at) && maxDepth == depth && aggFunc == func
      ensures keys == [] && aggs == seq<uint128>(First(depth), _ => NO_VALUE)
    {
      maxDepth, aggFunc := depth, func;
      var r := new Node(NONE, NO_VALUE, null, 0);
      root := r;
      keys := [];
      aggs := seq<uint128>(First(depth), _ => NO_VALUE);
      new;
      hide First, FieldsOf, Valid, AllLinked, AllEmpty, Distinct;
      at := [root];
      RootAlone();
      FillEmptySubtree();
      ParentsAbove(maxDepth, 0);
      EmptyIsValid();
    }

    lemma RootAlone()
      requires at == [root] && root.Idx() == Fields(NONE, NONE, NONE) && root.aggVal == NO_VALUE && root.depth == 0
      requires root.parent == root.leftChild == root.rightChild == null
      ensures Filling(0)
    {
    }

    lemma EmptyIsValid()
      requires maxDepth >= 2 && |at| == First(maxDepth) && at[0] == root && Distinct(at) && AllLinked(at)
               && AllEmpty(at)
      requires keys == [] && aggs == seq<uint128>(First(maxDepth), _ => NO_VALUE)
      ensures Valid()
    {
      hide First, FieldsOf, Distinct, AllLinked;
      forall h | 0 <= h < |at| ensures at[h].Idx() == FieldsOf(maxDepth, keys, h) { EmptyFields(maxDepth, h); }
    }

    // What the nodes hold while the empty tree is built breadth first: q nodes have their children.
    ghost predicate Filling(q: nat)
      reads this, at
    {
      && |at| == 2 * q + 1 && at[0] == root && Distinct(at) && AllLinked(at) && AllEmpty(at)
    }

    // Gives node q its two children.
    method Branch(front: Node, ghost q: nat) returns (left: Node, right: Node)
      requires Filling(q) && front == at[q]
      modifies this`at, front`leftChild, front`rightChild
      ensures Filling(q + 1) && fresh(left) && fresh(right) && at == old(at) + [left, right]
    {
      hide DepthOf;
      LinkedAt(at, q);
      DistinctFrom(at, q);
      left, right := Fork(front);
      at := at + [left, right];
      ChildDepths(q);
      forall h | 0 <= h < |at| ensures Linked(at, h) {
        if h <= 2 * q {
          assert old(Linked(at, h));
        } else {
          assert (h - 1) / 2 == q;
        }
      }
    }

    method FillEmptySubtree()
      requires Filling(0) && maxDepth >= 2
      modifies this`at, at
      ensures |at| == First(maxDepth) && at[0] == old(at[0]) && forall i :: 0 < i < |at| ==> fresh(at[i])
      ensures at[0] == root && Distinct(at) && AllLinked(at) && AllEmpty(at)
    {
      hide DepthOf, AllLinked, AllEmpty, Distinct;
      var next: seq<Node> := [root];
      ghost var q := 0;
      while |next| > 0 && next[0].depth != maxDepth - 2
        invariant Filling(q) && q <= Pow2(maxDepth - 2) - 1
        invariant next == at[q..] && fresh(at[1..]) && at[0] == old(at[0])
        decreases Pow2(maxDepth - 2) - 1 - q
      {
        var front := next[0];
        LevelStart(maxDepth, q);
        assert front.depth == DepthOf(q) by { LinkedAt(at, q); }
        var left, right := Branch(front, q);
        next := next[1..] + [left, right];
        q := q + 1;
      }
      assert next[0].depth == DepthOf(q) by { LinkedAt(at, q); }
      LevelStart(maxDepth, q);
      assert forall i :: 0 < i < |at| ==> at[i] == at[1..][i - 1];
    }

    lemma RootIsThere()
      requires Valid()
      ensures maxDepth >= 2 && First(maxDepth) >= 1 && |at| == First(maxDepth) + |keys| == |aggs|
              && |keys| <= First(maxDepth) + 1
      ensures at[0] == root
    {
      ParentsAbove(maxDepth, 0);
    }

    // What Valid says of one node.
    lemma ValidAt(h: nat)
      requires Valid() && h < First(maxDepth) + |keys|
      ensures maxDepth >= 2 && |at| == First(maxDepth) + |keys| == |aggs| && |keys| <= First(maxDepth) + 1
              && at[0] == root
      ensures Linked(at, h) && at[h].aggVal == aggs[h] && at[h].Idx() == FieldsOf(maxDepth, keys, h)
    {
      hide First, FieldsOf, Distinct;
    }

    // What a node's fields say after a run of appends.
    lemma NodeTells(func: AggFunc, vals: seq<uint128>, h: nat)
      requires Valid() && |keys| == |vals| && aggs == PlainRun(maxDepth, func, vals) && h < First(maxDepth) + |keys|
      ensures h < |at| && h <= 2 * First(maxDepth) && at[h].aggVal == FoldAgg(func, Below(maxDepth, vals, h))
      ensures at[h].rightIdx != NONE <==> Hi(First(maxDepth), h) <= |vals|
      ensures 2 * h + 1 < First(maxDepth) ==> (at[h].midIdx != NONE <==> Hi(First(maxDepth), 2 * h + 1) <= |vals|)
    {
      hide FieldsOf, Hi, Valid, First, PlainRun, FoldAgg, Below;
      ValidAt(h);
      RunIsFold(maxDepth, func, vals, h);
      FullIff(maxDepth, keys, h);
      if 2 * h + 1 < First(maxDepth) { LeftHalfFullIff(maxDepth, keys, h); }
    }

    // The nodes' own indices are those of the keys.
    ghost predicate Indexed()
      requires maxDepth >= 2
      reads this, at
    {
      forall h :: 0 <= h < |at| ==> h <= 2 * First(maxDepth) && Indexes(maxDepth, keys, h, at[h].Idx())
    }

    lemma AllIndexed()
      requires Valid()
      ensures Indexed()
    {
      hide First, Indexes, FieldsOf, AllLinked;
      forall h | 0 <= h < |at| ensures h <= 2 * First(maxDepth) && Indexes(maxDepth, keys, h, at[h].Idx()) {
        FieldsIndex(maxDepth, keys, h);
      }
    }

    // What the sentinels of a node above the parents of leaves say about the next free leaf.
    lemma Signpost(h: nat)
      requires Valid() && 2 * h + 1 < First(maxDepth)
      ensures 2 * h + 2 < |at| && at[h].leftChild == at[2 * h + 1] && at[h].rightChild == at[2 * h + 2]
      ensures 2 * h + 2 < First(maxDepth)
      ensures Under(First(maxDepth), h, |keys|) ==>
        if at[h].midIdx == NONE then Under(First(maxDepth), 2 * h + 1, |keys|)
        else at[h].rightIdx == NONE && Under(First(maxDepth), 2 * h + 2, |keys|)
      ensures |keys| > First(maxDepth) ==> at[h].midIdx != NONE && at[h].rightIdx != NONE
    {
      hide FieldsOf, Lo, Hi, Valid;
      ValidAt(h);
      FirstIsOdd(maxDepth);
      LeftHalfFullIff(maxDepth, keys, h);
      FullIff(maxDepth, keys, h);
      Halves(maxDepth, h);
    }

    /** Finds the parent of the next leaf by following the sentinels down: left while the left half has
        room, right while the node has room. A tree whose root shows neither is full (and would be rolled
        up). */
    method GetAppendParent() returns (nextFree: Node, full: bool)
      requires Valid()
      ensures full <==> maxDepth > 2 && |keys| > First(maxDepth)
      ensures |keys| <= First(maxDepth) ==> nextFree == at[(First(maxDepth) + |keys| - 1) / 2]
    {
      hide First, FieldsOf, DepthOf, Lo, Hi, Valid, Linked, Under;
      RootIsThere();
      nextFree := root;
      full := false;
      ghost var h := 0;
      ghost var f, k := First(maxDepth), |keys|;
      UnderRoot(maxDepth, k);
      while (nextFree.rightChild != null || nextFree.leftChild != null) && !full && nextFree.depth < maxDepth - 2
        invariant h < f && nextFree == at[h]
        invariant if k <= f then Under(f, h, k) && !full else h == 0
        invariant full ==> 1 < f
        decreases f - h, !full
      {
        DepthTells(h);
        Signpost(h);
        if nextFree.leftChild != null && nextFree.midIdx == NONE {
          nextFree := nextFree.leftChild;
          h := 2 * h + 1;
        } else if nextFree.rightChild != null && nextFree.rightIdx == NONE {
          nextFree := nextFree.rightChild;
          h := 2 * h + 2;
        } else {
          full := true;
        }
      }
      DepthTells(h);
      if 2 * h + 1 < f { Signpost(h); }
      if k <= f { ParentOfNext(maxDepth, h, k); }
    }

    // Depth against position: the last level above the leaves.
    lemma DepthTells(h: nat)
      requires Valid() && h < First(maxDepth)
      ensures at[h].depth < maxDepth - 2 <==> 2 * h + 1 < First(maxDepth)
      ensures 1 < First(maxDepth) <==> maxDepth > 2
    {
      hide FieldsOf, Valid, First;
      ValidAt(h);
      ParentsAbove(maxDepth, h);
      ParentsAbove(maxDepth, 0);
    }

    // Hangs a new leaf under its parent, left place first.
    method AttachLeaf(idx: Key, val: uint128, nextFree: Node) returns (curr: Node)
      requires maxDepth >= 2 && |at| >= First(maxDepth) && Distinct(at) && AllLinked(at) && |at| <= 2 * First(maxDepth)
      requires nextFree == at[(|at| - 1) / 2]
      modifies this`at, nextFree`leftChild, nextFree`rightChild
      ensures fresh(curr) && at == old(at) + [curr] && Distinct(at) && AllLinked(at)
      ensures curr.Idx() == Fields(idx, idx, idx) && curr.aggVal == val
    {
      hide DepthOf, First;
      ParentsAbove(maxDepth, 0);
      ghost var n, p := |at|, (|at| - 1) / 2;
      LinkedAt(at, p);
      LeafDepth(maxDepth, n);
      DistinctFrom(at, p);
      curr := Hang(idx, val, nextFree, maxDepth - 1);
      forall h | 0 <= h < n && h != p ensures Linked(at, h) { assert old(Linked(at, h)); }
      LinkedSnoc(at, curr, p);
      at := at + [curr];
    }

    // The update walk: nodes of the new leaf's path from ch on hold their new fields, the others of the
    // path still hold their old ones.
    ghost predicate Walking(was: seq<Key>, key: Key, ch: nat)
      requires maxDepth >= 2 && |at| <= 2 * First(maxDepth) + 1
      reads `at, at`leftIdx, at`midIdx, at`rightIdx
    {
      forall h :: 0 <= h < |at| ==>
        at[h].Idx() == FieldsOf(maxDepth, if OnPath(|at| - 1, h) && h < ch then was else was + [key], h)
    }

    // The aggregates after the walk has come up to ch: new ones on the path, old ones elsewhere.
    ghost predicate Summed(was: seq<uint128>, val: uint128, news: seq<uint128>, ch: nat)
      requires maxDepth >= 2 && |was| + 1 == |at| && |news| == maxDepth - 1
               && First(maxDepth) < |at| <= 2 * First(maxDepth) + 1
      reads `at, at`aggVal
    {
      forall h :: 0 <= h < |at| ==> at[h].aggVal == SummedAt(maxDepth, was, val, news, ch, h)
    }

    // What the walk has still to do at the parent of ch: absorbing the child gives the new fields.
    lemma AbsorbIsNext(parent: Node, child: Node, ch: nat, was: seq<Key>, key: Key)
      requires maxDepth >= 2 && |at| == First(maxDepth) + |was| + 1 && |was| <= First(maxDepth)
      requires Distinct(at) && AllLinked(at) && Walking(was, key, ch)
      requires 0 < ch < |at| && OnPath(|at| - 1, ch) && child == at[ch] && parent == at[(ch - 1) / 2]
      ensures child != parent && child.rightChild != parent && (parent.leftChild == child || parent.rightChild == child)
      ensures Absorbed(parent.leftChild == child, child.rightChild != null && child.rightChild.rightIdx != NONE,
                       parent.Idx(), child.Idx())
           == FieldsOf(maxDepth, was + [key], (ch - 1) / 2)
    {
      hide First, FieldsOf, OnPath, DepthOf, Absorbed, AllLinked, Distinct;
      var p, n := (ch - 1) / 2, |at| - 1;
      LinkedAt(at, p);
      LinkedAt(at, ch);
      DistinctFrom(at, p);
      DistinctFrom(at, ch);
      assert at[p].Idx() == FieldsOf(maxDepth, was, p) by { PathUp(n, ch); }
      assert at[ch].Idx() == FieldsOf(maxDepth, was + [key], ch);
      assert 2 * ch + 2 < |at| ==> at[2 * ch + 2].Idx() == FieldsOf(maxDepth, was + [key], 2 * ch + 2);
      var full := child.rightChild != null && child.rightChild.rightIdx != NONE;
      if ch == 2 * p + 1 { LeftStep(maxDepth, was, key, p); } else { RightStep(maxDepth, was, key, p, full); }
    }

    // The parent of ch has been brought up to date, the other nodes are as they were.
    lemma WalkedOn(was: seq<Key>, key: Key, ch: nat)
      requires maxDepth >= 2 && |at| <= 2 * First(maxDepth) + 1 && 0 < ch < |at| && OnPath(|at| - 1, ch)
      requires at[(ch - 1) / 2].Idx() == FieldsOf(maxDepth, was + [key], (ch - 1) / 2)
      requires forall h :: 0 <= h < |at| && h != (ch - 1) / 2 ==>
                 at[h].Idx() == FieldsOf(maxDepth, if OnPath(|at| - 1, h) && h < ch then was else was + [key], h)
      ensures Walking(was, key, (ch - 1) / 2)
    {
      hide First, FieldsOf, OnPath, Node.Idx;
      var p, n := (ch - 1) / 2, |at| - 1;
      forall h | 0 <= h < |at|
        ensures at[h].Idx() == FieldsOf(maxDepth, if OnPath(n, h) && h < p then was else was + [key], h)
      {
        if h != p && OnPath(n, h) && h < ch { PathGap(n, ch, h); }
      }
    }

    // One node of the walk: its index fields.
    method StepUp(parent: Node, child: Node, agg: uint128, ghost ch: nat, ghost was: seq<Key>, ghost key: Key)
      requires maxDepth >= 2 && |at| == First(maxDepth) + |was| + 1 && |was| <= First(maxDepth)
      requires Distinct(at) && AllLinked(at)
      requires 0 < ch < |at| && OnPath(|at| - 1, ch) && child == at[ch] && parent == at[(ch - 1) / 2]
      requires Walking(was, key, ch)
      modifies parent`leftIdx, parent`midIdx, parent`rightIdx, parent`aggVal
      ensures Walking(was, key, (ch - 1) / 2) && parent.aggVal == agg
    {
      hide First, FieldsOf, OnPath, DepthOf, Absorbed, AllLinked, Distinct;
      AbsorbIsNext(parent, child, ch, was, key);
      DistinctFrom(at, (ch - 1) / 2);
      parent.Absorb(child, agg);
      WalkedOn(was, key, ch);
    }

    // One node of the walk: its aggregate too.
    method StepUpWithSum(parent: Node, child: Node, agg: uint128, ghost ch: nat, ghost was: seq<Key>, ghost key: Key,
                         ghost sums: seq<uint128>, ghost val: uint128, ghost news: seq<uint128>)
      requires maxDepth >= 2 && |at| == First(maxDepth) + |was| + 1 && |was| <= First(maxDepth)
      requires Distinct(at) && AllLinked(at)
      requires 0 < ch < |at| && OnPath(|at| - 1, ch) && child == at[ch] && parent == at[(ch - 1) / 2]
      requires Walking(was, key, ch)
      requires |sums| + 1 == |at| && |news| == maxDepth - 1 && Summed(sums, val, news, ch)
      requires 1 <= DepthOf(ch) <= maxDepth - 1 && agg == news[maxDepth - 1 - DepthOf(ch)]
      modifies parent`leftIdx, parent`midIdx, parent`rightIdx, parent`aggVal
      ensures Walking(was, key, (ch - 1) / 2) && Summed(sums, val, news, (ch - 1) / 2)
    {
      hide First, FieldsOf, OnPath, DepthOf, SummedAt, AllLinked, Walking;
      ghost var p := (ch - 1) / 2;
      StepUp(parent, child, agg, ch, was, key);
      forall h | 0 <= h < |at| ensures at[h].aggVal == SummedAt(maxDepth, sums, val, news, p, h) {
        if h != p {
          assert at[h] != parent;
          SummedSame(maxDepth, sums, val, news, ch, h);
        } else {
          SummedHere(maxDepth, sums, val, news, ch);
        }
      }
    }

    lemma WalkStarts(was: seq<Key>, key: Key)
      requires maxDepth >= 2 && |was| <= First(maxDepth) && |at| == First(maxDepth) + |was| + 1
      requires forall h :: 0 <= h < |at| - 1 ==> at[h].Idx() == FieldsOf(maxDepth, was, h)
      requires at[|at| - 1].Idx() == Fields(key, key, key)
      ensures Walking(was, key, |at| - 1)
    {
      hide First, OnPath;
      forall h | 0 <= h < |at| - 1 && !OnPath(|at| - 1, h)
        ensures FieldsOf(maxDepth, was + [key], h) == FieldsOf(maxDepth, was, h)
      {
        FieldsElsewhere(maxDepth, was, key, h);
      }
    }

    lemma SumsStart(was: seq<uint128>, val: uint128, news: seq<uint128>)
      requires maxDepth >= 2 && |was| + 1 == |at| && |news| == maxDepth - 1
               && First(maxDepth) < |at| <= 2 * First(maxDepth) + 1
      requires forall h :: 0 <= h < |at| - 1 ==> at[h].aggVal == was[h]
      requires at[|at| - 1].aggVal == val
      ensures Summed(was, val, news, |at| - 1)
    {
      hide First, OnPath;
    }

    // The update walk from a new leaf to the root.
    method WalkUp(curr: Node, nextFree: Node, newAggVals: seq<uint128>, ghost was: seq<Key>, ghost idx: Key,
                  ghost sums: seq<uint128>, ghost val: uint128)
      requires maxDepth >= 2 && |was| <= First(maxDepth) && |at| == First(maxDepth) + |was| + 1 == |sums| + 1
      requires Distinct(at) && AllLinked(at) && curr == at[|at| - 1] && nextFree == at[(|at| - 2) / 2]
      requires |newAggVals| == maxDepth - 1
      requires Walking(was, idx, |at| - 1) && Summed(sums, val, newAggVals, |at| - 1)
      modifies at`leftIdx, at`midIdx, at`rightIdx, at`aggVal
      ensures Walking(was, idx, 0) && Summed(sums, val, newAggVals, 0)
    {
      hide First, FieldsOf, OnPath, DepthOf, SummedAt, AllLinked, Walking, Summed, Distinct;
      ghost var n := |at| - 1;
      ParentsAbove(maxDepth, 0);
      LeafDepth(maxDepth, n);
      PathToSelf(n);
      LinkedAt(at, n);
      var parent: Node? := nextFree;
      var child := curr;
      var ctr := 0;
      ghost var ch := n;
      while parent != null
        invariant 0 <= ch <= n && OnPath(n, ch) && child == at[ch] && ctr + DepthOf(ch) == maxDepth - 1
        invariant parent == if ch == 0 then null else at[(ch - 1) / 2]
        invariant Walking(was, idx, ch) && Summed(sums, val, newAggVals, ch)
        decreases ch
      {
        PathUp(n, ch);
        ParentDepth(ch);
        StepUpWithSum(parent, child, newAggVals[ctr], ch, was, idx, sums, val, newAggVals);
        child := parent;
        parent := parent.parent;
        ch := (ch - 1) / 2;
        LinkedAt(at, ch);
        ctr := ctr + 1;
      }
    }

    /** Appends a leaf under its parent and brings the new aggregates up its path: afterwards the index
        fields are those of one more leaf, and only the aggregates of the path have changed. */
    method AppendFromParent(idx: Key, val: uint128, nextFree: Node, newAggVals: seq<uint128>)
      requires Valid() && |keys| <= First(maxDepth) && |newAggVals| == maxDepth - 1
      requires nextFree == at[(First(maxDepth) + |keys| - 1) / 2]
      modifies this, at
      ensures Valid() && |at| == |old(at)| + 1 && at[..|old(at)|] == old(at) && fresh(at[|old(at)|])
      ensures keys == old(keys) + [idx] && Indexed()
      ensures aggs == PathAggs(maxDepth, old(aggs), val, newAggVals)
    {
      hide First, FieldsOf, OnPath, DepthOf, SummedAt, AllLinked, Walking, Summed, Distinct, Valid, Indexed;
      ghost var was, sums := keys, aggs;
      RootIsThere();
      var curr := Attach(idx, val, nextFree, newAggVals);
      WalkUp(curr, nextFree, newAggVals, was, idx, sums, val);
      keys := was + [idx];
      aggs := PathAggs(maxDepth, sums, val, newAggVals);
      WalkEnds(was, idx, sums, val, newAggVals);
      AllIndexed();
    }

    // Hangs the leaf; the walk starts at it.
    method Attach(idx: Key, val: uint128, nextFree: Node, ghost news: seq<uint128>) returns (curr: Node)
      requires Valid() && |keys| <= First(maxDepth) && |news| == maxDepth - 1
      requires nextFree == at[(First(maxDepth) + |keys| - 1) / 2]
      modifies this`at, nextFree`leftChild, nextFree`rightChild
      ensures fresh(curr) && at == old(at) + [curr] && Distinct(at) && AllLinked(at)
      ensures Walking(keys, idx, |at| - 1) && Summed(aggs, val, news, |at| - 1)
    {
      hide First, FieldsOf, OnPath, DepthOf, SummedAt, AllLinked, Walking, Summed, Distinct;
      ParentsAbove(maxDepth, 0);
      curr := AttachLeaf(idx, val, nextFree);
      WalkStarts(keys, idx);
      SumsStart(aggs, val, news);
    }

    // The aggregates of the path of the next leaf, from its parent up.
    method ReadPath(nextFree: Node) returns (parents: seq<uint128>)
      requires Valid() && |keys| <= First(maxDepth) && nextFree == at[(|at| - 1) / 2]
      ensures PathList(maxDepth, aggs, parents)
    {
      hide First, OnPath, DepthOf, FieldsOf, Valid, PathList, PathPart;
      ghost var n := |at|;
      RootIsThere();
      LeafDepth(maxDepth, n);
      PathPartStart(maxDepth, aggs);
      parents := [];
      var curr: Node? := nextFree;
      ghost var ch := n;
      while curr != null
        invariant 0 <= ch <= n && PathPart(maxDepth, aggs, parents, ch)
        invariant curr == if ch == 0 then null else at[(ch - 1) / 2]
        decreases ch
      {
        ValidAt((ch - 1) / 2);
        PathPartNext(maxDepth, aggs, parents, ch);
        parents := parents + [curr.aggVal];
        curr := curr.parent;
        ch := (ch - 1) / 2;
      }
      PathPartEnd(maxDepth, aggs, parents);
    }

    // The aggregates of the path, each with the new value taken in.
    method RaisePath(nextFree: Node, val: uint128) returns (newAggVals: seq<uint128>)
      requires Valid() && |keys| <= First(maxDepth) && nextFree == at[(|at| - 1) / 2]
      ensures PathList(maxDepth, Raised(aggFunc, aggs, val), newAggVals)
    {
      hide First, OnPath, DepthOf, FieldsOf, ComputeAggregate, Valid, Raised, PathList, PathPart;
      ghost var n, raised := |at|, Raised(aggFunc, aggs, val);
      RootIsThere();
      LeafDepth(maxDepth, n);
      PathPartStart(maxDepth, raised);
      RaisedAt(aggFunc, aggs, val);
      newAggVals := [];
      var parent: Node? := nextFree;
      ghost var ch := n;
      while parent != null
        invariant 0 <= ch <= n && PathPart(maxDepth, raised, newAggVals, ch)
        invariant parent == if ch == 0 then null else at[(ch - 1) / 2]
        decreases ch
      {
        ValidAt((ch - 1) / 2);
        PathPartNext(maxDepth, raised, newAggVals, ch);
        newAggVals := newAggVals + [ComputeAggregate(parent.aggVal, val, aggFunc)];
        parent := parent.parent;
        ch := (ch - 1) / 2;
      }
      PathPartEnd(maxDepth, raised, newAggVals);
    }

    /** Appends a value: every node of its path takes it in. Requires room; a full tree would be rolled up. */
    method AppendValue(idx: Key, val: uint128)
      requires Valid() && |keys| <= First(maxDepth)
      modifies this, at
      ensures Valid() && |at| == |old(at)| + 1 && at[..|old(at)|] == old(at) && fresh(at[|old(at)|])
      ensures keys == old(keys) + [idx] && aggs == PlainAggs(aggFunc, old(aggs), val) && Indexed()
    {
      hide Indexed, First, OnPath, FieldsOf, AllLinked, Distinct, Raised, PathList;
      var nextFree, full := GetAppendParent();
      var newAggVals := RaisePath(nextFree, val);
      PathIsPlain(maxDepth, aggFunc, aggs, val, newAggVals);
      PathListLength(maxDepth, Raised(aggFunc, aggs, val), newAggVals);
      AppendFromParent(idx, val, nextFree, newAggVals);
    }

    // A walk that has reached the root leaves a valid tree of one more leaf.
    lemma WalkEnds(was: seq<Key>, idx: Key, sums: seq<uint128>, val: uint128, news: seq<uint128>)
      requires maxDepth >= 2 && |was| <= First(maxDepth) && |at| == First(maxDepth) + |was| + 1 == |sums| + 1
      requires Distinct(at) && AllLinked(at) && at[0] == root && |news| == maxDepth - 1
      requires Walking(was, idx, 0) && Summed(sums, val, news, 0)
      requires keys == was + [idx] && aggs == PathAggs(maxDepth, sums, val, news)
      ensures Valid()
    {
      hide First, FieldsOf, OnPath, SummedAt, AllLinked, Distinct;
    }
  }

  /** Any number of plaintext appends within capacity to one linked tree: afterwards every node's aggregate is
      the fold of the values below it, and its sentinels tell whether the node, and above the parents of
      leaves its left half, is full. */
  method AppendRun(depth: nat, func: AggFunc, idxs: seq<Key>, vals: seq<uint128>) returns (tree: RootNode)
    requires depth >= 2 && |idxs| == |vals| <= First(depth) + 1
    ensures fresh(tree) && tree.Valid() && tree.maxDepth == depth && tree.keys == idxs
            && |tree.at| == First(depth) + |vals|
    ensures tree.aggs == PlainRun(depth, func, vals) && tree.Indexed()
    ensures forall h :: 0 <= h < |tree.at| ==>
              && tree.at[h].aggVal == FoldAgg(func, Below(depth, vals, h))
              && (tree.at[h].rightIdx != NONE <==> Hi(First(depth), h) <= |vals|)
              && (2 * h + 1 < First(depth) ==> (tree.at[h].midIdx != NONE <==> Hi(First(depth), 2 * h + 1) <= |vals|))
  {
    hide First, FieldsOf, AllLinked, Distinct, PlainAggs, PlainRun, RootNode.Valid, RootNode.Indexed;
    tree := new RootNode(depth, func);
    var i := 0;
    assert idxs[..0] == [] && vals[..0] == [];
    EmptyRun(depth, func);
    while i < |vals|
      invariant 0 <= i <= |vals| && tree.Valid() && fresh(tree.at) && tree.maxDepth == depth && tree.aggFunc == func
      invariant tree.keys == idxs[..i] && tree.aggs == PlainRun(depth, func, vals[..i])
    {
      tree.AppendValue(idxs[i], vals[i]);
      assert idxs[..i + 1] == idxs[..i] + [idxs[i]];
      PlainRunSnoc(depth, func, vals, i);
      i := i + 1;
    }
    assert idxs[..i] == idxs && vals[..i] == vals;
    tree.RootIsThere();
    tree.AllIndexed();
    forall h | 0 <= h < |tree.at|
      ensures tree.at[h].aggVal == FoldAgg(func, Below(depth, vals, h))
      ensures tree.at[h].rightIdx != NONE <==> Hi(First(depth), h) <= |vals|
      ensures 2 * h + 1 < First(depth) ==> (tree.at[h].midIdx != NONE <==> Hi(First(depth), 2 * h + 1) <= |vals|)
    {
      tree.NodeTells(func, vals, h);
    }
  }

  lemma UnderRoot(maxDepth: nat, k: nat)
    requires maxDepth >= 1
    ensures Under(First(maxDepth), 0, k) <==> k <= First(maxDepth)
  {
    hide First;
    RootCovers(maxDepth);
  }

  // Below the parents of leaves, the node covering the next leaf is its parent.
  lemma ParentOfNext(maxDepth: nat, h: nat, k: nat)
    requires maxDepth >= 2 && h < First(maxDepth) <= 2 * h + 1 && Under(First(maxDepth), h, k)
    ensures (First(maxDepth) + k - 1) / 2 == h
  {
    hide First;
    var f := First(maxDepth);
    assert Lo(f, h) == Lo(f, 2 * h + 1) == 2 * h + 1 - f;
    assert Hi(f, h) == Hi(f, 2 * h + 2) == 2 * h + 3 - f;
  }

  lemma FirstIsOdd(maxDepth: nat)
    requires maxDepth >= 2
    ensures First(maxDepth) % 2 == 1
  {
  }

  // The nodes less deep than the parents of leaves are those whose children are above the leaves.
  lemma ParentsAbove(maxDepth: nat, h: nat)
    requires maxDepth >= 2
    ensures DepthOf(h) < maxDepth - 2 <==> 2 * h + 1 < First(maxDepth)
    ensures First(maxDepth) >= 1 && (maxDepth > 2 ==> First(maxDepth) >= 3)
  {
    DepthBelow(h, maxDepth - 2);
    if maxDepth > 2 { Pow2Mono(1, maxDepth - 2); }
  }

  ghost predicate AllEmpty(at: seq<Node>)
    reads at
  {
    forall h :: 0 <= h < |at| ==> at[h].Idx() == Fields(NONE, NONE, NONE) && at[h].aggVal == NO_VALUE
  }

  lemma DistinctFrom(at: seq<Node>, p: nat)
    requires Distinct(at) && p < |at|
    ensures forall h :: 0 <= h < |at| && h != p ==> at[h] != at[p]
  {
  }

  lemma LinkedAt(at: seq<Node>, h: nat)
    requires AllLinked(at) && h < |at|
    ensures Linked(at, h)
  {
  }

  // One more node at the end, hung under its parent.
  lemma LinkedSnoc(was: seq<Node>, curr: Node, p: nat)
    requires |was| > 0 && p == (|was| - 1) / 2
    requires forall h :: 0 <= h < |was| && h != p ==> Linked(was, h)
    requires was[p].depth == DepthOf(p) && was[p].parent == (if p == 0 then null else was[(p - 1) / 2])
    requires was[p].leftChild == (was + [curr])[2 * p + 1]
    requires was[p].rightChild == (if 2 * p + 2 <= |was| then (was + [curr])[2 * p + 2] else null)
    requires curr.depth == DepthOf(|was|) && curr.parent == was[p] && curr.leftChild == curr.rightChild == null
    ensures AllLinked(was + [curr])
  {
    hide DepthOf;
    var at := was + [curr];
    forall h | 0 <= h < |at| ensures Linked(at, h) {
      if h < |was| && h != p { assert Linked(was, h); }
    }
  }

  lemma ChildDepths(q: nat)
    ensures DepthOf(2 * q + 1) == DepthOf(2 * q + 2) == DepthOf(q) + 1
  {
  }

  // Every index field of an empty tree is the sentinel.
  lemma EmptyFields(maxDepth: nat, h: nat)
    requires maxDepth >= 1 && h <= 2 * First(maxDepth)
    ensures FieldsOf(maxDepth, [], h) == Fields(NONE, NONE, NONE)
  {
    hide First;
    Nonempty(maxDepth, h);
  }

  // The level above the leaves starts at 2^(maxDepth - 2) - 1.
  lemma LevelStart(maxDepth: nat, q: nat)
    requires maxDepth >= 2 && q <= Pow2(maxDepth - 2) - 1
    ensures DepthOf(q) == maxDepth - 2 <==> q == Pow2(maxDepth - 2) - 1
    ensures 2 * (Pow2(maxDepth - 2) - 1) + 1 == First(maxDepth)
  {
    DepthBelow(q, maxDepth - 2);
    DepthBelow(q, maxDepth - 1);
  }
}
