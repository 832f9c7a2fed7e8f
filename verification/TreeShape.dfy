/** The shape of a left-filling tree: heap numbering, the leaf positions under a node, and the index
    fields every node carries after k appends. */
module TreeShape {
  import opened Arith
  import opened Bits

  // -1 as an index: no leaf here yet.
  const NONE: uint64 := 0xFFFF_FFFF_FFFF_FFFF

  // Indices that neither are the sentinel nor become it when one is added.
  type Key = x: uint64 | x < 0xFFFF_FFFF_FFFF_FFFE

  // Node h has children 2h + 1 and 2h + 2. The first leaf of a tree of maxDepth levels.
  function First(maxDepth: nat): nat
    requires maxDepth >= 1
  {
    Pow2(maxDepth - 1) - 1
  }

  function DepthOf(h: nat): nat
  {
    if h == 0 then 0 else 1 + DepthOf((h - 1) / 2)
  }

  // The levels are consecutive runs of the numbering.
  lemma {:induction false} DepthBelow(h: nat, d: nat)
    ensures DepthOf(h) < d <==> h < Pow2(d) - 1
  {
    if h > 0 && d > 0 { DepthBelow((h - 1) / 2, d - 1); }
  }

  // ----- the leaves under a node -----

  function Lo(f: nat, h: nat): nat
    requires h <= 2 * f
    decreases 2 * f - h
  {
    if h >= f then h - f else Lo(f, 2 * h + 1)
  }

  function Hi(f: nat, h: nat): (r: nat)
    requires h <= 2 * f
    ensures r <= f + 1
    decreases 2 * f - h
  {
    if h >= f then h - f + 1 else Hi(f, 2 * h + 2)
  }

  lemma DoubleOfPow2(x: nat)
    requires IsPow2(2 * x)
    ensures IsPow2(x)
  {
    var e: nat :| 2 * x == Pow2(e);
    assert e > 0;
    assert x == Pow2(e - 1);
  }

  lemma OddAboveOne(x: nat)
    requires x % 2 == 1 && x > 1
    ensures !IsPow2(x)
  {
    if IsPow2(x) {
      var e: nat :| x == Pow2(e);
      PowerParity(e);
    }
  }

  lemma PowerParity(e: nat)
    ensures Pow2(e) == 1 || Pow2(e) % 2 == 0
  {
    if e > 0 { TwiceIsEven(Pow2(e - 1)); }
  }

  lemma TwiceIsEven(x: nat)
    ensures (2 * x) % 2 == 0
  {
  }

  // Neighbours on one level cover neighbouring leaves.
  lemma {:induction false} Neighbours(maxDepth: nat, h: nat)
    requires maxDepth >= 1 && h + 1 <= 2 * First(maxDepth) && !IsPow2(h + 2)
    ensures Hi(First(maxDepth), h) == Lo(First(maxDepth), h + 1)
    decreases 2 * First(maxDepth) - h
  {
    hide IsPow2, Pow2;
    var f := First(maxDepth);
    if h + 1 < f {
      if IsPow2(2 * h + 4) { DoubleOfPow2(h + 2); }
      Neighbours(maxDepth, 2 * h + 2);
    } else if h < f {
      PowerIsPow2(maxDepth - 1);
    }
  }

  lemma PowerIsPow2(e: nat)
    ensures IsPow2(Pow2(e))
  {
  }

  // The two children of a node split its leaves.
  lemma {:induction false} Halves(maxDepth: nat, h: nat)
    requires maxDepth >= 1 && h < First(maxDepth)
    ensures
      var f := First(maxDepth);
      Lo(f, h) == Lo(f, 2 * h + 1) < Hi(f, 2 * h + 1) == Lo(f, 2 * h + 2) < Hi(f, 2 * h + 2) == Hi(f, h)
  {
    hide First, IsPow2;
    OddAboveOne(2 * h + 3);
    Neighbours(maxDepth, 2 * h + 1);
    Nonempty(maxDepth, 2 * h + 1);
    Nonempty(maxDepth, 2 * h + 2);
  }

  lemma {:induction false} Nonempty(maxDepth: nat, h: nat)
    requires maxDepth >= 1 && h <= 2 * First(maxDepth)
    ensures Lo(First(maxDepth), h) < Hi(First(maxDepth), h)
    decreases 2 * First(maxDepth) - h
  {
    hide First;
    if h < First(maxDepth) {
      hide IsPow2;
      OddAboveOne(2 * h + 3);
      Neighbours(maxDepth, 2 * h + 1);
      Nonempty(maxDepth, 2 * h + 1);
      Nonempty(maxDepth, 2 * h + 2);
    }
  }

  // The first node of a level starts at leaf 0, the last one ends at the last leaf.
  lemma {:induction false} LevelEnds(maxDepth: nat, d: nat)
    requires d < maxDepth
    ensures
      var f := First(maxDepth);
      && 0 <= Pow2(d) - 1 <= 2 * f && 2 * Pow2(d) - 2 <= 2 * f
      && Lo(f, Pow2(d) - 1) == 0 && Hi(f, 2 * Pow2(d) - 2) == f + 1
    decreases maxDepth - d
  {
    Pow2Mono(d, maxDepth - 1);
    if d + 1 < maxDepth {
      LevelEnds(maxDepth, d + 1);
      Pow2Mono(d + 1, maxDepth - 1);
    }
  }

  // The root covers every leaf.
  lemma RootCovers(maxDepth: nat)
    requires maxDepth >= 1
    ensures Lo(First(maxDepth), 0) == 0 && Hi(First(maxDepth), 0) == First(maxDepth) + 1
  {
    LevelEnds(maxDepth, 0);
  }

  // ----- paths -----

  predicate Under(f: nat, h: nat, k: nat)
    requires h <= 2 * f
  {
    Lo(f, h) <= k < Hi(f, h)
  }

  // h is n or one of its ancestors.
  predicate OnPath(n: nat, h: nat)
  {
    h == n || (n > 0 && OnPath((n - 1) / 2, h))
  }

  lemma {:induction false} PathBelow(n: nat, h: nat)
    requires OnPath(n, h)
    ensures h <= n
  {
    if h != n { PathBelow((n - 1) / 2, h); }
  }

  lemma {:induction false} PathUp(n: nat, c: nat)
    requires OnPath(n, c) && c > 0
    ensures OnPath(n, (c - 1) / 2)
  {
    if c != n { PathUp((n - 1) / 2, c); }
  }

  // Between a node of the path and its parent no other node is on the path.
  lemma {:induction false} PathGap(n: nat, c: nat, h: nat)
    requires OnPath(n, c) && OnPath(n, h) && c > 0 && h < c
    ensures h <= (c - 1) / 2
  {
    if c == n {
      PathBelow((n - 1) / 2, h);
    } else {
      PathBelow((n - 1) / 2, c);
      PathGap((n - 1) / 2, c, h);
    }
  }

  /** A node covers a leaf exactly when it is on the leaf's path to the root. */
  lemma {:induction false} UnderIsOnPath(maxDepth: nat, h: nat, k: nat)
    requires maxDepth >= 1 && h <= 2 * First(maxDepth) && k <= First(maxDepth)
    ensures Under(First(maxDepth), h, k) <==> OnPath(First(maxDepth) + k, h)
  {
    hide First;
    if Under(First(maxDepth), h, k) { UnderToPath(maxDepth, h, k); }
    if OnPath(First(maxDepth) + k, h) { PathToUnder(maxDepth, First(maxDepth) + k, h, k); }
  }

  lemma {:induction false} UnderToPath(maxDepth: nat, h: nat, k: nat)
    requires maxDepth >= 1 && h <= 2 * First(maxDepth) && Under(First(maxDepth), h, k)
    ensures OnPath(First(maxDepth) + k, h)
    decreases 2 * First(maxDepth) - h
  {
    hide First;
    var f := First(maxDepth);
    if h < f {
      Halves(maxDepth, h);
      var c := if k < Hi(f, 2 * h + 1) then 2 * h + 1 else 2 * h + 2;
      UnderToPath(maxDepth, c, k);
      PathUp(f + k, c);
    }
  }

  lemma {:induction false} PathToUnder(maxDepth: nat, n: nat, h: nat, k: nat)
    requires maxDepth >= 1 && n <= 2 * First(maxDepth) && Under(First(maxDepth), n, k) && OnPath(n, h)
    ensures h <= 2 * First(maxDepth) && Under(First(maxDepth), h, k)
  {
    hide First;
    if h != n {
      Halves(maxDepth, (n - 1) / 2);
      PathToUnder(maxDepth, (n - 1) / 2, h, k);
    }
  }

  // ----- index fields -----

  datatype Fields = Fields(left: uint64, mid: uint64, right: uint64)

  function Min(a: uint64, b: uint64): uint64 { if b < a then b else a }

  function Max(a: uint64, b: uint64): uint64 { if a < b then b else a }

  // idx + 1 in a 64-bit word.
  function Succ(x: uint64): uint64 { (x + 1) % 0x1_0000_0000_0000_0000 }

  /** What node h holds once the leaves `keys` have been appended from the left: the index of its first
      leaf; where its right half starts; and the index of its last leaf once it is full. */
  function FieldsOf(maxDepth: nat, keys: seq<Key>, h: nat): Fields
    requires maxDepth >= 1 && h <= 2 * First(maxDepth)
  {
    var f, k := First(maxDepth), |keys|;
    var lo, hi := Lo(f, h), Hi(f, h);
    var left := if lo < k then keys[lo] else NONE;
    var right := if 0 < hi <= k then keys[hi - 1] else NONE;
    if h >= f then Fields(left, left, right)
    else if 2 * h + 1 >= f then
      // a parent of leaves knows its middle only from its right leaf
      Fields(left, right, right)
    else
      var m := Hi(f, 2 * h + 1);
      var mid := if k < m || m == 0 then NONE
                 else if k == m then Succ(keys[m - 1])
                 else Min(Succ(keys[m - 1]), keys[m]);
      Fields(left, mid, right)
  }

  // What the three indices of node h say about the keys of the leaves below it, in whatever order these are.
  // The first is its first leaf's and the last its last leaf's, each the sentinel while that leaf is missing.
  // Above the parents of leaves the middle one is the sentinel until the left half is full; then it is one
  // more than the left half's last key; and once the right half has a leaf it is the smaller of that and the
  // right half's first key.
  ghost predicate Indexes(maxDepth: nat, keys: seq<Key>, h: nat, i: Fields)
    requires maxDepth >= 1 && h <= 2 * First(maxDepth)
  {
    var f, k, lo, hi := First(maxDepth), |keys|, Lo(First(maxDepth), h), Hi(First(maxDepth), h);
    && lo < hi
    && i.left == (if lo < k then keys[lo] else 0xFFFF_FFFF_FFFF_FFFF)
    && i.right == (if hi <= k then keys[hi - 1] else 0xFFFF_FFFF_FFFF_FFFF)
    && (h >= f ==> i.mid == i.left)
    && (h < f <= 2 * h + 1 ==> i.mid == i.right)
    && (2 * h + 1 < f ==> Divides(keys, Hi(f, 2 * h + 1), i.mid))
  }

  // The middle index of a node whose right half starts with leaf m.
  ghost predicate Divides(keys: seq<Key>, m: nat, mid: uint64)
  {
    && m > 0
    && (|keys| < m ==> mid == 0xFFFF_FFFF_FFFF_FFFF)
    && (|keys| == m ==> mid == keys[m - 1] as int + 1)
    && (|keys| > m ==>
          && mid <= keys[m] && mid <= keys[m - 1] as int + 1
          && (mid == keys[m] || mid == keys[m - 1] as int + 1))
  }

  /** That is what the specified fields say. */
  lemma FieldsIndex(maxDepth: nat, keys: seq<Key>, h: nat)
    requires maxDepth >= 1 && h <= 2 * First(maxDepth)
    ensures Indexes(maxDepth, keys, h, FieldsOf(maxDepth, keys, h))
  {
    hide First, Lo, Hi;
    Nonempty(maxDepth, h);
    if h < First(maxDepth) { Halves(maxDepth, h); }
  }

  // Fields of a node the new leaf is not under do not change.
  lemma FieldsElsewhere(maxDepth: nat, keys: seq<Key>, key: Key, h: nat)
    requires maxDepth >= 1 && h <= 2 * First(maxDepth) && |keys| <= First(maxDepth)
    requires !OnPath(First(maxDepth) + |keys|, h)
    ensures FieldsOf(maxDepth, keys + [key], h) == FieldsOf(maxDepth, keys, h)
  {
    hide First, OnPath;
    UnderIsOnPath(maxDepth, h, |keys|);
    Nonempty(maxDepth, h);
    if h < First(maxDepth) { Halves(maxDepth, h); }
  }

  // The child of a node through which the new leaf is reached.
  lemma ChildOnPath(maxDepth: nat, k: nat, h: nat, left: bool)
    requires maxDepth >= 1 && h < First(maxDepth) && k <= First(maxDepth)
    requires OnPath(First(maxDepth) + k, if left then 2 * h + 1 else 2 * h + 2)
    ensures
      var f := First(maxDepth);
      var c := if left then 2 * h + 1 else 2 * h + 2;
      && Lo(f, c) <= k < Hi(f, c)
      && Lo(f, h) == Lo(f, 2 * h + 1) < Hi(f, 2 * h + 1) == Lo(f, 2 * h + 2) < Hi(f, 2 * h + 2) == Hi(f, h)
  {
    hide First, OnPath;
    UnderIsOnPath(maxDepth, if left then 2 * h + 1 else 2 * h + 2, k);
    Halves(maxDepth, h);
  }

  // Whether a node is full: what the sentinel in rightIdx tells.
  lemma FullIff(maxDepth: nat, keys: seq<Key>, h: nat)
    requires maxDepth >= 1 && h <= 2 * First(maxDepth)
    ensures FieldsOf(maxDepth, keys, h).right != NONE <==> Hi(First(maxDepth), h) <= |keys|
  {
    hide First;
    Nonempty(maxDepth, h);
  }

  // Whether the left half is full: what the sentinel in midIdx tells above the parents of leaves.
  lemma LeftHalfFullIff(maxDepth: nat, keys: seq<Key>, h: nat)
    requires maxDepth >= 1 && 2 * h + 1 < First(maxDepth)
    ensures FieldsOf(maxDepth, keys, h).mid != NONE <==> Hi(First(maxDepth), 2 * h + 1) <= |keys|
  {
    hide First;
    Halves(maxDepth, h);
  }

  // What a node takes over from a child on the way up: from the left child its first index and, once the
  // child's own right half is full, where the right half starts; from the right child its middle and end.
  function Absorbed(isLeft: bool, childFull: bool, was: Fields, child: Fields): Fields
  {
    if isLeft then
      Fields(if was.left == NONE then child.left else Min(was.left, child.left),
             if !childFull then was.mid else if was.mid == NONE then Succ(child.right)
                 else Max(was.mid, Succ(child.right)),
             was.right)
    else
      Fields(was.left,
             if was.mid == NONE then child.left else Min(was.mid, child.left),
             if was.right == NONE then child.right else Max(was.right, child.right))
  }

  /** One step of the update walk, coming from the left child. */
  lemma LeftStep(maxDepth: nat, keys: seq<Key>, key: Key, h: nat)
    requires maxDepth >= 1 && h < First(maxDepth) && |keys| <= First(maxDepth)
    requires OnPath(First(maxDepth) + |keys|, 2 * h + 1)
    ensures
      var f, c, now := First(maxDepth), 2 * h + 1, keys + [key];
      // the child has a right child, and that one is full
      var full := c < f && 2 * c + 2 <= f + |keys| && FieldsOf(maxDepth, now, 2 * c + 2).right != NONE;
      FieldsOf(maxDepth, now, h) == Absorbed(true, full, FieldsOf(maxDepth, keys, h), FieldsOf(maxDepth, now, c))
  {
    hide First, OnPath, FieldsOf, Absorbed;
    if 2 * h + 1 < First(maxDepth) {
      LeftAbove(maxDepth, keys, key, h);
    } else {
      LeftLeaf(maxDepth, keys, key, h);
    }
  }

  lemma LeftAbove(maxDepth: nat, keys: seq<Key>, key: Key, h: nat)
    requires maxDepth >= 1 && 2 * h + 1 < First(maxDepth) && |keys| <= First(maxDepth)
    requires OnPath(First(maxDepth) + |keys|, 2 * h + 1)
    ensures
      var f, c, now := First(maxDepth), 2 * h + 1, keys + [key];
      && 2 * c + 2 <= 2 * f
      && var full := 2 * c + 2 <= f + |keys| && FieldsOf(maxDepth, now, 2 * c + 2).right != NONE;
         FieldsOf(maxDepth, now, h) == Absorbed(true, full, FieldsOf(maxDepth, keys, h), FieldsOf(maxDepth, now, c))
  {
    hide First, OnPath, Lo, Hi;
    var c := 2 * h + 1;
    ChildOnPath(maxDepth, |keys|, h, true);
    Halves(maxDepth, c);
    FullIff(maxDepth, keys + [key], 2 * c + 2);
    LastLeaf(maxDepth, 2 * c + 2);
  }

  lemma LeftLeaf(maxDepth: nat, keys: seq<Key>, key: Key, h: nat)
    requires maxDepth >= 1 && h < First(maxDepth) <= 2 * h + 1 && |keys| <= First(maxDepth)
    requires OnPath(First(maxDepth) + |keys|, 2 * h + 1)
    ensures
      var now := keys + [key];
      FieldsOf(maxDepth, now, h)
      == Absorbed(true, false, FieldsOf(maxDepth, keys, h), FieldsOf(maxDepth, now, 2 * h + 1))
  {
    hide First, OnPath;
    ChildOnPath(maxDepth, |keys|, h, true);
  }

  // A node that ends at a leaf lies no deeper than that leaf.
  lemma {:induction false} LastLeaf(maxDepth: nat, h: nat)
    requires maxDepth >= 1 && h <= 2 * First(maxDepth)
    ensures h < First(maxDepth) + Hi(First(maxDepth), h)
    decreases 2 * First(maxDepth) - h
  {
    hide First;
    if h < First(maxDepth) { Nonempty(maxDepth, h); }
  }

  /** One step of the update walk, coming from the right child. */
  lemma RightStep(maxDepth: nat, keys: seq<Key>, key: Key, h: nat, full: bool)
    requires maxDepth >= 1 && h < First(maxDepth) && |keys| <= First(maxDepth)
    requires OnPath(First(maxDepth) + |keys|, 2 * h + 2)
    ensures
      var now := keys + [key];
      FieldsOf(maxDepth, now, h)
      == Absorbed(false, full, FieldsOf(maxDepth, keys, h), FieldsOf(maxDepth, now, 2 * h + 2))
  {
    hide First, OnPath;
    ChildOnPath(maxDepth, |keys|, h, false);
  }
}
