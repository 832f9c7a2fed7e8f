/** Which leaves the recursive evaluation of a range reaches: the same recursion over positions, the paths
    it takes, and exactly when they are the paths of consecutive leaves. */
module Ranges {
  import opened Bits

  // How many leaves a call covers: a range of zero still walks down to one leaf.
  function Width(range: nat): nat { if range == 0 then 1 else range }

  // The steps a call takes from level i on towards its j-th leaf, of 2^e: first the bit of its own start.
  function Steps(start: nat, e: nat, depth: nat, i: nat, j: nat): (p: seq<bool>)
    requires i <= depth && j < Pow2(e)
    ensures |p| == depth - i
    decreases depth - i, 0
  {
    if i == depth then [] else [BitAt(start, depth - 1 - i)] + Halved(start, e, depth, i + 1, j)
  }

  // Halving the range; only the right half moves the start.
  function Halved(start: nat, e: nat, depth: nat, i: nat, j: nat): (p: seq<bool>)
    requires i <= depth && j < Pow2(e)
    ensures |p| == depth - i
    decreases depth - i, 1
  {
    if e == 0 then Steps(start, 0, depth, i, 0)
    else if j < Pow2(e - 1) then Steps(start, e - 1, depth, i, j)
    else Steps(start + Pow2(e - 1), e - 1, depth, i, j - Pow2(e - 1))
  }

  // The path to the j-th leaf of a range of 2^e: the range is halved once above the first level.
  function RangePath(start: nat, e: nat, depth: nat, j: nat): (p: seq<bool>)
    requires j < Pow2(e)
    ensures |p| == depth
  {
    Halved(start, e, depth, 0, j)
  }

  // The whole path to the j-th leaf of a call that was reached along `path`.
  function Walk(path: seq<bool>, start: nat, e: nat, depth: nat, i: nat, j: nat): (p: seq<bool>)
    requires i <= depth && j < Pow2(e)
    ensures |p| == |path| + (depth - i)
  {
    path + Steps(start, e, depth, i, j)
  }

  lemma WalkUnfolds(path: seq<bool>, start: nat, e: nat, depth: nat, i: nat, j: nat)
    requires i < depth && j < Pow2(e)
    ensures Walk(path, start, e, depth, i, j)
         == path + [BitAt(start, depth - 1 - i)] + Halved(start, e, depth, i + 1, j)
  {
    hide Halved, BitAt, Pow2;
  }

  // A call's leaves are its children's.
  lemma WalkSplits(path: seq<bool>, start: nat, e: nat, depth: nat, i: nat, j: nat)
    requires i < depth && j < Pow2(e)
    ensures
      var path' := path + [BitAt(start, depth - 1 - i)];
      Walk(path, start, e, depth, i, j)
      == if e == 0 then Walk(path', start, 0, depth, i + 1, 0)
         else if j < Pow2(e - 1) then Walk(path', start, e - 1, depth, i + 1, j)
         else Walk(path', start + Pow2(e - 1), e - 1, depth, i + 1, j - Pow2(e - 1))
  {
    hide BitAt, Steps;
    WalkUnfolds(path, start, e, depth, i, j);
  }

  lemma EmptyPath(start: nat, e: nat, depth: nat, j: nat)
    requires j < Pow2(e)
    ensures RangePath(start, e, depth, j)
         == if e == 0 then Walk([], start, 0, depth, 0, 0)
            else if j < Pow2(e - 1) then Walk([], start, e - 1, depth, 0, j)
            else Walk([], start + Pow2(e - 1), e - 1, depth, 0, j - Pow2(e - 1))
  {
    hide Steps;
  }

  // A buffer with a stretch of cells overwritten.
  function Written<T>(was: seq<T>, off: nat, cells: seq<T>): (now: seq<T>)
    requires off + |cells| <= |was|
    ensures |now| == |was|
    ensures forall j :: 0 <= j < |was| ==> now[j] == if off <= j < off + |cells| then cells[j - off] else was[j]
  {
    was[..off] + cells + was[off + |cells|..]
  }

  lemma WrittenTwice<T>(was: seq<T>, off: nat, a: seq<T>, b: seq<T>)
    requires off + |a| + |b| <= |was|
    ensures Written(Written(was, off, a), off + |a|, b) == Written(was, off, a + b)
  {
  }

  lemma WrittenAgain<T>(was: seq<T>, off: nat, cells: seq<T>)
    requires off + |cells| <= |was|
    ensures Written(Written(was, off, cells), off, cells) == Written(was, off, cells)
  {
  }

  lemma OneCell<T>(was: seq<T>, off: nat, x: T)
    requires off < |was|
    ensures Written(was, off, [x]) == was[off := x]
  {
  }

  // j without its b low-order bits.
  function Cut(j: nat, b: int): nat
  {
    if b <= 0 then j
    else
      ModBelow(j, Pow2(b));
      j - j % Pow2(b)
  }

  lemma CutOfHalf(j: nat, e: nat, b: int)
    requires b <= e && Pow2(e) <= j
    ensures Cut(j, b) == Pow2(e) + Cut(j - Pow2(e), b)
  {
    hide Pow2;
    if b > 0 {
      var w, n, r := Pow2(b), Pow2(e - b), j - Pow2(e);
      Pow2Add(b, e - b);
      ModBelow(r, w);
      AddMultiple(w, n, r / w);
      DivUnique(j, w, n + r / w, r % w);
    }
  }

  lemma CutBelow(j: nat, e: nat)
    requires j < Pow2(e)
    ensures Cut(j, e) == 0
  {
    DivUnique(j, Pow2(e), 0, j);
  }

  lemma StepsUnfold(start: nat, e: nat, depth: nat, i: nat, j: nat)
    requires i < depth && j < Pow2(e)
    ensures Steps(start, e, depth, i, j)[0] == BitAt(start, depth - 1 - i)
    ensures Steps(start, e, depth, i, j)[1..]
         == if e == 0 then Steps(start, 0, depth, i + 1, 0)
            else if j < Pow2(e - 1) then Steps(start, e - 1, depth, i + 1, j)
            else Steps(start + Pow2(e - 1), e - 1, depth, i + 1, j - Pow2(e - 1))
  {
    hide BitAt;
  }

  // At its k-th level the walk still lacks the e - k low-order bits of the position.
  lemma {:induction false} StepAt(start: nat, e: nat, depth: nat, i: nat, j: nat, k: nat)
    requires i + k < depth && j < Pow2(e)
    ensures Steps(start, e, depth, i, j)[k] == BitAt(start + Cut(j, e - k), depth - 1 - i - k)
    decreases k
  {
    hide BitAt, Cut, Pow2, Steps;
    PowZero();
    StepsUnfold(start, e, depth, i, j);
    if k == 0 {
      CutBelow(j, e);
    } else if e == 0 {
      StepAt(start, 0, depth, i + 1, 0, k - 1);
      CutOfPosition(0, 0 - k);
      CutOfPosition(0, 1 - k);
    } else if j < Pow2(e - 1) {
      StepAt(start, e - 1, depth, i + 1, j, k - 1);
    } else {
      HalfPower(e);
      StepAt(start + Pow2(e - 1), e - 1, depth, i + 1, j - Pow2(e - 1), k - 1);
      CutOfHalf(j, e - 1, e - k);
    }
  }

  lemma CutOfPosition(j: nat, b: int)
    requires b <= 0
    ensures Cut(j, b) == j
  {
  }

  lemma RangePathAt(start: nat, e: nat, depth: nat, j: nat, k: nat)
    requires k < depth && j < Pow2(e)
    ensures RangePath(start, e, depth, j)[k] == BitAt(start + Cut(j, e - 1 - k), depth - 1 - k)
  {
    hide BitAt, Cut, Steps, Pow2;
    PowZero();
    if e == 0 {
      StepAt(start, 0, depth, 0, 0, k);
      CutOfPosition(0, 0 - k);
      CutOfPosition(0, -1 - k);
    } else if j < Pow2(e - 1) {
      StepAt(start, e - 1, depth, 0, j, k);
    } else {
      HalfPower(e);
      StepAt(start + Pow2(e - 1), e - 1, depth, 0, j - Pow2(e - 1), k);
      CutOfHalf(j, e - 1, e - 1 - k);
    }
  }

  // ----- when the leaves reached are consecutive -----

  // Some boundary between runs of `unit` lies inside [first, first + len).
  predicate Straddles(first: nat, len: nat, unit: nat)
    requires len > 0 && unit > 0
  {
    first / unit != (first + len - 1) / unit
  }

  // What has to hold of the range: once it has been halved k + 1 times, no piece straddles a boundary
  // between subtrees of the level the walk decides next.
  ghost predicate PiecesFit(start: nat, e: nat, depth: nat)
    requires e <= depth
  {
    forall k: nat, a: nat :: k < e && a < Pow2(k + 1) ==> PieceFits(start, e, depth, k, a)
  }

  // Piece a of the 2^(k + 1) pieces.
  predicate PieceFits(start: nat, e: nat, depth: nat, k: nat, a: nat)
    requires k < e <= depth
  {
    !Straddles(start + a * Pow2(e - 1 - k), Pow2(e - 1 - k), Pow2(depth - 1 - k))
  }

  // One step: right for every position of a piece exactly when the piece does not straddle.
  lemma PieceStep(first: nat, w: nat, low: nat, r: nat)
    requires 0 < w <= Pow2(low) && r < w
    ensures !Straddles(first, w, Pow2(low)) ==> BitAt(first, low) == BitAt(first + r, low)
    ensures Straddles(first, w, Pow2(low)) ==> BitAt(first, low) != BitAt(first + w - 1, low)
  {
    hide Pow2, BitAt;
    var u := Pow2(low);
    var q, m := first / u, first % u;
    ModBelow(first, u);
    BitOfQuotient(first, low, q, m);
    if m + w - 1 < u {
      BitOfQuotient(first + w - 1, low, q, m + w - 1);
      BitOfQuotient(first + r, low, q, m + r);
    } else {
      AddMultiple(u, q, 1);
      BitOfQuotient(first + w - 1, low, q + 1, m + w - 1 - u);
      NextParity(q);
    }
  }

  lemma BitOfQuotient(x: nat, low: nat, q: nat, r: nat)
    requires r < Pow2(low) && x == Pow2(low) * q + r
    ensures x / Pow2(low) == q && (BitAt(x, low) <==> q % 2 == 1)
  {
    hide Pow2;
    DivUnique(x, Pow2(low), q, r);
    ByteKeepsLowBit(q);
  }

  lemma NextParity(q: nat)
    ensures (q + 1) % 2 != q % 2
  {
  }

  // Position j of a range is position r of piece a, which starts at `first`.
  lemma PieceOf(j: nat, e: nat, k: nat) returns (a: nat, first: nat, r: nat)
    requires k < e && j < Pow2(e)
    ensures
      var w := Pow2(e - 1 - k);
      a < Pow2(k + 1) && first == a * w && Cut(j, e - 1 - k) == first && j == first + r && r < w
  {
    hide Pow2;
    var w := Pow2(e - 1 - k);
    a, r := j / w, j % w;
    first := j - r;
    Pow2Add(k + 1, e - 1 - k);
    ModBelow(j, w);
    if a >= Pow2(k + 1) { ProductMono(w, Pow2(k + 1), a); }
    CutAt(j, e - 1 - k, w, r);
  }

  lemma CutAt(j: nat, b: nat, w: nat, r: nat)
    requires w == Pow2(b) && r == j % w
    ensures Cut(j, b) == j - r
  {
    hide Pow2;
    if b == 0 { PowZero(); }
  }

  lemma ProductMono(w: nat, a: nat, b: nat)
    requires a <= b
    ensures a * w <= b * w
  {
  }

  // The last position of piece a.
  lemma LastOfPiece(a: nat, e: nat, k: nat) returns (j: nat, first: nat)
    requires k < e && a < Pow2(k + 1)
    ensures
      var w := Pow2(e - 1 - k);
      first == a * w && j == first + (w - 1) && j < Pow2(e) && Cut(j, e - 1 - k) == first
  {
    hide Pow2, Cut;
    var w := Pow2(e - 1 - k);
    first := a * w;
    j := first + (w - 1);
    Pow2Add(k + 1, e - 1 - k);
    ProductMono(w, a + 1, Pow2(k + 1));
    AddMultiple(w, a, 1);
    DivUnique(j, w, a, w - 1);
    CutAt(j, e - 1 - k, w, w - 1);
  }

  /** The recursion evaluates the consecutive leaves start, start + 1, ... of a range of 2^e if and only if
      none of its pieces straddles a subtree boundary. */
  lemma RangeRightIff(start: nat, e: nat, depth: nat)
    requires e <= depth
    ensures (forall j: nat | j < Pow2(e) :: RangePath(start, e, depth, j) == PathOf(start + j, depth))
            <==> PiecesFit(start, e, depth)
  {
    hide RangePath, PathOf, PieceFits, Pow2;
    if PiecesFit(start, e, depth) {
      forall j: nat | j < Pow2(e) ensures RangePath(start, e, depth, j) == PathOf(start + j, depth) {
        FitPath(start, e, depth, j);
      }
    } else {
      var k: nat, a: nat :| k < e && a < Pow2(k + 1)
                            && !PieceFits(start, e, depth, k, a);
      StraddlePath(start, e, depth, k, a);
    }
  }

  lemma FitPath(start: nat, e: nat, depth: nat, j: nat)
    requires e <= depth && j < Pow2(e) && PiecesFit(start, e, depth)
    ensures RangePath(start, e, depth, j) == PathOf(start + j, depth)
  {
    hide RangePath, PathOf, BitAt, Cut, Straddles, Pow2;
    var p, q := RangePath(start, e, depth, j), PathOf(start + j, depth);
    forall k | 0 <= k < depth ensures p[k] == q[k] {
      RangePathAt(start, e, depth, j, k);
      PathStep(start + j, depth, k);
      if k < e {
        FitStep(start, e, depth, j, k);
      } else {
        CutOfPosition(j, e - 1 - k);
      }
    }
  }

  lemma FitStep(start: nat, e: nat, depth: nat, j: nat, k: nat)
    requires e <= depth && j < Pow2(e) && k < e && PiecesFit(start, e, depth)
    ensures BitAt(start + Cut(j, e - 1 - k), depth - 1 - k) == BitAt(start + j, depth - 1 - k)
  {
    hide BitAt, Cut, Straddles, Pow2, PieceFits;
    var a, first, r := PieceOf(j, e, k);
    Pow2Mono(e - 1 - k, depth - 1 - k);
    assert PieceFits(start, e, depth, k, a);
    PieceAt(start, e, depth, k, a, start + first);
    PieceStep(start + first, Pow2(e - 1 - k), depth - 1 - k, r);
  }

  // What it means for one piece to fit.
  lemma PieceAt(start: nat, e: nat, depth: nat, k: nat, a: nat, first: nat)
    requires k < e <= depth && first == start + a * Pow2(e - 1 - k)
    ensures PieceFits(start, e, depth, k, a) <==> !Straddles(first, Pow2(e - 1 - k), Pow2(depth - 1 - k))
  {
    hide Pow2, Straddles;
  }

  lemma StraddlePath(start: nat, e: nat, depth: nat, k: nat, a: nat)
    requires e <= depth && k < e && a < Pow2(k + 1)
    requires !PieceFits(start, e, depth, k, a)
    ensures exists j: nat :: j < Pow2(e) && RangePath(start, e, depth, j) != PathOf(start + j, depth)
  {
    hide RangePath, PathOf, BitAt, Cut, Straddles, Pow2, PieceFits;
    var j, first := LastOfPiece(a, e, k);
    Pow2Mono(e - 1 - k, depth - 1 - k);
    PieceAt(start, e, depth, k, a, start + first);
    PieceStep(start + first, Pow2(e - 1 - k), depth - 1 - k, 0);
    RangePathAt(start, e, depth, j, k);
    PathStep(start + j, depth, k);
  }

  /** A range aligned to its size is always evaluated right. */
  lemma AlignedFits(start: nat, e: nat, depth: nat)
    requires e <= depth && start % Pow2(e) == 0
    ensures PiecesFit(start, e, depth)
  {
    hide PieceFits, Pow2;
    forall k: nat, a: nat | k < e && a < Pow2(k + 1) ensures PieceFits(start, e, depth, k, a) {
      AlignedPiece(start, e, depth, k, a);
    }
  }

  lemma AlignedPiece(start: nat, e: nat, depth: nat, k: nat, a: nat)
    requires e <= depth && start % Pow2(e) == 0 && k < e
    ensures PieceFits(start, e, depth, k, a)
  {
    hide Pow2;
    var b := e - 1 - k;
    var w, n, q := Pow2(b), Pow2(k + 1), start / Pow2(e);
    Pow2Add(b, k + 1);
    ModBelow(start, Pow2(e));
    assert start == w * (n * q) by { MulAssoc(w, n, q); }
    var first := start + a * w;
    AddMultiple(w, n * q, a);
    DivUnique(first, w, n * q + a, 0);
    AlignedBlock(first, b, depth - 1 - k, w - 1);
  }

  lemma AlignedPath(start: nat, e: nat, depth: nat, j: nat)
    requires e <= depth && start % Pow2(e) == 0 && j < Pow2(e)
    ensures RangePath(start, e, depth, j) == PathOf(start + j, depth)
  {
    AlignedFits(start, e, depth);
    FitPath(start, e, depth, j);
  }

  /** Alignment is not needed -- two leaves anywhere are evaluated right -- but a range of four one past a
      boundary is not: its last leaf is reached along the path of another. */
  lemma UnalignedRanges()
    ensures PiecesFit(1, 1, 3) && !PiecesFit(1, 2, 3)
  {
    assert Pow2(0) == 1 && Pow2(1) == 2 && Pow2(2) == 4;
    assert Straddles(1 + 1 * Pow2(1), Pow2(1), Pow2(2));
    assert !PieceFits(1, 2, 3, 0, 1);
  }
}
