/** One query server (server.cpp): its keys, counter and mailbox, its tables, and the local half of every
    protocol step. */
module QueryServer {
  import opened Arith
  import opened Rss
  import Bits
  import opened Results
  import opened Compile
  import opened Filters

  // multReceivedShares: the one slot in which the predecessor's message waits.
  datatype Mailbox = Empty | Full(shares: seq<Vec>)

  // Block and offset tables of one id, two shares each, a row a window position.
  datatype BoTable = BoTable(windowSize: nat, layout: Layout, windowPtr: nat,
                             block0: seq<Vec>, block1: seq<Vec>, offset0: seq<Vec>, offset1: seq<Vec>)

  // One leaf of a BO filter as one server receives it.
  datatype BoLeaf = BoLeaf(id: string, pred: nat, q: QueryVecs)

  datatype BoFilter = BoFilter(isAnd: bool, leaves: seq<BoLeaf>)

  datatype ServerError =
    | LogTooLarge | BadParameters | NotDivisible | NotInitialized | OutOfWindow
    | EmptyFilter | UnknownTable | MixedTables | BadShareSize | MissingPredicate

  // loc == APPEND_LOC, written out.
  datatype Loc = At(row: nat) | Append

  // The rows of a table hold one word a column.
  predicate WellShaped(t: BoTable)
  {
    && t.layout.blockNum > 0 && t.layout.blockSize > 0
    && |t.block0| == |t.block1| == |t.offset0| == |t.offset1| == t.windowSize
    && forall r :: 0 <= r < t.windowSize ==>
         && |t.block0[r]| == |t.block1[r]| == t.layout.blockNum
         && |t.offset0[r]| == |t.offset1[r]| == t.layout.blockSize
  }

  predicate Shaped(q: QueryVecs, l: Layout)
  {
    |q.block0| == |q.block1| == l.blockNum && |q.offset0| == |q.offset1| == l.blockSize
  }

  function Tags(leaves: seq<BoLeaf>): (ts: seq<nat>)
    ensures |ts| == |leaves|
  {
    seq(|leaves|, i requires 0 <= i < |leaves| => leaves[i].pred)
  }

  // ----- grouping by predicate -----

  // The positions carrying one tag, in order.
  function Positions(tags: seq<nat>, p: nat): (ps: seq<nat>)
    ensures forall k :: 0 <= k < |ps| ==> ps[k] < |tags| && tags[ps[k]] == p
  {
    if tags == [] then []
    else
      var n := |tags| - 1;
      Positions(tags[..n], p) + (if tags[n] == p then [n] else [])
  }

  // One more than the largest tag.
  function TagCount(tags: seq<nat>): nat
  {
    if tags == [] then 0
    else
      var n, t := TagCount(tags[..|tags| - 1]), tags[|tags| - 1];
      if t >= n then t + 1 else n
  }

  lemma {:induction false} NoPositions(tags: seq<nat>, p: nat)
    requires p >= TagCount(tags)
    ensures Positions(tags, p) == []
  {
    if tags != [] { NoPositions(tags[..|tags| - 1], p); }
  }

  lemma NonemptyCount(tags: seq<nat>)
    requires tags != []
    ensures TagCount(tags) > 0
  {
  }

  // The predicate table under construction: one list of positions a predicate.
  ghost predicate GroupedBy(preds: seq<seq<nat>>, tags: seq<nat>)
  {
    |preds| == TagCount(tags) && forall p :: 0 <= p < |preds| ==> preds[p] == Positions(tags, p)
  }

  function PredPositions(tags: seq<nat>): (preds: seq<seq<nat>>)
    ensures GroupedBy(preds, tags)
  {
    seq<seq<nat>>(TagCount(tags), p requires 0 <= p => Positions(tags, p))
  }

  // Every predicate index up to the largest has a leaf.
  predicate Contiguous(tags: seq<nat>)
  {
    forall p :: 0 <= p < TagCount(tags) ==> Positions(tags, p) != []
  }

  // A list of positions, each further on than the one before.
  ghost predicate Ascending(ps: seq<nat>) { forall i, j :: 0 <= i < j < |ps| ==> ps[i] < ps[j] }

  // The positions of a tag are all of its places and no others, in order.
  lemma {:induction false} PositionsAre(tags: seq<nat>, p: nat)
    ensures Ascending(Positions(tags, p))
    ensures forall i: nat :: i in Positions(tags, p) <==> i < |tags| && tags[i] == p
  {
    if tags != [] { PositionsAre(tags[..|tags| - 1], p); }
  }

  lemma {:induction false} TagCountIs(tags: seq<nat>)
    ensures forall i :: 0 <= i < |tags| ==> tags[i] < TagCount(tags)
    ensures if tags == [] then TagCount(tags) == 0 else TagCount(tags) > 0 && TagCount(tags) - 1 in tags
  {
    if tags != [] {
      var n := |tags| - 1;
      TagCountIs(tags[..n]);
      forall i | 0 <= i < |tags| ensures tags[i] < TagCount(tags) {
        if i < n { assert tags[i] == tags[..n][i]; }
      }
      if tags[n] < TagCount(tags[..n]) { assert TagCount(tags[..n]) - 1 in tags[..n]; }
    }
  }

  // No index below another one's is missing.
  lemma ContiguousIff(tags: seq<nat>)
    ensures Contiguous(tags) <==> forall i, p: nat :: 0 <= i < |tags| && p <= tags[i] ==> p in tags
  {
    hide Positions, TagCount;
    TagCountIs(tags);
    forall p: nat ensures Positions(tags, p) != [] <==> p in tags {
      PositionsAre(tags, p);
      if p in tags {
        var i :| 0 <= i < |tags| && tags[i] == p;
        assert i in Positions(tags, p);
      }
      if Positions(tags, p) != [] { assert Positions(tags, p)[0] in Positions(tags, p); }
    }
    if tags != [] {
      var m :| 0 <= m < |tags| && tags[m] == TagCount(tags) - 1;
      assert tags[m] == TagCount(tags) - 1;
    }
  }

  lemma NoneMissing(leaves: seq<BoLeaf>)
    ensures Contiguous(Tags(leaves))
       <==> forall i, p: nat :: 0 <= i < |leaves| && p <= leaves[i].pred ==> p in Tags(leaves)
  {
    hide Contiguous;
    var tags := Tags(leaves);
    ContiguousIff(tags);
    forall i | 0 <= i < |leaves| ensures tags[i] == leaves[i].pred { }
  }

  // The groups of a message: one a predicate index up to the largest, each the places of its leaves in order.
  ghost predicate GroupsOf(preds: seq<seq<nat>>, leaves: seq<BoLeaf>)
  {
    && (forall i :: 0 <= i < |leaves| ==> leaves[i].pred < |preds|)
    && forall p :: 0 <= p < |preds| ==>
         && preds[p] != [] && Ascending(preds[p])
         && forall i: nat :: i in preds[p] <==> i < |leaves| && leaves[i].pred == p
  }

  lemma GroupsAre(leaves: seq<BoLeaf>)
    requires Contiguous(Tags(leaves))
    ensures GroupsOf(PredPositions(Tags(leaves)), leaves)
  {
    hide Positions, TagCount;
    var tags := Tags(leaves);
    TagCountIs(tags);
    forall i | 0 <= i < |leaves| ensures leaves[i].pred < TagCount(tags) { assert tags[i] == leaves[i].pred; }
    forall p | 0 <= p < TagCount(tags)
      ensures Positions(tags, p) != [] && Ascending(Positions(tags, p))
      ensures forall i: nat :: i in Positions(tags, p) <==> i < |leaves| && leaves[i].pred == p
    {
      PositionsAre(tags, p);
    }
  }

  // Exactly the filters BOEvalFilter evaluates: one known table, share vectors of its shape, and a leaf for
  // every predicate index.
  predicate AcceptedBy(tables: map<string, BoTable>, f: BoFilter)
  {
    && f.leaves != [] && f.leaves[0].id in tables
    && (forall i :: 0 <= i < |f.leaves| ==>
          f.leaves[i].id == f.leaves[0].id && Shaped(f.leaves[i].q, tables[f.leaves[0].id].layout))
    && Contiguous(Tags(f.leaves))
  }

  // The same in terms of the message alone: no index below another one's is missing.
  ghost predicate Complete(tables: map<string, BoTable>, f: BoFilter)
  {
    && f.leaves != [] && f.leaves[0].id in tables
    && (forall i :: 0 <= i < |f.leaves| ==>
          && f.leaves[i].id == f.leaves[0].id
          && |f.leaves[i].q.block0| == |f.leaves[i].q.block1| == tables[f.leaves[0].id].layout.blockNum
          && |f.leaves[i].q.offset0| == |f.leaves[i].q.offset1| == tables[f.leaves[0].id].layout.blockSize)
    && forall i, p: nat :: 0 <= i < |f.leaves| && p <= f.leaves[i].pred ==> p in Tags(f.leaves)
  }

  // ----- table parameters -----

  predicate ValidTableParameters(numBuckets: nat, logBlockNum: nat)
  {
    logBlockNum < 31 && numBuckets > 0 && numBuckets % Bits.Pow2(logBlockNum) == 0
  }

  function LayoutFor(numBuckets: nat, logBlockNum: nat): Layout
  {
    Bits.DivNonNeg(numBuckets, Bits.Pow2(logBlockNum));
    Layout(Bits.Pow2(logBlockNum), numBuckets / Bits.Pow2(logBlockNum))
  }

  // Accepted parameters split the buckets evenly into nonempty blocks.
  lemma LayoutSplits(numBuckets: nat, logBlockNum: nat)
    requires ValidTableParameters(numBuckets, logBlockNum)
    ensures ValidLayout(LayoutFor(numBuckets, logBlockNum)) && Buckets(LayoutFor(numBuckets, logBlockNum)) == numBuckets
    ensures LayoutFor(numBuckets, logBlockNum).blockNum == Bits.Pow2(logBlockNum)
    ensures LayoutFor(numBuckets, logBlockNum).blockSize * Bits.Pow2(logBlockNum) == numBuckets
  {
    var n, d := numBuckets, Bits.Pow2(logBlockNum);
    assert n == d * (n / d) + n % d;
  }

  // A table of zeros.
  function FreshTable(w: nat, l: Layout): BoTable
  {
    var zeroBlock, zeroOffset := seq<uint128>(l.blockNum, _ => 0), seq<uint128>(l.blockSize, _ => 0);
    var blocks, offsets := seq<Vec>(w, _ => zeroBlock), seq<Vec>(w, _ => zeroOffset);
    BoTable(w, l, 0, blocks, blocks, offsets, offsets)
  }

  // Nothing but zeros, with the first row the next to append to.
  ghost predicate Blank(t: BoTable, w: nat)
  {
    && t.windowSize == w && t.windowPtr == 0 && WellShaped(t)
    && (forall r, c :: 0 <= r < w && 0 <= c < t.layout.blockNum ==> t.block0[r][c] == t.block1[r][c] == 0)
    && (forall r, c :: 0 <= r < w && 0 <= c < t.layout.blockSize ==> t.offset0[r][c] == t.offset1[r][c] == 0)
  }

  lemma FreshIsBlank(w: nat, l: Layout)
    requires l.blockNum > 0 && l.blockSize > 0
    ensures Blank(FreshTable(w, l), w)
  {
  }

  class QueryServer {
    const prf: Prf
    var prfKey0: uint128
    var prfKey1: uint128
    var prfCounter: uint128
    var multReceivedShares: Mailbox
    var boTables: map<string, BoTable>
    var valLists: map<string, Held>
    var valListWindowPtrs: map<string, nat>

    constructor (f: Prf, key: uint64)
      ensures prf == f && prfKey0 == key && prfCounter == 0 && multReceivedShares == Empty
      ensures boTables == map[] && valLists == map[] && valListWindowPtrs == map[]
    {
      prf, prfKey0, prfKey1, prfCounter, multReceivedShares := f, key, 0, 0, Empty;
      boTables, valLists, valListWindowPtrs := map[], map[], map[];
    }

    // The key the predecessor sends when the system starts.
    method FinishSystemInit(key: uint128)
      modifies `prfKey1
      ensures prfKey1 == key
    {
      prfKey1 := key;
    }

    // ----- shares of zero -----

    function GetNextSecretShareOfZero(idx: nat): (z: uint128)
      reads `prfKey0, `prfKey1, `prfCounter
      ensures (z + prf(prfKey0, (prfCounter + idx) % R)) % R == prf(prfKey1, (prfCounter + idx) % R)
    {
      ZeroShareIs(prf, prfKey0, prfKey1, (prfCounter + idx) % R);
      ZeroShare(prf, prfKey0, prfKey1, (prfCounter + idx) % R)
    }

    method AdjustPRFCounter(amount: nat)
      modifies `prfCounter
      ensures prfCounter == (old(prfCounter) + amount) % R
    {
      prfCounter := (prfCounter + amount) % R;
    }

    // A row of zero shares from consecutive inputs.
    function ZeroSharesFrom(start: nat, n: nat): (row: Vec)
      reads `prfKey0, `prfKey1, `prfCounter
      ensures |row| == n
    {
      ZeroRun(prf, prfKey0, prfKey1, (prfCounter + start) % R, n)
    }

    lemma ZeroSharesAt(start: nat, n: nat, pos: nat)
      requires pos < n
      ensures ZeroSharesFrom(start, n)[pos] == GetNextSecretShareOfZero(start + pos)
    {
      hide ZeroShare;
      MoveOn(prfCounter + start, pos);
    }

    // Shares of zero from consecutive inputs on: each is what the predecessor key's output exceeds the own
    // key's by.
    ghost predicate ZeroShares(z: Vec, from: nat)
      reads `prfKey0, `prfKey1
    {
      forall j :: 0 <= j < |z| ==>
        (z[j] + prf(prfKey0, (from + j) % R)) % R == prf(prfKey1, (from + j) % R)
    }

    // A message for one set of a reshare: in every place the set's two words, the predecessor key's output at
    // one input, and less the own key's at the same.
    ghost predicate Masked(m: Vec, h: Held, at: nat)
      reads `prfKey0, `prfKey1
    {
      && |m| == |h.first| == |h.second|
      && forall j :: 0 <= j < |m| ==>
           (m[j] + prf(prfKey0, at % R)) % R == Sum3(h.first[j], h.second[j], prf(prfKey1, at % R)) % R
    }

    lemma ZeroSharesAre(start: nat, n: nat)
      ensures ZeroShares(ZeroSharesFrom(start, n), prfCounter + start)
    {
      hide ZeroSharesFrom, GetNextSecretShareOfZero;
      var z := ZeroSharesFrom(start, n);
      forall j | 0 <= j < n
        ensures (z[j] + prf(prfKey0, (prfCounter + start + j) % R)) % R == prf(prfKey1, (prfCounter + start + j) % R)
      {
        ZeroSharesAt(start, n, j);
        SameInput(prfCounter, start, j);
      }
    }

    static lemma SameInput(c: int, a: int, b: int)
      ensures (c + (a + b)) % R == (c + a + b) % R
    {
    }

    method FillZeroShares(start: nat, n: nat) returns (row: Vec)
      ensures row == ZeroSharesFrom(start, n) && ZeroShares(row, prfCounter + start)
    {
      hide GetNextSecretShareOfZero, ZeroSharesFrom, ZeroShares;
      var out := new uint128[n](_ => 0);
      var pos := 0;
      while pos < n
        invariant 0 <= pos <= n
        invariant forall k :: 0 <= k < pos ==> out[k] == ZeroSharesFrom(start, n)[k]
      {
        out[pos] := GetNextSecretShareOfZero(start + pos);
        ZeroSharesAt(start, n, pos);
        pos := pos + 1;
      }
      row := out[..];
      assert row == ZeroSharesFrom(start, n);
      ZeroSharesAre(start, n);
    }

    lemma RowsAre(nrows: nat, w: nat)
      ensures forall k :: 0 <= k < nrows ==> ZeroShares(ZeroSharesFrom(RowStart(k, w), w), prfCounter + k * w)
    {
      hide ZeroSharesFrom, ZeroShares;
      forall k | 0 <= k < nrows ensures ZeroShares(ZeroSharesFrom(RowStart(k, w), w), prfCounter + k * w) {
        ZeroSharesAre(RowStart(k, w), w);
      }
    }

    static lemma RowStartIs(k: nat, w: nat)
      ensures RowStart(k, w) == k * w
    {
    }

    // Fresh zero shares for nrows multiplications of a whole window each.
    method AllocZeroRows(nrows: nat, w: nat) returns (z: seq<Vec>)
      modifies `prfCounter
      ensures |z| == nrows
      ensures forall i :: 0 <= i < nrows ==> |z[i]| == w && z[i] == old(ZeroSharesFrom(RowStart(i, w), w))
      ensures forall i :: 0 <= i < nrows ==> ZeroShares(z[i], old(prfCounter) + i * w)
      ensures prfCounter == (old(prfCounter) + RowStart(nrows, w)) % R == (old(prfCounter) + nrows * w) % R
    {
      hide ZeroShare, ZeroSharesFrom, ZeroShares, RowStart;
      RowsAre(nrows, w);
      z := [];
      var i := 0;
      while i < nrows
        invariant 0 <= i <= nrows && |z| == i && prfCounter == old(prfCounter)
        invariant forall k :: 0 <= k < i ==> z[k] == old(ZeroSharesFrom(RowStart(k, w), w))
      {
        RowStartIs(i, w);
        var row := FillZeroShares(i * w, w);
        z := z + [row];
        i := i + 1;
      }
      RowStartIs(nrows, w);
      AdjustPRFCounter(nrows * w);
    }

    // ----- the mailbox -----

    // The successor's end of a send; it waits until the slot is free.
    method FinishMultiply(shares: seq<Vec>)
      requires multReceivedShares == Empty
      modifies `multReceivedShares
      ensures multReceivedShares == Full(shares)
    {
      multReceivedShares := Full(shares);
    }

    // Copies the message out and frees the slot.
    method TakeShares() returns (shares: seq<Vec>)
      requires multReceivedShares.Full?
      modifies `multReceivedShares
      ensures old(multReceivedShares) == Full(shares) && multReceivedShares == Empty
    {
      shares := multReceivedShares.shares;
      multReceivedShares := Empty;
    }

    // ----- local halves of the protocol -----

    // One set of a reshare, masked in place; every row of the set uses the same zero share.
    method RSSReshareInnerLoop(res0: array<uint128>, res1: array<uint128>, numSets: nat, idx: nat)
      requires res0.Length == res1.Length && res0 != res1
      modifies res1
      ensures res1[..]
           == MaskSet(Held(res0[..], old(res1[..])), GetNextSecretShareOfZero(idx * numSets + res1.Length))
      ensures Masked(res1[..], Held(res0[..], old(res1[..])), prfCounter + (idx * numSets + res1.Length))
    {
      hide ZeroShare, Add, MaskSet, Masked;
      var j := 0;
      while j < res1.Length
        invariant 0 <= j <= res1.Length
        invariant forall k :: 0 <= k < j ==>
                    res1[k] == Add(Add(old(res1[k]), res0[k]), GetNextSecretShareOfZero(idx * numSets + res1.Length))
        invariant forall k :: j <= k < res1.Length ==> res1[k] == old(res1[k])
      {
        res1[j] := Add(res1[j], res0[j]);
        res1[j] := Add(res1[j], GetNextSecretShareOfZero(idx * numSets + res1.Length));
        j := j + 1;
      }
      ghost var h, z := Held(res0[..], old(res1[..])), GetNextSecretShareOfZero(idx * numSets + res1.Length);
      MaskSetIs(h, z, res1[..]);
      WordsMasked(res1[..], h, z, prfCounter + (idx * numSets + res1.Length));
    }

    lemma WordsMasked(m: Vec, h: Held, z: uint128, at: nat)
      requires |m| == |h.first| == |h.second| && (z + prf(prfKey0, at % R)) % R == prf(prfKey1, at % R)
      requires forall j :: 0 <= j < |m| ==> m[j] == Add(Add(h.second[j], h.first[j]), z)
      ensures Masked(m, h, at)
    {
      hide Add;
      forall j | 0 <= j < |m|
        ensures (m[j] + prf(prfKey0, at % R)) % R == Sum3(h.first[j], h.second[j], prf(prfKey1, at % R)) % R
      {
        MaskUndone(h.second[j], h.first[j], z, prf(prfKey0, at % R), prf(prfKey1, at % R));
      }
    }

    lemma SetMasked(h: Held, at: nat)
      requires |h.first| == |h.second|
      ensures Masked(MaskSet(h, ZeroShare(prf, prfKey0, prfKey1, at % R)), h, at)
    {
      hide ZeroShare, Add, Masked;
      ZeroShareIs(prf, prfKey0, prfKey1, at % R);
      WordsMasked(MaskSet(h, ZeroShare(prf, prfKey0, prfKey1, at % R)), h, ZeroShare(prf, prfKey0, prfKey1, at % R),
                  at);
    }

    // The share of zero of one set.
    lemma SetShareIs(idx: nat, numSets: nat, w: nat)
      ensures GetNextSecretShareOfZero(idx * numSets + w)
           == ZeroShare(prf, prfKey0, prfKey1, (prfCounter + SetInput(idx, numSets, w)) % R)
    {
      hide ZeroShare;
    }

    lemma SetsMasked(sets: seq<Held>, w: nat)
      requires EvenSets(sets, w)
      ensures
        var m := MaskRun(prf, prfKey0, prfKey1, prfCounter, sets, w);
        forall k :: 0 <= k < |sets| ==>
          |sets[k].first| == |sets[k].second| == w && Masked(m[k], sets[k], prfCounter + (k * |sets| + w))
    {
      hide ZeroShare, MaskSet, Masked;
      forall k | 0 <= k < |sets|
        ensures Masked(MaskSet(sets[k], ZeroShare(prf, prfKey0, prfKey1, (prfCounter + SetInput(k, |sets|, w)) % R)),
                       sets[k], prfCounter + (k * |sets| + w))
      {
        SetMasked(sets[k], prfCounter + SetInput(k, |sets|, w));
      }
    }

    static lemma MaskSetIs(h: Held, z: uint128, m: Vec)
      requires |m| == |h.first| == |h.second|
      requires forall j :: 0 <= j < |m| ==> m[j] == Add(Add(h.second[j], h.first[j]), z)
      ensures m == MaskSet(h, z)
    {
      hide Add;
    }

    // One set, in buffers of its own.
    method PrepareSet(set_: Held, w: nat, numSets: nat, idx: nat) returns (m: Vec)
      requires |set_.first| == |set_.second| == w
      ensures m == MaskSet(set_, ZeroShare(prf, prfKey0, prfKey1, (prfCounter + SetInput(idx, numSets, w)) % R))
    {
      hide ZeroShare, Add, Masked, MaskSet, SetInput, GetNextSecretShareOfZero;
      SetShareIs(idx, numSets, w);
      var res0 := new uint128[w](j requires 0 <= j < w => set_.first[j]);
      var res1 := new uint128[w](j requires 0 <= j < w => set_.second[j]);
      assert res0[..] == set_.first && res1[..] == set_.second;
      RSSReshareInnerLoop(res0, res1, numSets, idx);
      m := res1[..];
    }

    // The computing half of RSSReshare, up to the send.
    method PrepareReshare(sets: seq<Held>, w: nat) returns (send: seq<Vec>)
      requires EvenSets(sets, w)
      modifies `prfCounter
      ensures send == old(MaskRun(prf, prfKey0, prfKey1, prfCounter, sets, w))
      ensures |send| == |sets|
      ensures forall k :: 0 <= k < |sets| ==> Masked(send[k], sets[k], old(prfCounter) + (k * |sets| + w))
      ensures prfCounter == (old(prfCounter) + |sets| * w) % R
    {
      hide ZeroShare, Add, MaskSet, SetInput, Masked, EvenSets;
      SetsMasked(sets, w);
      send := [];
      ghost var all := MaskRun(prf, prfKey0, prfKey1, prfCounter, sets, w);
      var i := 0;
      while i < |sets|
        invariant 0 <= i <= |sets| && prfCounter == old(prfCounter) && send == all[..i]
      {
        var m := PrepareSet(sets[i], w, |sets|, i);
        send := send + [m];
        i := i + 1;
      }
      AdjustPRFCounter(|sets| * w);
    }

    // The computing half of Multiply.
    method MultiplyLocal(x: Held, y: Held, z: Vec) returns (m: Vec)
      requires |x.first| == |x.second| == |y.first| == |y.second| == |z|
      ensures m == MulVec(x, y, z)
      ensures forall r :: 0 <= r < |z| ==>
                m[r] == (x.first[r] * y.first[r] + x.second[r] * y.first[r] + x.first[r] * y.second[r] + z[r]) % R
    {
      hide Add, Mul;
      var out := new uint128[|z|](_ => 0);
      var i := 0;
      while i < |z|
        invariant 0 <= i <= |z|
        invariant forall k :: 0 <= k < i ==> out[k] == MulLocal(x.first[k], x.second[k], y.first[k], y.second[k], z[k])
      {
        out[i] := Mul(x.first[i], y.first[i]);
        out[i] := Add(out[i], Mul(x.second[i], y.first[i]));
        out[i] := Add(out[i], Mul(x.first[i], y.second[i]));
        out[i] := Add(out[i], z[i]);
        i := i + 1;
      }
      forall r | 0 <= r < |z|
        ensures out[r] == (x.first[r] * y.first[r] + x.second[r] * y.first[r] + x.first[r] * y.second[r] + z[r]) % R
      {
        MulLocalIs(x.first[r], x.second[r], y.first[r], y.second[r], z[r]);
      }
      m := out[..];
    }

    // The closing loop of OrFilters: the product plus both operands.
    method AddOperands(p: Held, x: Held, y: Held) returns (out: Held)
      requires |p.first| == |p.second| == |x.first| == |x.second| == |y.first| == |y.second|
      ensures out == AddHeld(p, x, y)
      ensures |out.first| == |out.second| == |p.first|
      ensures forall i :: 0 <= i < |p.first| ==>
                && out.first[i] == Sum3(p.first[i], x.first[i], y.first[i]) % R
                && out.second[i] == Sum3(p.second[i], x.second[i], y.second[i]) % R
    {
      hide Add;
      var n := |p.first|;
      var out0 := new uint128[n](i requires 0 <= i < n => p.first[i]);
      var out1 := new uint128[n](i requires 0 <= i < n => p.second[i]);
      var i := 0;
      while i < n
        invariant 0 <= i <= n
        invariant forall k :: 0 <= k < n ==>
                    out0[k] == if k < i then Add(p.first[k], Add(x.first[k], y.first[k])) else p.first[k]
        invariant forall k :: 0 <= k < n ==>
                    out1[k] == if k < i then Add(p.second[k], Add(x.second[k], y.second[k])) else p.second[k]
      {
        out0[i] := Add(out0[i], Add(x.first[i], y.first[i]));
        out1[i] := Add(out1[i], Add(x.second[i], y.second[i]));
        i := i + 1;
      }
      assert out0[..] == AddVec(p.first, AddVec(x.first, y.first));
      assert out1[..] == AddVec(p.second, AddVec(x.second, y.second));
      out := Held(out0[..], out1[..]);
      forall i | 0 <= i < n
        ensures out0[i] == Sum3(p.first[i], x.first[i], y.first[i]) % R
        ensures out1[i] == Sum3(p.second[i], x.second[i], y.second[i]) % R
      {
        AddedTwice(p.first[i], x.first[i], y.first[i]);
        AddedTwice(p.second[i], x.second[i], y.second[i]);
      }
    }

    // One query vector against every row of a table.
    method DotRows(q: Vec, rows: seq<Vec>) returns (res: Vec)
      requires forall r :: 0 <= r < |rows| ==> |rows[r]| == |q|
      ensures |res| == |rows| && forall r :: 0 <= r < |rows| ==> res[r] == Dot(q, rows[r], |q|)
      ensures forall r :: 0 <= r < |rows| ==> res[r] == DotSum(q, rows[r], |q|) % R
    {
      hide Add, Mul;
      var out := new uint128[|rows|](_ => 0);
      var r := 0;
      while r < |rows|
        invariant 0 <= r <= |rows|
        invariant forall k :: 0 <= k < r ==> out[k] == Dot(q, rows[k], |q|)
      {
        var acc: uint128 := 0;
        var j := 0;
        while j < |q|
          invariant 0 <= j <= |q|
          invariant acc == Dot(q, rows[r], j)
        {
          acc := Add(acc, Mul(q[j], rows[r][j]));
          j := j + 1;
        }
        out[r] := acc;
        r := r + 1;
      }
      res := out[..];
      forall r | 0 <= r < |rows| ensures res[r] == DotSum(q, rows[r], |q|) % R { DotIsSum(q, rows[r], |q|); }
    }

    // The four dot products of one leaf against the tables.
    method EvalLeaf(id: string, q: QueryVecs) returns (block: Held, offset: Held)
      requires id in boTables && WellShaped(boTables[id]) && Shaped(q, boTables[id].layout)
      ensures DotPair(block, q.block0, q.block1, boTables[id].block0, boTables[id].block1, boTables[id].layout.blockNum)
      ensures DotPair(offset, q.offset0, q.offset1, boTables[id].offset0, boTables[id].offset1,
                      boTables[id].layout.blockSize)
    {
      hide Dot;
      var t := boTables[id];
      var b0 := DotRows(q.block0, t.block0);
      var b1 := DotRows(q.block1, t.block1);
      var o0 := DotRows(q.offset0, t.offset0);
      var o1 := DotRows(q.offset1, t.offset1);
      block, offset := Held(b0, b1), Held(o0, o1);
    }

    // The list a missing id stands for: the map's default entry is empty.
    function ValList(id: string): Held
      reads `valLists
    {
      if id in valLists then valLists[id] else Held([], [])
    }

    // The closing loop of an aggregate query.
    method AggregateFilter(id: string, f: Held) returns (res: uint128)
      requires |ValList(id).first| == |ValList(id).second|
      requires |ValList(id).first| <= |f.first| && |ValList(id).first| <= |f.second|
      ensures res == AggShare(ValList(id), f, |ValList(id).first|)
      ensures res == ThreeTerms(ValList(id), f, |ValList(id).first|) % R
    {
      hide Add, Mul;
      var v := ValList(id);
      res := 0;
      var i := 0;
      while i < |v.first|
        invariant 0 <= i <= |v.first|
        invariant res == AggShare(v, f, i)
      {
        res := Add(res, Mul(v.first[i], f.first[i]));
        res := Add(res, Mul(v.second[i], f.first[i]));
        res := Add(res, Mul(v.first[i], f.second[i]));
        i := i + 1;
      }
      AggShareIsSum(v, f, |v.first|);
    }

    // ----- tables -----

    method AddBOTable(id: string, windowSize: nat, numBuckets: nat, logBlockNum: nat)
      returns (r: Result<(), ServerError>)
      modifies `boTables
      ensures r == if logBlockNum >= 31 then Err(LogTooLarge) else if numBuckets == 0 then Err(BadParameters)
                   else if numBuckets % Bits.Pow2(logBlockNum) != 0 then Err(NotDivisible) else Ok(())
      ensures r.Err? ==> boTables == old(boTables)
      ensures r.Ok? ==> boTables == old(boTables)[id := FreshTable(windowSize, LayoutFor(numBuckets, logBlockNum))]
      ensures r.Ok? ==> Blank(boTables[id], windowSize) && boTables[id].layout.blockNum == Bits.Pow2(logBlockNum)
                        && boTables[id].layout.blockSize * Bits.Pow2(logBlockNum) == numBuckets
    {
      if logBlockNum >= 31 { return Err(LogTooLarge); }
      var blockNum := Bits.Pow2(logBlockNum);
      if numBuckets == 0 { return Err(BadParameters); }
      if numBuckets % blockNum != 0 { return Err(NotDivisible); }
      boTables := boTables[id := FreshTable(windowSize, Layout(blockNum, numBuckets / blockNum))];
      LayoutSplits(numBuckets, logBlockNum);
      FreshIsBlank(windowSize, LayoutFor(numBuckets, logBlockNum));
      return Ok(());
    }

    // Writes one row of the four share tables.
    method BOTableUpdate(id: string, loc: Loc, index0: Vec, index1: Vec, offset0: Vec, offset1: Vec)
      returns (r: Result<(), ServerError>)
      requires id in boTables ==> WellShaped(boTables[id]) && Shaped(QueryVecs(index0, index1, offset0, offset1),
                                                                     boTables[id].layout)
      modifies `boTables
      ensures id !in old(boTables) ==> r == Err(NotInitialized) && boTables == old(boTables)
      ensures id in old(boTables) ==>
        var t := old(boTables)[id];
        var row := if loc.Append? then t.windowPtr else loc.row;
        var t' := t.(windowPtr := if loc.Append? then t.windowPtr + 1 else t.windowPtr);
        if row >= t.windowSize then r == Err(OutOfWindow) && boTables == old(boTables)[id := t']
        else r == Ok(()) && boTables == old(boTables)[id :=
               t'.(block0 := t.block0[row := index0], block1 := t.block1[row := index1],
                   offset0 := t.offset0[row := offset0], offset1 := t.offset1[row := offset1])]
    {
      if id !in boTables { return Err(NotInitialized); }
      var t := boTables[id];
      var row := match loc case At(k) => k case Append => t.windowPtr;
      if loc.Append? { t := t.(windowPtr := t.windowPtr + 1); }
      boTables := boTables[id := t];
      if row >= t.windowSize { return Err(OutOfWindow); }
      t := t.(block0 := t.block0[row := index0], block1 := t.block1[row := index1]);
      t := t.(offset0 := t.offset0[row := offset0], offset1 := t.offset1[row := offset1]);
      boTables := boTables[id := t];
      return Ok(());
    }

    // A new list of zeros, appended to from the start.
    method AddValList(id: string, windowSize: nat)
      modifies `valLists, `valListWindowPtrs
      ensures valLists == old(valLists)[id := Held(seq<uint128>(windowSize, _ => 0), seq<uint128>(windowSize, _ => 0))]
      ensures valListWindowPtrs == old(valListWindowPtrs)[id := 0]
    {
      valLists := valLists[id := Held(seq<uint128>(windowSize, _ => 0), seq<uint128>(windowSize, _ => 0))];
      valListWindowPtrs := valListWindowPtrs[id := 0];
    }

    // Where an update goes: an append takes the next place.
    function Place(id: string, loc: Loc): nat
      reads `valListWindowPtrs
    {
      match loc
      case At(row) => row
      case Append => if id in valListWindowPtrs then valListWindowPtrs[id] else 0
    }

    // Writes one position of both copies; the position is not checked against the list.
    method ValListUpdate(id: string, loc: Loc, val0: uint128, val1: uint128)
      requires id in valLists && Place(id, loc) < |valLists[id].first| == |valLists[id].second|
      modifies `valLists, `valListWindowPtrs
      ensures
        var row, v := old(Place(id, loc)), old(valLists)[id];
        valLists == old(valLists)[id := Held(v.first[row := val0], v.second[row := val1])]
      ensures valListWindowPtrs == if loc.Append? then old(valListWindowPtrs)[id := old(Place(id, loc)) + 1]
                                   else old(valListWindowPtrs)
    {
      var row := Place(id, loc);
      if loc.Append? { valListWindowPtrs := valListWindowPtrs[id := row + 1]; }
      var v := valLists[id];
      valLists := valLists[id := Held(v.first[row := val0], v.second[row := val1])];
    }

    // ----- filters -----

    predicate Accepts(f: BoFilter)
      reads `boTables
    {
      AcceptedBy(boTables, f)
    }

    // The layouts of the known tables.
    function Metas(): map<string, Layout>
      reads `boTables
    {
      map id | id in boTables :: boTables[id].layout
    }

    method BOCheckFilter(f: BoFilter) returns (r: Result<(), ServerError>)
      ensures r.Ok? <==>
        && f.leaves != [] && f.leaves[0].id in boTables
        && forall i :: 0 <= i < |f.leaves| ==>
             f.leaves[i].id == f.leaves[0].id && Shaped(f.leaves[i].q, boTables[f.leaves[0].id].layout)
    {
      if f.leaves == [] { return Err(EmptyFilter); }
      var id := f.leaves[0].id;
      if id !in boTables { return Err(UnknownTable); }
      var l := boTables[id].layout;
      var i := 0;
      while i < |f.leaves|
        invariant 0 <= i <= |f.leaves|
        invariant forall k :: 0 <= k < i ==> f.leaves[k].id == id && Shaped(f.leaves[k].q, l)
      {
        var leaf := f.leaves[i];
        if leaf.id != id { return Err(MixedTables); }
        if !Shaped(leaf.q, l) { return Err(BadShareSize); }
        i := i + 1;
      }
      return Ok(());
    }

    /** Checks a filter and lists, for every predicate, the positions of its leaves. */
    method BOGroupFilter(f: BoFilter) returns (r: Result<seq<seq<nat>>, ServerError>)
      ensures r.Ok? <==> Accepts(f)
      ensures r.Ok? ==> r.value == PredPositions(Tags(f.leaves)) && GroupsOf(r.value, f.leaves)
      ensures r.Ok? <==> Complete(boTables, f)
    {
      r := GroupLeaves(f);
      NoneMissing(f.leaves);
      if r.Ok? { GroupsAre(f.leaves); }
    }

    method GroupLeaves(f: BoFilter) returns (r: Result<seq<seq<nat>>, ServerError>)
      ensures r.Ok? <==> Accepts(f)
      ensures r.Ok? ==> r.value == PredPositions(Tags(f.leaves))
    {
      var check := BOCheckFilter(f);
      if check.Err? { return Err(check.error); }
      var preds: seq<seq<nat>> := [];
      var tags := Tags(f.leaves);
      var i := 0;
      while i < |tags|
        invariant 0 <= i <= |tags|
        invariant GroupedBy(preds, tags[..i])
      {
        preds := PushLeaf(preds, tags, i);
        i := i + 1;
      }
      assert tags[..i] == tags;
      assert preds == PredPositions(tags);
      i := 0;
      while i < |preds|
        invariant 0 <= i <= |preds|
        invariant forall p :: 0 <= p < i ==> preds[p] != []
      {
        if preds[i] == [] { assert Positions(tags, i) == []; return Err(MissingPredicate); }
        i := i + 1;
      }
      return Ok(preds);
    }

    // Resizes the predicate table to the leaf's predicate and appends the leaf to its list.
    static method PushLeaf(preds: seq<seq<nat>>, tags: seq<nat>, i: nat) returns (r: seq<seq<nat>>)
      requires i < |tags| && GroupedBy(preds, tags[..i])
      ensures GroupedBy(r, tags[..i + 1])
    {
      var p := tags[i];
      r := preds;
      if p >= |r| { r := r + seq(p + 1 - |r|, _ => []); }
      forall q: nat | |preds| <= q ensures Positions(tags[..i], q) == [] { NoPositions(tags[..i], q); }
      r := r[p := r[p] + [i]];
      var more := tags[..i + 1];
      assert more[..i] == tags[..i] && more[i] == p;
      forall q | 0 <= q < |r| ensures r[q] == Positions(more, q) {
        assert Positions(more, q) == Positions(more[..i], q) + (if more[i] == q then [i] else []);
      }
    }
  }
}
