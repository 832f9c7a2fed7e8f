/** The server's regrouping of incoming leaves by predicate (BOFSSEvalFilter and BOEvalFilter). */
module Regroup {
  import opened Bytes
  import opened Results
  import opened Compile

  datatype Option<+T> = None | Some(value: T)

  datatype DomainType = BlockDomain | OffsetDomain | OtherDomain

  // One incoming primitive of a BOFSS filter.
  datatype Primitive = Primitive(id: string, pred: nat, domainType: DomainType, domainSize: nat, useVdcf: bool,
                                 key0: seq<byte>, key1: seq<byte>)

  // A leaf under construction: the parser fills the first leaf whose half is still missing.
  datatype LeafKeys = LeafKeys(block: Option<Primitive>, offset: Option<Primitive>)

  datatype ParseError =
    | EmptyFilter | UnknownTable | MixedTables | EmptyKey | BlockSizeMismatch | OffsetSizeMismatch
    | UnknownDomain | MissingPredicate | MissingPrimitive

  // ----- what the parser is to compute -----

  // The primitives of one predicate and domain, in arrival order.
  function Select(items: seq<Primitive>, p: nat, d: DomainType): seq<Primitive>
  {
    if items == [] then []
    else
      var it := items[|items| - 1];
      Select(items[..|items| - 1], p, d) + (if it.pred == p && it.domainType == d then [it] else [])
  }

  // One more than the largest predicate index.
  function PredCount(items: seq<Primitive>): nat
  {
    if items == [] then 0
    else
      var n, p := PredCount(items[..|items| - 1]), items[|items| - 1].pred;
      if p >= n then p + 1 else n
  }

  function Nth(xs: seq<Primitive>, k: nat): Option<Primitive>
  {
    if k < |xs| then Some(xs[k]) else None
  }

  // The k-th block primitive beside the k-th offset primitive.
  function Zip(bs: seq<Primitive>, os: seq<Primitive>): (ls: seq<LeafKeys>)
    ensures |ls| == if |bs| > |os| then |bs| else |os|
  {
    seq(if |bs| > |os| then |bs| else |os|, k requires 0 <= k => LeafKeys(Nth(bs, k), Nth(os, k)))
  }

  function Group(items: seq<Primitive>, p: nat): seq<LeafKeys>
  {
    Zip(Select(items, p, BlockDomain), Select(items, p, OffsetDomain))
  }

  predicate Fits(it: Primitive, id: string, l: Layout)
  {
    && it.id == id && it.key0 != [] && it.key1 != []
    && match it.domainType
       case BlockDomain => it.domainSize == l.blockNum
       case OffsetDomain => it.domainSize == l.blockSize
       case OtherDomain => false
  }

  // Exactly the filters the server accepts: one known table, usable primitives, and for every predicate
  // index up to the largest at least one leaf, as many offset primitives as block primitives.
  ghost predicate Acceptable(items: seq<Primitive>, metas: map<string, Layout>)
  {
    && items != [] && items[0].id in metas
    && (forall i :: 0 <= i < |items| ==> Fits(items[i], items[0].id, metas[items[0].id]))
    && forall p :: 0 <= p < PredCount(items) ==>
         0 < |Select(items, p, BlockDomain)| == |Select(items, p, OffsetDomain)|
  }

  lemma AcceptableNonempty(items: seq<Primitive>, metas: map<string, Layout>)
    requires Acceptable(items, metas)
    ensures items != [] && items[0].id in metas && PredCount(items) > 0
  {
  }

  // ----- placing one primitive -----

  ghost predicate Building(leaves: seq<LeafKeys>, bs: seq<Primitive>, os: seq<Primitive>)
  {
    leaves == Zip(bs, os) || (bs == [] && os == [] && leaves == [LeafKeys(None, None)])
  }

  method PlaceBlock(leaves: seq<LeafKeys>, it: Primitive, ghost bs: seq<Primitive>, ghost os: seq<Primitive>)
    returns (r: seq<LeafKeys>)
    requires Building(leaves, bs, os)
    ensures r == Zip(bs + [it], os)
  {
    var k := 0;
    while k < |leaves|
      invariant 0 <= k <= |leaves| && k <= |bs|
    {
      if leaves[k].block.None? {
        r := leaves[k := leaves[k].(block := Some(it))];
        assert k == |bs|;
        return;
      }
      k := k + 1;
    }
    r := leaves + [LeafKeys(Some(it), None)];
    assert |leaves| == |bs|;
  }

  method PlaceOffset(leaves: seq<LeafKeys>, it: Primitive, ghost bs: seq<Primitive>, ghost os: seq<Primitive>)
    returns (r: seq<LeafKeys>)
    requires Building(leaves, bs, os)
    ensures r == Zip(bs, os + [it])
  {
    var k := 0;
    while k < |leaves|
      invariant 0 <= k <= |leaves| && k <= |os|
    {
      if leaves[k].offset.None? {
        r := leaves[k := leaves[k].(offset := Some(it))];
        assert k == |os|;
        return;
      }
      k := k + 1;
    }
    r := leaves + [LeafKeys(None, Some(it))];
    assert |leaves| == |os|;
  }

  ghost predicate Grouped(preds: seq<seq<LeafKeys>>, items: seq<Primitive>)
  {
    && |preds| == PredCount(items)
    && forall p :: 0 <= p < |preds| ==> preds[p] == Group(items, p)
  }

  lemma {:induction false} NothingBeyond(items: seq<Primitive>, p: nat, d: DomainType)
    requires p >= PredCount(items)
    ensures Select(items, p, d) == []
  {
    if items != [] { NothingBeyond(items[..|items| - 1], p, d); }
  }

  lemma SelectSnoc(items: seq<Primitive>, it: Primitive, p: nat, d: DomainType)
    ensures Select(items + [it], p, d)
         == if it.pred == p && it.domainType == d then Select(items, p, d) + [it] else Select(items, p, d)
  {
    assert (items + [it])[..|items|] == items;
  }

  // A new primitive changes only its own predicate's group.
  lemma GroupSnoc(items: seq<Primitive>, it: Primitive, p: nat)
    requires it.domainType != OtherDomain
    ensures
      var bs, os := Select(items, p, BlockDomain), Select(items, p, OffsetDomain);
      Group(items + [it], p)
      == if it.pred != p then Group(items, p)
         else if it.domainType == BlockDomain then Zip(bs + [it], os)
         else Zip(bs, os + [it])
  {
    hide Zip, Select;
    SelectSnoc(items, it, p, BlockDomain);
    SelectSnoc(items, it, p, OffsetDomain);
  }

  lemma EmptyGroup(items: seq<Primitive>, p: nat)
    requires p >= PredCount(items)
    ensures Group(items, p) == []
  {
    NothingBeyond(items, p, BlockDomain);
    NothingBeyond(items, p, OffsetDomain);
  }

  lemma PredCountSnoc(items: seq<Primitive>, it: Primitive)
    ensures PredCount(items + [it]) == if it.pred >= PredCount(items) then it.pred + 1 else PredCount(items)
  {
    assert (items + [it])[..|items|] == items;
  }

  // One primitive: resize the table to its predicate, open an empty leaf if there is none, place it.
  method Insert(preds: seq<seq<LeafKeys>>, it: Primitive, ghost items: seq<Primitive>) returns (r: seq<seq<LeafKeys>>)
    requires Grouped(preds, items) && it.domainType != OtherDomain
    ensures Grouped(r, items + [it])
  {
    hide Zip, Select, PredCount, Group;
    var p := it.pred;
    r := preds;
    if p >= |r| { r := r + seq(p + 1 - |r|, _ => []); }
    forall q | |preds| <= q ensures Group(items, q) == [] { EmptyGroup(items, q); }
    assert forall q :: 0 <= q < |r| ==> r[q] == Group(items, q);
    ghost var bs, os := Select(items, p, BlockDomain), Select(items, p, OffsetDomain);
    assert r[p] == Zip(bs, os) by { GroupIsZip(items, p); }
    var leaves := r[p];
    if leaves == [] {
      ZipEmpty(bs, os);
      leaves := [LeafKeys(None, None)];
    }
    if it.domainType == BlockDomain {
      leaves := PlaceBlock(leaves, it, bs, os);
    } else {
      leaves := PlaceOffset(leaves, it, bs, os);
    }
    r := r[p := leaves];
    PredCountSnoc(items, it);
    forall q | 0 <= q < |r| ensures r[q] == Group(items + [it], q) { GroupSnoc(items, it, q); }
  }

  lemma GroupIsZip(items: seq<Primitive>, p: nat)
    ensures Group(items, p) == Zip(Select(items, p, BlockDomain), Select(items, p, OffsetDomain))
  {
  }

  lemma ZipEmpty(bs: seq<Primitive>, os: seq<Primitive>)
    requires Zip(bs, os) == []
    ensures bs == [] && os == []
  {
  }

  // The leaves a parser returned for a predicate: its k-th block primitive with its k-th offset primitive.
  ghost predicate PairedLeaves(leaves: seq<LeafKeys>, items: seq<Primitive>, p: nat)
  {
    && |leaves| == |Select(items, p, BlockDomain)| == |Select(items, p, OffsetDomain)|
    && forall k :: 0 <= k < |leaves| ==>
         leaves[k] == LeafKeys(Some(Select(items, p, BlockDomain)[k]), Some(Select(items, p, OffsetDomain)[k]))
  }

  // ----- the same in terms of the message alone -----

  // Where the primitives of one predicate and domain stand.
  ghost function Places(items: seq<Primitive>, p: nat, d: DomainType): set<nat>
  {
    set i: nat | i < |items| && Suits(items[i], p, d)
  }

  // One primitive counts for a predicate and domain.
  predicate Suits(it: Primitive, p: nat, d: DomainType) { it.pred == p && it.domainType == d }

  // A message to be answered: for one known table, every primitive for one of its two domains and with both
  // keys, and up to the largest predicate index as many block as offset primitives, at least one.
  ghost predicate Complete(items: seq<Primitive>, metas: map<string, Layout>)
  {
    && items != [] && items[0].id in metas
    && (forall i :: 0 <= i < |items| ==>
          && items[i].id == items[0].id && items[i].key0 != [] && items[i].key1 != []
          && ((items[i].domainType == BlockDomain && items[i].domainSize == metas[items[0].id].blockNum)
              || (items[i].domainType == OffsetDomain && items[i].domainSize == metas[items[0].id].blockSize)))
    && forall i, p: nat :: 0 <= i < |items| && p <= items[i].pred ==>
         0 < |Places(items, p, BlockDomain)| == |Places(items, p, OffsetDomain)|
  }

  // The k-th primitive of a predicate and domain: k of them come before it.
  ghost predicate IsNth(items: seq<Primitive>, p: nat, d: DomainType, k: nat, it: Primitive)
  {
    exists i: nat :: i < |items| && items[i] == it && it.pred == p && it.domainType == d
                     && |Places(items[..i], p, d)| == k
  }

  lemma PlacesSnoc(items: seq<Primitive>, p: nat, d: DomainType)
    requires items != []
    ensures
      var n := |items| - 1;
      |Places(items, p, d)|
      == |Places(items[..n], p, d)| + if Suits(items[n], p, d) then 1 else 0
  {
    hide Suits;
    var n := |items| - 1;
    var was, now := Places(items[..n], p, d), Places(items, p, d);
    forall i: nat ensures i in now <==> i in was || (i == n && Suits(items[n], p, d)) {
      if i < n { assert items[..n][i] == items[i]; }
    }
    assert n !in was;
    assert now == if Suits(items[n], p, d) then was + {n} else was;
  }

  lemma {:induction false} SelectPlaces(items: seq<Primitive>, p: nat, d: DomainType)
    ensures |Select(items, p, d)| == |Places(items, p, d)|
  {
    if items == [] {
      assert Places(items, p, d) == {};
    } else {
      var n := |items| - 1;
      SelectPlaces(items[..n], p, d);
      PlacesSnoc(items, p, d);
    }
  }

  lemma {:induction false} SelectNth(items: seq<Primitive>, p: nat, d: DomainType, k: nat)
    requires k < |Select(items, p, d)|
    ensures IsNth(items, p, d, k, Select(items, p, d)[k])
  {
    var n := |items| - 1;
    var init := items[..n];
    SelectPlaces(init, p, d);
    if k < |Select(init, p, d)| {
      SelectNth(init, p, d, k);
      var i: nat :| i < |init| && init[i] == Select(items, p, d)[k] && |Places(init[..i], p, d)| == k;
      assert items[..i] == init[..i];
    }
  }

  // Some primitive's predicate index is at least this one.
  ghost predicate Reaches(items: seq<Primitive>, p: nat) { exists i :: 0 <= i < |items| && p <= items[i].pred }

  // The number of predicates is one more than the largest index.
  lemma {:induction false} PredCountIs(items: seq<Primitive>, p: nat)
    ensures Reaches(items, p) <==> p < PredCount(items)
  {
    if items != [] {
      var n := |items| - 1;
      PredCountIs(items[..n], p);
      if Reaches(items, p) {
        var i :| 0 <= i < |items| && p <= items[i].pred;
        if i < n { assert p <= items[..n][i].pred; }
      }
    }
  }

  lemma AcceptableIsComplete(items: seq<Primitive>, metas: map<string, Layout>)
    ensures Acceptable(items, metas) <==> Complete(items, metas)
  {
    hide Select, PredCount, Places;
    forall p: nat
      ensures |Select(items, p, BlockDomain)| == |Places(items, p, BlockDomain)|
      ensures |Select(items, p, OffsetDomain)| == |Places(items, p, OffsetDomain)|
      ensures Reaches(items, p) <==> p < PredCount(items)
    {
      SelectPlaces(items, p, BlockDomain);
      SelectPlaces(items, p, OffsetDomain);
      PredCountIs(items, p);
    }
  }

  // The leaves of a predicate, each with its own block and offset primitive.
  ghost predicate PairedInOrder(leaves: seq<LeafKeys>, items: seq<Primitive>, p: nat)
  {
    && |leaves| == |Places(items, p, BlockDomain)| == |Places(items, p, OffsetDomain)|
    && forall k :: 0 <= k < |leaves| ==>
         && leaves[k].block.Some? && IsNth(items, p, BlockDomain, k, leaves[k].block.value)
         && leaves[k].offset.Some? && IsNth(items, p, OffsetDomain, k, leaves[k].offset.value)
  }

  lemma PairsInOrder(leaves: seq<LeafKeys>, items: seq<Primitive>, p: nat)
    requires PairedLeaves(leaves, items, p)
    ensures PairedInOrder(leaves, items, p)
  {
    hide Select, Places, IsNth;
    SelectPlaces(items, p, BlockDomain);
    SelectPlaces(items, p, OffsetDomain);
    forall k | 0 <= k < |leaves|
      ensures IsNth(items, p, BlockDomain, k, Select(items, p, BlockDomain)[k])
      ensures IsNth(items, p, OffsetDomain, k, Select(items, p, OffsetDomain)[k])
    {
      SelectNth(items, p, BlockDomain, k);
      SelectNth(items, p, OffsetDomain, k);
    }
  }


  /** The parser accepts exactly the acceptable filters, whatever order their primitives arrive in, and
      pairs the k-th block primitive of each predicate with its k-th offset primitive. */
  method ParseBofss(items: seq<Primitive>, metas: map<string, Layout>)
    returns (r: Result<seq<seq<LeafKeys>>, ParseError>)
    ensures r.Ok? <==> Acceptable(items, metas)
    ensures r.Ok? ==> |r.value| == PredCount(items)
    ensures r.Ok? ==> forall p :: 0 <= p < |r.value| ==> r.value[p] != [] && PairedLeaves(r.value[p], items, p)
    ensures r.Ok? <==> Complete(items, metas)
    ensures r.Ok? ==> forall p :: 0 <= p < |r.value| ==> PairedInOrder(r.value[p], items, p)
    ensures r.Ok? ==> forall p: nat :: Reaches(items, p) <==> p < |r.value|
  {
    r := GroupBofss(items, metas);
    AcceptableIsComplete(items, metas);
    if r.Ok? {
      forall p | 0 <= p < |r.value| ensures PairedInOrder(r.value[p], items, p) { PairsInOrder(r.value[p], items, p); }
      forall p: nat ensures Reaches(items, p) <==> p < |r.value| {
        PredCountIs(items, p);
      }
    }
  }

  // Whether no leaf lacks a half.
  method AllPaired(leaves: seq<LeafKeys>, ghost bs: seq<Primitive>, ghost os: seq<Primitive>) returns (ok: bool)
    requires leaves == Zip(bs, os) && leaves != []
    ensures ok <==> 0 < |bs| == |os|
  {
    var k := 0;
    while k < |leaves|
      invariant 0 <= k <= |leaves| && k <= |bs| && k <= |os|
    {
      assert leaves[k] == LeafKeys(Nth(bs, k), Nth(os, k));
      if leaves[k].block.None? || leaves[k].offset.None? { return false; }
      k := k + 1;
    }
    return true;
  }

  // The parser's two passes.
  method GroupBofss(items: seq<Primitive>, metas: map<string, Layout>)
    returns (r: Result<seq<seq<LeafKeys>>, ParseError>)
    ensures r.Ok? <==> Acceptable(items, metas)
    ensures r.Ok? ==> |r.value| == PredCount(items)
    ensures r.Ok? ==> forall p :: 0 <= p < |r.value| ==> r.value[p] != [] && PairedLeaves(r.value[p], items, p)
  {
    if items == [] { return Err(EmptyFilter); }
    var id := items[0].id;
    if id !in metas { return Err(UnknownTable); }
    var l := metas[id];
    var preds: seq<seq<LeafKeys>> := [];
    var i := 0;
    while i < |items|
      invariant 0 <= i <= |items|
      invariant Grouped(preds, items[..i])
      invariant forall k :: 0 <= k < i ==> Fits(items[k], id, l)
    {
      var it := items[i];
      if it.id != id { assert !Fits(items[i], id, l); return Err(MixedTables); }
      if it.key0 == [] || it.key1 == [] { assert !Fits(items[i], id, l); return Err(EmptyKey); }
      match it.domainType {
        case BlockDomain =>
          if it.domainSize != l.blockNum { assert !Fits(items[i], id, l); return Err(BlockSizeMismatch); }
        case OffsetDomain =>
          if it.domainSize != l.blockSize { assert !Fits(items[i], id, l); return Err(OffsetSizeMismatch); }
        case OtherDomain => assert !Fits(items[i], id, l); return Err(UnknownDomain);
      }
      preds := Insert(preds, it, items[..i]);
      assert items[..i + 1] == items[..i] + [it];
      i := i + 1;
    }
    assert items[..i] == items;
    i := 0;
    while i < |preds|
      invariant 0 <= i <= |preds|
      invariant forall p :: 0 <= p < i ==> 0 < |Select(items, p, BlockDomain)| == |Select(items, p, OffsetDomain)|
    {
      if preds[i] == [] {
        ZipEmpty(Select(items, i, BlockDomain), Select(items, i, OffsetDomain));
        return Err(MissingPredicate);
      }
      var paired := AllPaired(preds[i], Select(items, i, BlockDomain), Select(items, i, OffsetDomain));
      if !paired { return Err(MissingPrimitive); }
      i := i + 1;
    }
    return Ok(preds);
  }
}
