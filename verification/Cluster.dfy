/** The three servers running a query together. Their exchanges are taken in lockstep, and each is recorded as
    an operation of the protocol of RssRuns: what every server sends is what that protocol makes it send. So
    every interleaving of the mailboxes leaves the servers with the vectors the lockstep run leaves. */
module Cluster {
  import opened Arith
  import opened Blocks
  import opened Rss
  import opened RssRuns
  import opened Trace
  import opened Results
  import opened Compile
  import opened Filters
  import opened QS = QueryServer
  import opened TableShares
  import opened Regroup
  import opened BofssLeaves

  // A product that uses the inputs k on of T drawn ahead finds them T - k before the counter.
  lemma InputShift(c: uint128, draw: nat, base: uint128, total: nat, k: nat)
    requires (c + draw) % R == (base + total) % R
    ensures InputAt(c, draw, k - total) == (base + k) % R
  {
    hide CongR;
    SameInputs(c + draw, base + total, k - total);
  }

  lemma SameInputs(a: int, b: int, d: int)
    requires a % R == b % R
    ensures (a + d) % R == (b + d) % R
  {
    hide CongR;
    CongRFrom(a, b, a / R - b / R);
    CongRRefl(d);
    CongRAdd(a, b, d, d);
    CongRMod(a + d, b + d);
  }

  // A list of shared vectors multiplied up one after the other, each product with a row of zero shares of its own.
  ghost function Folded(isAnd: bool, hs: seq<Trio<Held>>, zs: seq<Trio<Vec>>, w: nat): (h: Trio<Held>)
    requires |hs| == |zs| + 1 && (forall k :: 0 <= k < |hs| ==> Sized(hs[k], w))
    requires forall k :: 0 <= k < |zs| ==> Rows(zs[k], w)
    ensures Sized(h, w)
  {
    if zs == [] then hs[0]
    else
      var n := |zs|;
      var before := Folded(isAnd, hs[..n], zs[..n - 1], w);
      if isAnd then And(before, hs[n], zs[n - 1], w) else Or(before, hs[n], zs[n - 1], w)
  }

  lemma FoldedOne(isAnd: bool, hs: seq<Trio<Held>>, w: nat)
    requires hs != [] && Sized(hs[0], w)
    ensures Folded(isAnd, hs[..1], [], w) == hs[0]
  {
  }

  lemma FoldedNext(isAnd: bool, hs: seq<Trio<Held>>, zs: seq<Trio<Vec>>, w: nat, i: nat)
    requires 1 <= i < |hs| == |zs| + 1 && (forall k :: 0 <= k < |hs| ==> Sized(hs[k], w))
    requires forall k :: 0 <= k < |zs| ==> Rows(zs[k], w)
    ensures
      var before := Folded(isAnd, hs[..i], zs[..i - 1], w);
      Folded(isAnd, hs[..i + 1], zs[..i], w)
      == if isAnd then And(before, hs[i], zs[i - 1], w) else Or(before, hs[i], zs[i - 1], w)
  {
    hide And, Or, Sized, Rows;
    assert hs[..i + 1][..i] == hs[..i] && zs[..i][..i - 1] == zs[..i - 1];
  }

  lemma StandsSized(hs: seq<Trio<Held>>, w: nat, vals: seq<seq<int>>)
    requires AllStand(hs, w, vals)
    ensures forall k :: 0 <= k < |hs| ==> Sized(hs[k], w)
  {
    hide Replicated, Sized;
    forall k | 0 <= k < |hs| ensures Sized(hs[k], w) { ReplicatedIsSized(hs[k], w); }
  }

  class Cluster {
    const s0: QueryServer
    const s1: QueryServer
    const s2: QueryServer
    // The operations whose messages have been exchanged.
    ghost var ops: seq<Op>

    // Distinct servers, one key ring, equal counters, free mailboxes.
    ghost predicate Idle()
      reads s0`prfKey0, s0`prfKey1, s0`prfCounter, s0`multReceivedShares
      reads s1`prfKey0, s1`prfKey1, s1`prfCounter, s1`multReceivedShares
      reads s2`prfKey0, s2`prfKey1, s2`prfCounter, s2`multReceivedShares
    {
      && s0 != s1 && s1 != s2 && s2 != s0
      && s0.prf == s1.prf == s2.prf
      && s1.prfKey1 == s0.prfKey0 && s2.prfKey1 == s1.prfKey0 && s0.prfKey1 == s2.prfKey0
      && s0.prfCounter == s1.prfCounter == s2.prfCounter
      && s0.multReceivedShares == s1.multReceivedShares == s2.multReceivedShares == Empty
    }

    // The operations are sound, and the counters are `ahead` inputs further than they have used.
    ghost predicate Traced(ahead: nat)
      reads `ops, s0`prfKey0, s1`prfKey0, s2`prfKey0, s0`prfCounter
    {
      Sound(ops) && s0.prfCounter == (CounterAfter(Keys(), 0, ops) + ahead) % R
    }

    // The state between two operations.
    ghost predicate Valid()
      reads `ops
      reads s0`prfKey0, s0`prfKey1, s0`prfCounter, s0`multReceivedShares
      reads s1`prfKey0, s1`prfKey1, s1`prfCounter, s1`multReceivedShares
      reads s2`prfKey0, s2`prfKey1, s2`prfCounter, s2`multReceivedShares
    {
      Idle() && Traced(0)
    }

    // Starts three servers; each sends its key to its successor.
    constructor (f: Prf, k0: uint64, k1: uint64, k2: uint64)
      ensures Valid() && fresh(s0) && fresh(s1) && fresh(s2)
      ensures s0.boTables == s1.boTables == s2.boTables == map[] && s0.valLists == s1.valLists == s2.valLists == map[]
      ensures ops == [] && s0.prf == s1.prf == s2.prf == f && s0.prfCounter == 0
      ensures s0.prfKey0 == k0 && s1.prfKey0 == k1 && s2.prfKey0 == k2
      ensures s0.prfKey1 == k2 && s1.prfKey1 == k0 && s2.prfKey1 == k1
    {
      var a := new QueryServer(f, k0);
      var b := new QueryServer(f, k1);
      var c := new QueryServer(f, k2);
      b.FinishSystemInit(a.prfKey0);
      c.FinishSystemInit(b.prfKey0);
      a.FinishSystemInit(c.prfKey0);
      s0, s1, s2 := a, b, c;
      ops := [];
    }

    // Everyone sends to its successor, everyone takes what its predecessor sent.
    method Deliver(m: Trio<seq<Vec>>) returns (r: Trio<seq<Vec>>)
      requires Idle()
      modifies s0`multReceivedShares, s1`multReceivedShares, s2`multReceivedShares
      ensures Idle() && r == Trio(m.s2, m.s0, m.s1)
    {
      s1.FinishMultiply(m.s0);
      s2.FinishMultiply(m.s1);
      s0.FinishMultiply(m.s2);
      var r0 := s0.TakeShares();
      var r1 := s1.TakeShares();
      var r2 := s2.TakeShares();
      r := Trio(r0, r1, r2);
    }

    ghost method Record(op: Op)
      requires Traced(Inputs(op)) && Sound(ops + [op])
      modifies `ops
      ensures Traced(0) && ops == old(ops) + [op]
    {
      hide Sound, CounterAfter, Inputs;
      CounterSnoc(Keys(), 0, ops, op);
      CounterIs(s0.prfCounter);
      ops := ops + [op];
    }

    /** One exchange, of the messages of one operation. */
    method Exchange(m: Trio<seq<Vec>>, ghost op: Op) returns (r: Trio<seq<Vec>>)
      requires Idle() && Traced(Inputs(op)) && Sound(ops + [op]) && m == Messages(Keys(), 0, ops, op)
      modifies `ops, s0`multReceivedShares, s1`multReceivedShares, s2`multReceivedShares
      ensures Valid() && ops == old(ops) + [op] && r == Trio(m.s2, m.s0, m.s1)
    {
      hide Idle, Traced, Messages, Sound, CounterAfter, Inputs;
      r := Deliver(m);
      Record(op);
    }

    // Zero shares for n rows, drawn ahead of the products that will use them.
    method AllocZeroRows(n: nat, w: nat) returns (z: seq<Trio<Vec>>)
      requires Valid()
      modifies s0`prfCounter, s1`prfCounter, s2`prfCounter
      ensures Idle() && Traced(RowStart(n, w)) && s0.prfCounter == (old(s0.prfCounter) + RowStart(n, w)) % R
      ensures |z| == n && forall k :: 0 <= k < n ==>
                ZeroRow(z[k], w) && z[k] == ZeroRows(Keys(), (old(s0.prfCounter) + RowStart(k, w)) % R, w)
      ensures FreshRows(z, old(s0.prfCounter), w)
    {
      hide CounterAfter, Sound, ZeroRow, ZeroRows, ZeroVec, QueryServer.ZeroSharesFrom, QueryServer.ZeroShares,
        RowStart,
        FreshRows;
      CounterIs(CounterAfter(Keys(), 0, ops));
      forall k | 0 <= k < n
        ensures ServersRows(RowStart(k, w), w) == ZeroRows(Keys(), (s0.prfCounter + RowStart(k, w)) % R, w)
                && ZeroRow(ServersRows(RowStart(k, w), w), w)
      {
        RowsAt(RowStart(k, w), w);
        ZeroRowsCancel(Keys(), (s0.prfCounter + RowStart(k, w)) % R, w);
      }
      var z0 := s0.AllocZeroRows(n, w);
      var z1 := s1.AllocZeroRows(n, w);
      var z2 := s2.AllocZeroRows(n, w);
      z := seq(n, k requires 0 <= k < n => Trio(z0[k], z1[k], z2[k]));
      RowsTogether(z, z0, z1, z2, old(s0.prfCounter), w);
      assert forall k :: 0 <= k < n ==> z[k] == old(ServersRows(RowStart(k, w), w));
    }

    // Every server's part of every row is its zero shares from one input on, each row's behind the one's before.
    ghost predicate FreshRows(zs: seq<Trio<Vec>>, from: nat, w: nat)
      reads s0`prfKey0, s0`prfKey1, s1`prfKey0, s1`prfKey1, s2`prfKey0, s2`prfKey1
    {
      forall k :: 0 <= k < |zs| ==>
        && s0.ZeroShares(zs[k].s0, from + k * w)
        && s1.ZeroShares(zs[k].s1, from + k * w)
        && s2.ZeroShares(zs[k].s2, from + k * w)
    }

    lemma NoRows(from: nat, w: nat)
      ensures FreshRows([], from, w)
    {
    }

    lemma RowsTogether(z: seq<Trio<Vec>>, z0: seq<Vec>, z1: seq<Vec>, z2: seq<Vec>, from: nat, w: nat)
      requires |z| == |z0| == |z1| == |z2| && forall k :: 0 <= k < |z| ==> z[k] == Trio(z0[k], z1[k], z2[k])
      requires forall k :: 0 <= k < |z| ==> s0.ZeroShares(z0[k], from + k * w)
      requires forall k :: 0 <= k < |z| ==> s1.ZeroShares(z1[k], from + k * w)
      requires forall k :: 0 <= k < |z| ==> s2.ZeroShares(z2[k], from + k * w)
      ensures FreshRows(z, from, w)
    {
      hide QueryServer.ZeroShares;
    }

    // The three servers' zero shares from one input on, relative to their counters.
    ghost function ServersRows(from: nat, w: nat): Trio<Vec>
      reads s0`prfKey0, s0`prfKey1, s0`prfCounter, s1`prfKey0, s1`prfKey1, s1`prfCounter
      reads s2`prfKey0, s2`prfKey1, s2`prfCounter
    {
      Trio(s0.ZeroSharesFrom(from, w), s1.ZeroSharesFrom(from, w), s2.ZeroSharesFrom(from, w))
    }

    lemma RowsAt(from: nat, w: nat)
      requires Idle()
      ensures ServersRows(from, w) == ZeroRows(Keys(), (s0.prfCounter + from) % R, w)
    {
      hide ZeroRun;
    }

    // The key ring.
    ghost function Keys(): Setup
      reads s0`prfKey0, s1`prfKey0, s2`prfKey0
    {
      Setup(s0.prf, Trio(s0.prfKey0, s1.prfKey0, s2.prfKey0))
    }

    // The servers hold the vector as the k-th result of their operations.
    ghost predicate Result(k: nat, h: Trio<Held>)
      reads `ops, s0`prfKey0, s1`prfKey0, s2`prfKey0
    {
      ResultAt(Keys(), 0, ops, k, h)
    }

    ghost predicate Results(ks: seq<nat>, hs: seq<Trio<Held>>)
      reads `ops, s0`prfKey0, s1`prfKey0, s2`prfKey0
    {
      ResultsAt(Keys(), 0, ops, ks, hs)
    }

    /** RSSReshare on a list of sets, in one exchange: every set becomes a replicated vector that opens to
        the sum of its six words, and the counters move on by one window a set. */
    method RSSReshare(sets: seq<Trio<Held>>, w: nat) returns (out: seq<Trio<Held>>, ghost base: nat)
      requires Valid() && forall k :: 0 <= k < |sets| ==> Sized(sets[k], w)
      modifies `ops, s0`prfCounter, s0`multReceivedShares, s1`prfCounter, s1`multReceivedShares, s2`prfCounter,
               s2`multReceivedShares
      ensures Valid() && ops == old(ops) + [ReshareOp(sets, w)]
      ensures s0.prfCounter == (old(s0.prfCounter) + |sets| * w) % R
      ensures |out| == |sets|
      ensures forall k :: 0 <= k < |sets| ==>
                && out[k] == ReshareSet(sets[k], SetZeros(Keys(), old(s0.prfCounter), |sets|, k, w), w)
                && Reshared(out[k], sets[k], w) && Result(base + k, out[k])
    {
      hide CongR, Reshared, ReshareSet, MaskSet, MaskedSets, ZeroAt, CounterAfter, Sound, PlainRun, Messages, ResultAt,
        Sized;
      var n := |sets|;
      ghost var c, was := s0.prfCounter, ops;
      base := |PlainRun(ops)|;
      CounterIs(CounterAfter(Keys(), 0, ops));
      ReshareNext(Keys(), 0, ops, sets, w);
      var m := MaskAll(sets, w);
      var r := Exchange(m, ReshareOp(sets, w));
      out := seq(n, k requires 0 <= k < n =>
        Trio(Held(r.s0[k], m.s0[k]), Held(r.s1[k], m.s1[k]), Held(r.s2[k], m.s2[k])));
      forall k | 0 <= k < n
        ensures out[k] == ReshareSet(sets[k], SetZeros(Keys(), c, n, k, w), w) && Reshared(out[k], sets[k], w)
                && Result(base + k, out[k])
      {
        MaskedAt(Keys(), c, sets, w, k);
        PassedOn(sets[k], SetZeros(Keys(), c, n, k, w), w);
        ZerosCancel(Keys(), (c + SetInput(k, n, w)) % R);
        ReshareOpens(sets[k], SetZeros(Keys(), c, n, k, w), w);
      }
    }

    static lemma CounterIs(c: uint128)
      ensures (c + 0) % R == c
    {
    }

    static lemma PassedOn(s: Trio<Held>, z: Trio<uint128>, w: nat)
      requires Sized(s, w)
      ensures ReshareSet(s, z, w) == Ring(Trio(MaskSet(s.s0, z.s0), MaskSet(s.s1, z.s1), MaskSet(s.s2, z.s2)))
    {
    }

    // The three servers' messages for a reshare.
    method MaskAll(sets: seq<Trio<Held>>, w: nat) returns (m: Trio<seq<Vec>>)
      requires Valid() && forall k :: 0 <= k < |sets| ==> Sized(sets[k], w)
      modifies s0`prfCounter, s1`prfCounter, s2`prfCounter
      ensures Idle() && Traced(|sets| * w) && s0.prfCounter == (old(s0.prfCounter) + |sets| * w) % R
      ensures m == MaskedSets(Keys(), old(s0.prfCounter), sets, w)
      ensures |m.s0| == |m.s1| == |m.s2| == |sets|
      ensures forall k :: 0 <= k < |sets| ==>
                && s0.Masked(m.s0[k], sets[k].s0, old(s0.prfCounter) + (k * |sets| + w))
                && s1.Masked(m.s1[k], sets[k].s1, old(s0.prfCounter) + (k * |sets| + w))
                && s2.Masked(m.s2[k], sets[k].s2, old(s0.prfCounter) + (k * |sets| + w))
    {
      hide MaskRun, CounterAfter, Sound, EvenSets, QueryServer.Masked;
      EvenParts(sets, w);
      CounterIs(CounterAfter(Keys(), 0, ops));
      var m0 := s0.PrepareReshare(PartOf(sets, 0), w);
      var m1 := s1.PrepareReshare(PartOf(sets, 1), w);
      var m2 := s2.PrepareReshare(PartOf(sets, 2), w);
      m := Trio(m0, m1, m2);
    }

    // What a product needs: its operands are earlier results, its zero shares come from its own inputs.
    ghost predicate Ready(x: Trio<Held>, y: Trio<Held>, z: Trio<Vec>, w: nat, i: nat, j: nat, draw: nat, shift: int)
      reads `ops
      reads s0`prfKey0, s0`prfKey1, s0`prfCounter, s0`multReceivedShares
      reads s1`prfKey0, s1`prfKey1, s1`prfCounter, s1`multReceivedShares
      reads s2`prfKey0, s2`prfKey1, s2`prfCounter, s2`multReceivedShares
    {
      && Idle() && Traced(draw) && Sized(x, w) && Sized(y, w) && Result(i, x) && Result(j, y)
      && z == ZeroRows(Keys(), InputAt(CounterAfter(Keys(), 0, ops), draw, shift), w)
    }

    // Multiplies in one exchange.
    method Multiply(x: Trio<Held>, y: Trio<Held>, z: Trio<Vec>, w: nat, ghost isAnd: bool, ghost i: nat, ghost j: nat,
                    ghost draw: nat, ghost shift: int)
      returns (out: Trio<Held>)
      requires Ready(x, y, z, w, i, j, draw, shift)
      modifies `ops, s0`multReceivedShares, s1`multReceivedShares, s2`multReceivedShares
      ensures Valid() && out == And(x, y, z, w)
      ensures ops == old(ops) + [if isAnd then AndOp(i, j, draw, shift) else OrOp(i, j, draw, shift)]
      ensures Result(|PlainRun(old(ops))|, if isAnd then out else Or(x, y, z, w))
    {
      hide MulVec, CounterAfter, Sound, PlainRun, Messages, ResultAt, ZeroRows, AddHeld;
      ghost var op := if isAnd then AndOp(i, j, draw, shift) else OrOp(i, j, draw, shift);
      ProductNext(Keys(), 0, ops, isAnd, i, j, x, y, w, draw, shift);
      var m0 := s0.MultiplyLocal(x.s0, y.s0, z.s0);
      var m1 := s1.MultiplyLocal(x.s1, y.s1, z.s1);
      var m2 := s2.MultiplyLocal(x.s2, y.s2, z.s2);
      var r := Exchange(Trio([m0], [m1], [m2]), op);
      out := Trio(Held(r.s0[0], m0), Held(r.s1[0], m1), Held(r.s2[0], m2));
    }

    method AndFilters(x: Trio<Held>, y: Trio<Held>, z: Trio<Vec>, w: nat, ghost i: nat, ghost j: nat, ghost draw: nat,
                      ghost shift: int)
      returns (out: Trio<Held>)
      requires Ready(x, y, z, w, i, j, draw, shift)
      modifies `ops, s0`multReceivedShares, s1`multReceivedShares, s2`multReceivedShares
      ensures Valid() && out == And(x, y, z, w)
      ensures ops == old(ops) + [AndOp(i, j, draw, shift)] && Result(|PlainRun(old(ops))|, out)
    {
      hide And, Or, PlainRun, ResultAt, ZeroRows, CounterAfter, Sound;
      out := Multiply(x, y, z, w, true, i, j, draw, shift);
    }

    method OrFilters(x: Trio<Held>, y: Trio<Held>, z: Trio<Vec>, w: nat, ghost i: nat, ghost j: nat, ghost draw: nat,
                     ghost shift: int)
      returns (out: Trio<Held>)
      requires Ready(x, y, z, w, i, j, draw, shift)
      modifies `ops, s0`multReceivedShares, s1`multReceivedShares, s2`multReceivedShares
      ensures Valid() && out == Or(x, y, z, w)
      ensures ops == old(ops) + [OrOp(i, j, draw, shift)] && Result(|PlainRun(old(ops))|, out)
    {
      hide And, AddHeld, PlainRun, ResultAt, ZeroRows, CounterAfter, Sound;
      var p := Multiply(x, y, z, w, false, i, j, draw, shift);
      var h0 := s0.AddOperands(p.s0, x.s0, y.s0);
      var h1 := s1.AddOperands(p.s1, x.s1, y.s1);
      var h2 := s2.AddOperands(p.s2, x.s2, y.s2);
      out := Trio(h0, h1, h2);
    }

    /** Combines filters one after the other, by AND or by OR; a single filter needs no exchange. */
    method FoldFilters(isAnd: bool, hs: seq<Trio<Held>>, w: nat, ghost vals: seq<seq<int>>, ghost ks: seq<nat>)
      returns (out: Trio<Held>, ghost at: nat, ghost zs: seq<Trio<Vec>>)
      requires Valid() && |hs| > 0 && AllStand(hs, w, vals) && Results(ks, hs)
      modifies `ops, s0`prfCounter, s0`multReceivedShares, s1`prfCounter, s1`multReceivedShares, s2`prfCounter,
               s2`multReceivedShares
      ensures Valid() && s0.prfCounter == (old(s0.prfCounter) + RowStart(|hs| - 1, w)) % R
      ensures StandsFor(out, w, FoldRows(isAnd, vals, w))
      ensures old(ops) <= ops && Result(at, out)
      ensures |zs| == |hs| - 1 && (forall k :: 0 <= k < |hs| ==> Sized(hs[k], w))
      ensures FreshRows(zs, old(s0.prfCounter), w) && (forall k :: 0 <= k < |zs| ==> Rows(zs[k], w))
      ensures out == Folded(isAnd, hs, zs, w)
    {
      hide And, Or, ZeroRow, FoldRows, Replicated, Open, Times, Either, CounterAfter, Sound, PlainRun, ResultAt,
        ZeroRows, InputAt, Sized, Rows, FreshRows, Folded;
      out, at, zs := hs[0], ks[0], [];
      FoldOfOne(isAnd, vals, w);
      StandsSized(hs, w, vals);
      FoldedOne(isAnd, hs, w);
      NoRows(s0.prfCounter, w);
      if |hs| == 1 {
        assert vals[..1] == vals && hs[..1] == hs;
        return;
      }
      ghost var base, total := s0.prfCounter, RowStart(|hs| - 1, w);
      ghost var draw: nat := total;
      var zero := AllocZeroRows(|hs| - 1, w);
      forall k | 0 <= k < |zero| ensures Rows(zero[k], w) { ZeroRowSized(zero[k], w); }
      zs := zero;
      var i := 1;
      while i < |hs|
        invariant 1 <= i <= |hs| && Idle() && Traced(draw) && s0.prfCounter == (base + total) % R
        invariant i > 1 ==> draw == 0
        invariant old(ops) <= ops && Results(ks, hs) && Result(at, out)
        invariant StandsFor(out, w, FoldRows(isAnd, vals[..i], w))
        invariant out == Folded(isAnd, hs[..i], zero[..i - 1], w)
      {
        FoldedNext(isAnd, hs, zero, w, i);
        out, at := FoldNext(isAnd, hs, w, vals, ks, i, out, zero[i - 1], at, draw, base, total);
        draw := 0;
        i := i + 1;
      }
      assert vals[..i] == vals && hs[..i] == hs && zero[..i - 1] == zero;
    }

    // Takes in filter i.
    method FoldNext(isAnd: bool, hs: seq<Trio<Held>>, w: nat, ghost vals: seq<seq<int>>, ghost ks: seq<nat>, i: nat,
                    before: Trio<Held>, z: Trio<Vec>, ghost at: nat, ghost draw: nat, ghost base: uint128,
                    ghost total: nat)
      returns (out: Trio<Held>, ghost now: nat)
      requires Idle() && Traced(draw) && s0.prfCounter == (base + total) % R
      requires 1 <= i < |hs| && AllStand(hs, w, vals) && Results(ks, hs) && Result(at, before)
      requires StandsFor(before, w, FoldRows(isAnd, vals[..i], w))
      requires ZeroRow(z, w) && z == ZeroRows(Keys(), (base + RowStart(i - 1, w)) % R, w)
      modifies `ops, s0`multReceivedShares, s1`multReceivedShares, s2`multReceivedShares
      ensures Valid() && StandsFor(out, w, FoldRows(isAnd, vals[..i + 1], w))
      ensures old(ops) <= ops && Results(ks, hs) && Result(now, out)
      ensures Sized(before, w) && Sized(hs[i], w) && Rows(z, w)
      ensures out == if isAnd then And(before, hs[i], z, w) else Or(before, hs[i], z, w)
    {
      hide And, Or, ZeroRow, FoldRows, Replicated, Open, Times, Either, CounterAfter, Sound, PlainRun, ResultAt,
        ZeroRows,
        InputAt;
      now := |PlainRun(ops)|;
      ghost var shift := RowStart(i - 1, w) - total;
      InputShift(CounterAfter(Keys(), 0, ops), draw, base, total, RowStart(i - 1, w));
      ReplicatedIsSized(before, w);
      ReplicatedIsSized(hs[i], w);
      ZeroRowSized(z, w);
      FoldSnoc(isAnd, vals, w, i);
      if isAnd {
        AndStands(before, hs[i], z, w, FoldRows(isAnd, vals[..i], w), vals[i]);
        out := AndFilters(before, hs[i], z, w, at, ks[i], draw, shift);
      } else {
        OrStands(before, hs[i], z, w, FoldRows(isAnd, vals[..i], w), vals[i]);
        out := OrFilters(before, hs[i], z, w, at, ks[i], draw, shift);
      }
      AllKept(Keys(), 0, old(ops), ops, ks, hs);
    }

    // Every server has the table, and together they hold one-hot shares of the buckets.
    ghost predicate HoldsTable(id: string, l: Layout, buckets: seq<nat>)
      reads s0`boTables, s1`boTables, s2`boTables
    {
      && id in s0.boTables && id in s1.boTables && id in s2.boTables
      && HoldsBuckets(Trio(s0.boTables[id], s1.boTables[id], s2.boTables[id]), l, buckets)
    }

    ghost function Tables(id: string): Trio<BoTable>
      requires id in s0.boTables && id in s1.boTables && id in s2.boTables
      reads s0`boTables, s1`boTables, s2`boTables
    {
      Trio(s0.boTables[id], s1.boTables[id], s2.boTables[id])
    }

    // The same fresh table at every server.
    method InitBOTable(id: string, windowSize: nat, numBuckets: nat, logBlockNum: nat)
      requires Valid() && ValidTableParameters(numBuckets, logBlockNum)
      modifies s0`boTables, s1`boTables, s2`boTables
      ensures id in s0.boTables && id in s1.boTables && id in s2.boTables
      ensures
        var t := FreshTable(windowSize, LayoutFor(numBuckets, logBlockNum));
        && s0.boTables == old(s0.boTables)[id := t]
        && s1.boTables == old(s1.boTables)[id := t]
        && s2.boTables == old(s2.boTables)[id := t]
      ensures s0.boTables[id] == s1.boTables[id] == s2.boTables[id] && Blank(s0.boTables[id], windowSize)
      ensures s0.boTables[id].layout.blockNum == Bits.Pow2(logBlockNum)
              && s0.boTables[id].layout.blockSize * Bits.Pow2(logBlockNum) == numBuckets
    {
      hide FreshTable, LayoutFor, Blank;
      var r0 := s0.AddBOTable(id, windowSize, numBuckets, logBlockNum);
      var r1 := s1.AddBOTable(id, windowSize, numBuckets, logBlockNum);
      var r2 := s2.AddBOTable(id, windowSize, numBuckets, logBlockNum);
    }

    // The dot products of one leaf at the three servers.
    method DotLeaf(id: string, q: Trio<QueryVecs>, ghost l: Layout, ghost buckets: seq<nat>, ghost m: LeafMask)
      returns (bs: Trio<Held>, os: Trio<Held>)
      requires HoldsTable(id, l, buckets) && LeafMaterial(q, l, m)
      ensures TrioDots(bs, BlockFirst(q), BlockSecond(q), BlockRows(Tables(id)), BlockCopies(Tables(id)), l.blockNum)
      ensures TrioDots(os, OffsetFirst(q), OffsetSecond(q), OffsetRows(Tables(id)), OffsetCopies(Tables(id)),
                       l.blockSize)
      ensures Sized(bs, |buckets|) && Sized(os, |buckets|)
    {
      hide WellShaped, DotPair, SharedRows;
      HeldTablesShaped(Tables(id), l, buckets);
      var b0, o0 := s0.EvalLeaf(id, q.s0);
      var b1, o1 := s1.EvalLeaf(id, q.s1);
      var b2, o2 := s2.EvalLeaf(id, q.s2);
      bs, os := Trio(b0, b1, b2), Trio(o0, o1, o2);
      DotsSized(bs, BlockFirst(q), BlockSecond(q), l.blockNum, BlockRows(Tables(id)), BlockCopies(Tables(id)),
                BlocksOf(l, buckets));
      DotsSized(os, OffsetFirst(q), OffsetSecond(q), l.blockSize, OffsetRows(Tables(id)), OffsetCopies(Tables(id)),
                OffsetsOf(l, buckets));
    }

    // The dot products of a list of leaves.
    method DotLeaves(id: string, qs: seq<Trio<QueryVecs>>, ghost l: Layout, ghost buckets: seq<nat>,
                     ghost masks: seq<LeafMask>)
      returns (blocks: seq<Trio<Held>>, offsets: seq<Trio<Held>>)
      requires HoldsTable(id, l, buckets) && AllMaterial(qs, l, masks)
      ensures |blocks| == |offsets| == |qs|
      ensures forall k :: 0 <= k < |qs| ==> LeafDots(blocks[k], offsets[k], qs[k], Tables(id), l, |buckets|)
    {
      hide TrioDots, HoldsBuckets, LeafMaterial, Sized;
      blocks, offsets := [], [];
      var i := 0;
      while i < |qs|
        invariant 0 <= i <= |qs| && |blocks| == |offsets| == i
        invariant forall k :: 0 <= k < i ==> LeafDots(blocks[k], offsets[k], qs[k], Tables(id), l, |buckets|)
      {
        var bs, os := DotLeaf(id, qs[i], l, buckets, masks[i]);
        blocks, offsets := blocks + [bs], offsets + [os];
        i := i + 1;
      }
    }

    // One exchange for both halves of all leaves, the blocks before the offsets.
    method ReshareHalves(blocks: seq<Trio<Held>>, offsets: seq<Trio<Held>>, w: nat)
      returns (bs: seq<Trio<Held>>, os: seq<Trio<Held>>, ghost bk: seq<nat>, ghost ok: seq<nat>)
      requires Valid() && |blocks| == |offsets|
      requires forall k :: 0 <= k < |blocks| ==> Sized(blocks[k], w) && Sized(offsets[k], w)
      modifies `ops, s0`prfCounter, s0`multReceivedShares, s1`prfCounter, s1`multReceivedShares, s2`prfCounter,
               s2`multReceivedShares
      ensures Valid() && |bs| == |os| == |blocks|
      ensures forall k :: 0 <= k < |blocks| ==> Reshared(bs[k], blocks[k], w) && Reshared(os[k], offsets[k], w)
      ensures old(ops) <= ops && Results(bk, bs) && Results(ok, os)
    {
      hide Reshared, Sized, ReshareSet, ResultAt, Idle, Traced, SetZeros;
      var n := |blocks|;
      var shared;
      ghost var base;
      shared, base := RSSReshare(blocks + offsets, w);
      bs, os := shared[..n], shared[n..];
      bk, ok := seq<nat>(n, k requires 0 <= k < n => base + k), seq<nat>(n, k requires 0 <= k < n => base + (n + k));
      forall k | 0 <= k < n ensures Result(bk[k], bs[k]) && Result(ok[k], os[k]) {
        assert Result(base + k, shared[k]) && Result(base + (n + k), shared[n + k]);
      }
      forall k | 0 <= k < n ensures Reshared(bs[k], blocks[k], w) && Reshared(os[k], offsets[k], w) {
        assert Reshared(shared[k], blocks[k], w) && Reshared(shared[n + k], offsets[k], w);
      }
    }

    /** Evaluates leaves: their dot products are reshared in one exchange, all blocks before all offsets,
        then each leaf's two halves are multiplied. */
    method EvalLeaves(id: string, qs: seq<Trio<QueryVecs>>, w: nat, ghost l: Layout, ghost buckets: seq<nat>,
                      ghost masks: seq<LeafMask>)
      returns (leaves: seq<Trio<Held>>, ghost ks: seq<nat>)
      requires Valid() && HoldsTable(id, l, buckets) && w == |buckets| && AllMaterial(qs, l, masks)
      modifies `ops, s0`prfCounter, s0`multReceivedShares, s1`prfCounter, s1`multReceivedShares, s2`prfCounter,
               s2`multReceivedShares
      ensures Valid()
      ensures |leaves| == |qs| && forall k :: 0 <= k < |qs| ==> LeafValue(leaves[k], l, masks[k], buckets)
      ensures old(ops) <= ops && Results(ks, leaves)
    {
      hide LeafDots, HoldsBuckets, ZeroRow, LeafMaterial, Reshared, LeafValue, MaskFits, Sized, And, Idle, Traced,
        Result;
      var n := |qs|;
      ghost var t := Tables(id);
      var blocks, offsets := DotLeaves(id, qs, l, buckets, masks);
      forall k | 0 <= k < n ensures Sized(blocks[k], w) && Sized(offsets[k], w) {
        LeafDotsSized(blocks[k], offsets[k], qs[k], t, l, w);
      }
      var bs, os;
      ghost var bk, ok, zs;
      bs, os, bk, ok := ReshareHalves(blocks, offsets, w);
      forall k | 0 <= k < n ensures Sized(bs[k], w) && Sized(os[k], w) {
        ResharedSized(bs[k], blocks[k], w);
        ResharedSized(os[k], offsets[k], w);
      }
      leaves, ks, zs := MultiplyHalves(bs, os, w, bk, ok);
      forall k | 0 <= k < n ensures LeafValue(leaves[k], l, masks[k], buckets) {
        LeafStands(qs[k], t, l, buckets, masks[k], blocks[k], offsets[k], bs[k], os[k], zs[k]);
      }
    }

    static lemma ResharedSized(out: Trio<Held>, h: Trio<Held>, w: nat)
      requires Reshared(out, h, w)
      ensures Sized(out, w)
    {
    }

    // Multiplies every leaf's two halves, with zero shares drawn for all of them first.
    method MultiplyHalves(bs: seq<Trio<Held>>, os: seq<Trio<Held>>, w: nat, ghost bk: seq<nat>, ghost ok: seq<nat>)
      returns (leaves: seq<Trio<Held>>, ghost ks: seq<nat>, ghost zs: seq<Trio<Vec>>)
      requires Valid() && |bs| == |os| && Results(bk, bs) && Results(ok, os)
      requires forall k :: 0 <= k < |bs| ==> Sized(bs[k], w) && Sized(os[k], w)
      modifies `ops, s0`prfCounter, s0`multReceivedShares, s1`prfCounter, s1`multReceivedShares, s2`prfCounter,
               s2`multReceivedShares
      ensures Valid() && old(ops) <= ops && Results(ks, leaves)
      ensures |leaves| == |zs| == |bs| && forall k :: 0 <= k < |bs| ==>
                ZeroRow(zs[k], w) && Sized(bs[k], w) && Sized(os[k], w) && Rows(zs[k], w)
                && leaves[k] == And(bs[k], os[k], zs[k], w)
      ensures FreshRows(zs, old(s0.prfCounter), w)
    {
      hide FreshRows, ZeroRow, Sized, And, Idle, ResultAt, ZeroRows, CounterAfter, Sound;
      var n := |bs|;
      ghost var base, total := s0.prfCounter, RowStart(n, w);
      ghost var draw: nat := total;
      var zero := AllocZeroRows(n, w);
      forall k | 0 <= k < n ensures Rows(zero[k], w) { ZeroRowSized(zero[k], w); }
      leaves, ks, zs := [], [], zero;
      var i := 0;
      while i < n
        invariant 0 <= i <= n && |leaves| == i && Idle() && Traced(draw) && s0.prfCounter == (base + total) % R
        invariant draw == (if i == 0 then total else 0) && (n == 0 ==> total == 0)
        invariant old(ops) <= ops && Results(bk, bs) && Results(ok, os) && Results(ks, leaves)
        invariant forall k :: 0 <= k < i ==> leaves[k] == And(bs[k], os[k], zero[k], w)
      {
        var leaf;
        ghost var at;
        leaf, at := AndHalves(bs, os, zero[i], w, i, bk, ok, draw, base, total, leaves, ks);
        leaves, ks := leaves + [leaf], ks + [at];
        draw := 0;
        i := i + 1;
      }
    }

    // Multiplies the two halves of leaf i.
    method AndHalves(bs: seq<Trio<Held>>, os: seq<Trio<Held>>, z: Trio<Vec>, w: nat, i: nat, ghost bk: seq<nat>,
                     ghost ok: seq<nat>, ghost draw: nat, ghost base: uint128, ghost total: nat,
                     ghost leaves: seq<Trio<Held>>, ghost ks: seq<nat>)
      returns (leaf: Trio<Held>, ghost at: nat)
      requires Idle() && Traced(draw) && s0.prfCounter == (base + total) % R
      requires i < |bs| == |os| && Results(bk, bs) && Results(ok, os) && Results(ks, leaves)
      requires Sized(bs[i], w) && Sized(os[i], w)
      requires ZeroRow(z, w) && z == ZeroRows(Keys(), (base + RowStart(i, w)) % R, w)
      modifies `ops, s0`multReceivedShares, s1`multReceivedShares, s2`multReceivedShares
      ensures Valid() && leaf == And(bs[i], os[i], z, w)
      ensures old(ops) <= ops && Results(bk, bs) && Results(ok, os) && Results(ks, leaves) && Result(at, leaf)
    {
      hide And, ZeroRow, Sized, CounterAfter, Sound, PlainRun, ResultAt, ZeroRows, InputAt;
      at := |PlainRun(ops)|;
      InputShift(CounterAfter(Keys(), 0, ops), draw, base, total, RowStart(i, w));
      ZeroRowSized(z, w);
      leaf := AndFilters(bs[i], os[i], z, w, bk[i], ok[i], draw, RowStart(i, w) - total);
      AllKept(Keys(), 0, old(ops), ops, bk, bs);
      AllKept(Keys(), 0, old(ops), ops, ok, os);
      AllKept(Keys(), 0, old(ops), ops, ks, leaves);
    }

    // The leaves of a message, in evaluation order.
    static method Gather(preds: seq<seq<nat>>) returns (order: seq<nat>)
      ensures order == Flat(preds)
    {
      order := [];
      var p := 0;
      while p < |preds|
        invariant 0 <= p <= |preds|
        invariant order == Flat(preds[..p])
      {
        var k := 0;
        while k < |preds[p]|
          invariant 0 <= k <= |preds[p]|
          invariant order == Flat(preds[..p]) + preds[p][..k]
        {
          order := order + [preds[p][k]];
          k := k + 1;
        }
        assert preds[..p + 1][..p] == preds[..p] && preds[p][..k] == preds[p];
        p := p + 1;
      }
      assert preds[..p] == preds;
    }

    // The OR of each predicate's leaves, taken one predicate after the other from the evaluated leaves.
    method OrLeaves(leaves: seq<Trio<Held>>, preds: seq<seq<nat>>, w: nat, ghost l: Layout, ghost buckets: seq<nat>,
                    ghost masks: seq<LeafMask>, ghost ks: seq<nat>)
      returns (predRes: seq<Trio<Held>>, ghost ps: seq<nat>)
      requires Valid() && w == |buckets| && Results(ks, leaves)
      requires PositionsFit(preds, |masks|) && (forall p :: 0 <= p < |preds| ==> preds[p] != [])
               && |leaves| == |Flat(preds)|
      requires forall k :: 0 <= k < |leaves| ==>
                 Flat(preds)[k] < |masks| && LeafValue(leaves[k], l, masks[Flat(preds)[k]], buckets)
      modifies `ops, s0`prfCounter, s0`multReceivedShares, s1`prfCounter, s1`multReceivedShares, s2`prfCounter,
               s2`multReceivedShares
      ensures Valid()
      ensures |predRes| == |preds| && forall p :: 0 <= p < |preds| ==>
                PredValue(predRes[p], l, Pick(masks, preds[p]), buckets)
      ensures old(ops) <= ops && Results(ps, predRes)
    {
      hide LeafValue, LeafValues, StandsFor, LeafPlains, FoldRows, AllStand, Flat, CounterAfter, Sound, ResultAt;
      predRes, ps := [], [];
      var p := 0;
      var evalIdx := 0;
      FlatEmpty(preds);
      while p < |preds|
        invariant 0 <= p <= |preds| && |predRes| == p && Valid()
        invariant old(ops) <= ops && Results(ks, leaves) && Results(ps, predRes)
        invariant evalIdx == |Flat(preds[..p])|
        invariant forall q :: 0 <= q < p ==> PredValue(predRes[q], l, Pick(masks, preds[q]), buckets)
      {
        GroupSlice(leaves, l, masks, preds, buckets, p, evalIdx);
        var group := leaves[evalIdx..evalIdx + |preds[p]|];
        ghost var ms := Pick(masks, preds[p]);
        LeafValuesStand(group, l, ms, buckets);
        ghost var was := ops;
        var h;
        ghost var at;
        ghost var rows;
        h, at, rows := FoldFilters(false, group, w, LeafPlains(l, ms, buckets), ks[evalIdx..evalIdx + |preds[p]|]);
        AllKept(Keys(), 0, was, ops, ks, leaves);
        AllKept(Keys(), 0, was, ops, ps, predRes);
        predRes, ps := predRes + [h], ps + [at];
        evalIdx := evalIdx + |preds[p]|;
        p := p + 1;
      }
    }

    // Combines the predicates.
    method CombinePreds(isAnd: bool, predRes: seq<Trio<Held>>, w: nat, ghost l: Layout, ghost buckets: seq<nat>,
                        ghost groups: seq<seq<LeafMask>>, ghost ps: seq<nat>)
      returns (filter: Trio<Held>, ghost at: nat)
      requires Valid() && Results(ps, predRes) && w == |buckets| && |predRes| == |groups| > 0
      requires forall p :: 0 <= p < |predRes| ==> PredValue(predRes[p], l, groups[p], buckets)
      modifies `ops, s0`prfCounter, s0`multReceivedShares, s1`prfCounter, s1`multReceivedShares, s2`prfCounter,
               s2`multReceivedShares
      ensures Valid() && FilterValue(filter, isAnd, l, groups, buckets)
      ensures old(ops) <= ops && Result(at, filter)
    {
      hide PredValue, StandsFor, PredPlains, FoldRows, AllStand, CounterAfter, Sound, ResultAt;
      PredValuesStand(predRes, l, groups, buckets);
      ghost var rows;
      filter, at, rows := FoldFilters(isAnd, predRes, w, PredPlains(l, groups, buckets), ps);
    }

    // The leaves of a message, evaluated in one batch and combined predicate by predicate.
    method EvalGrouped(f: Trio<BoFilter>, id: string, preds: seq<seq<nat>>, w: nat, ghost l: Layout,
                       ghost buckets: seq<nat>, ghost masks: seq<LeafMask>)
      returns (filter: Trio<Held>, ghost at: nat)
      requires Valid() && HoldsTable(id, l, buckets) && w == |buckets| && FilterMaterial(f, l, masks)
      requires PositionsFit(preds, |masks|) && preds != [] && forall p :: 0 <= p < |preds| ==> preds[p] != []
      modifies `ops, s0`prfCounter, s0`multReceivedShares, s1`prfCounter, s1`multReceivedShares, s2`prfCounter,
               s2`multReceivedShares
      ensures Valid() && FilterValue(filter, f.s0.isAnd, l, GroupMasks(masks, preds), buckets)
      ensures old(ops) <= ops && Result(at, filter)
    {
      hide Idle, Traced, ResultAt, HoldsBuckets, LeafMaterial, LeafValue, PredValue, FilterValue, Flat;
      var order := Gather(preds);
      FlatFits(preds, |f.s0.leaves|);
      var qs := seq(|order|, k requires 0 <= k < |order| => LeafAt(f, order[k]));
      var leaves, predRes;
      ghost var ks, ps;
      leaves, ks := EvalLeaves(id, qs, w, l, buckets, Pick(masks, order));
      predRes, ps := OrLeaves(leaves, preds, w, l, buckets, masks, ks);
      filter, at := CombinePreds(f.s0.isAnd, predRes, w, l, buckets, GroupMasks(masks, preds), ps);
    }

    /** BOEvalFilter at the three servers: all leaves in one batch, OR within each predicate, then the
        predicates combined. Either every server accepts its message or none does. */
    method BOEvalFilter(f: Trio<BoFilter>, ghost l: Layout, ghost buckets: seq<nat>, ghost masks: seq<LeafMask>)
      returns (r: Result<Trio<Held>, ServerError>, ghost at: nat)
      requires Valid() && SameShape(f)
      requires s0.Accepts(f.s0) == s1.Accepts(f.s1) == s2.Accepts(f.s2)
      requires s0.Accepts(f.s0) ==> HoldsTable(f.s0.leaves[0].id, l, buckets) && FilterMaterial(f, l, masks)
      modifies `ops, s0`prfCounter, s0`multReceivedShares, s1`prfCounter, s1`multReceivedShares, s2`prfCounter,
               s2`multReceivedShares
      ensures Valid() && (r.Ok? <==> s0.Accepts(f.s0))
      ensures r.Ok? ==> FilterValue(r.value, f.s0.isAnd, l, MasksByPred(masks, Tags(f.s0.leaves)), buckets)
      ensures old(ops) <= ops && (r.Ok? ==> Result(at, r.value))
    {
      hide Idle, Traced, ResultAt, HoldsBuckets, LeafMaterial, MaskFits, FilterValue, Shaped, Positions, TagCount;
      SameTags(f);
      var g0 := s0.BOGroupFilter(f.s0);
      var g1 := s1.BOGroupFilter(f.s1);
      var g2 := s2.BOGroupFilter(f.s2);
      if g0.Err? { return Err(g0.error), 0; }
      var preds := g0.value;
      assert g1.value == preds && g2.value == preds;
      var id := f.s0.leaves[0].id;
      var w := s0.boTables[id].windowSize;
      assert w == |buckets| by { HeldWindow(Tables(id), l, buckets); }
      NonemptyCount(Tags(f.s0.leaves));
      var filter;
      filter, at := EvalGrouped(f, id, preds, w, l, buckets, masks);
      return Ok(filter), at;
    }

    // Every server has the list, and together they hold shares of the values.
    ghost predicate HoldsValues(id: string, vals: seq<uint128>)
      reads s0`valLists, s1`valLists, s2`valLists
    {
      && id in s0.valLists && id in s1.valLists && id in s2.valLists
      && Values(Trio(s0.valLists[id], s1.valLists[id], s2.valLists[id]), vals)
    }

    ghost function Lists(id: string): Trio<Held>
      requires id in s0.valLists && id in s1.valLists && id in s2.valLists
      reads s0`valLists, s1`valLists, s2`valLists
    {
      Trio(s0.valLists[id], s1.valLists[id], s2.valLists[id])
    }

    // The servers have the list, and the filter is long enough for it.
    ghost predicate CanAnswer(id: string, f: Trio<Held>)
      reads s0`valLists, s1`valLists, s2`valLists
    {
      && id in s0.valLists && id in s1.valLists && id in s2.valLists
      && var v, n, w := Lists(id), |Lists(id).s0.first|, |f.s0.first|;
         Sized(v, n) && Sized(f, w) && n <= w
    }

    // What the servers answer.
    ghost function Answers(id: string, f: Trio<Held>): Trio<uint128>
      requires CanAnswer(id, f)
      reads s0`valLists, s1`valLists, s2`valLists
    {
      var v, n := Lists(id), |Lists(id).s0.first|;
      Trio(AggShare(v.s0, f.s0, n), AggShare(v.s1, f.s1, n), AggShare(v.s2, f.s2, n))
    }

    /** The three servers' answers open to the sum of the values weighted by the filter. */
    method Aggregate(id: string, f: Trio<Held>, ghost vals: seq<uint128>, ghost w: nat, ghost weights: seq<int>)
      returns (res: Trio<uint128>)
      requires HoldsValues(id, vals) && StandsFor(f, w, weights) && |vals| <= w
      ensures Cong(Sum3(res.s0, res.s1, res.s2), WeightedSum(vals, weights, |vals|))
      ensures CanAnswer(id, f) && res == Answers(id, f)
    {
      hide Cong, CongR, AggShare, Open;
      var a0 := s0.AggregateFilter(id, f.s0);
      var a1 := s1.AggregateFilter(id, f.s1);
      var a2 := s2.AggregateFilter(id, f.s2);
      res := Trio(a0, a1, a2);
      AggregateOpens(Trio(s0.valLists[id], s1.valLists[id], s2.valLists[id]), vals, f, w, weights, |vals|);
    }

    // ----- function secret sharing filters -----

    // The query vectors of one predicate's leaves.
    method EvalPredKeys(c: Cipher, items: Trio<seq<Primitive>>, p: nat, leaves: Trio<seq<LeafKeys>>, l: Layout,
                        ghost ms: seq<LeafMask>)
      returns (qs: seq<Trio<QueryVecs>>)
      requires PredKeyed(c, items, l, p, ms)
      requires PairedLeaves(leaves.s0, items.s0, p) && PairedLeaves(leaves.s1, items.s1, p)
               && PairedLeaves(leaves.s2, items.s2, p)
      ensures AllMaterial(qs, l, ms)
    {
      hide LeafKeyed, LeafMaterial, MaskFits, Select;
      qs := [];
      var k := 0;
      while k < |leaves.s0|
        invariant 0 <= k <= |leaves.s0| && |qs| == k
        invariant forall j :: 0 <= j < k ==> LeafMaterial(qs[j], l, ms[j])
      {
        var a0, a1, a2 := leaves.s0[k], leaves.s1[k], leaves.s2[k];
        assert LeafKeyed(c, NthOf(items, p, BlockDomain, k), NthOf(items, p, OffsetDomain, k), l, ms[k]);
        var block := Trio(a0.block.value, a1.block.value, a2.block.value);
        var offset := Trio(a0.offset.value, a1.offset.value, a2.offset.value);
        var q := EvalLeafEverywhere(c, block, offset, l, ms[k]);
        qs := qs + [q];
        k := k + 1;
      }
    }

    // One predicate: its leaves evaluated and combined by OR.
    method EvalPred(c: Cipher, id: string, items: Trio<seq<Primitive>>, p: nat, leaves: Trio<seq<LeafKeys>>, w: nat,
                    layout: Layout,
                    ghost buckets: seq<nat>, ghost ms: seq<LeafMask>)
      returns (h: Trio<Held>, ghost at: nat)
      requires Valid() && HoldsTable(id, layout, buckets) && w == |buckets| && PredKeyed(c, items, layout, p, ms)
      requires PairedLeaves(leaves.s0, items.s0, p) && PairedLeaves(leaves.s1, items.s1, p)
               && PairedLeaves(leaves.s2, items.s2, p)
      modifies `ops, s0`prfCounter, s0`multReceivedShares, s1`prfCounter, s1`multReceivedShares, s2`prfCounter,
               s2`multReceivedShares
      ensures Valid() && PredValue(h, layout, ms, buckets)
      ensures old(ops) <= ops && Result(at, h)
    {
      hide CounterAfter, Sound, ResultAt, HoldsBuckets, PairedLeaves, PredKeyed, LeafValue, AllMaterial, StandsFor,
        LeafPlains, AllStand, FoldRows;
      PredKeyedNonempty(c, items, layout, p, ms);
      var qs := EvalPredKeys(c, items, p, leaves, layout, ms);
      AllMaterialCount(qs, layout, ms);
      var evaluated;
      ghost var ks;
      evaluated, ks := EvalLeaves(id, qs, w, layout, buckets, ms);
      LeafValuesStand(evaluated, layout, ms, buckets);
      ghost var rows;
      h, at, rows := FoldFilters(false, evaluated, w, LeafPlains(layout, ms, buckets), ks);
    }

    // All predicates of a regrouped message.
    method EvalPreds(c: Cipher, id: string, items: Trio<seq<Primitive>>, g: Trio<seq<seq<LeafKeys>>>, w: nat,
                     layout: Layout, ghost buckets: seq<nat>, ghost groups: seq<seq<LeafMask>>)
      returns (predRes: seq<Trio<Held>>, ghost ps: seq<nat>)
      requires Valid() && HoldsTable(id, layout, buckets) && w == |buckets| && AllKeyed(c, items, layout, groups)
      requires |g.s0| == |g.s1| == |g.s2| == |groups|
      requires forall p :: 0 <= p < |groups| ==>
                 PairedLeaves(g.s0[p], items.s0, p) && PairedLeaves(g.s1[p], items.s1, p)
                 && PairedLeaves(g.s2[p], items.s2, p)
      modifies `ops, s0`prfCounter, s0`multReceivedShares, s1`prfCounter, s1`multReceivedShares, s2`prfCounter,
               s2`multReceivedShares
      ensures Valid() && old(ops) <= ops && Results(ps, predRes)
      ensures |predRes| == |groups|
      ensures forall p :: 0 <= p < |groups| ==> PredValue(predRes[p], layout, groups[p], buckets)
    {
      hide Idle, Traced, ResultAt, HoldsBuckets, PredValue, PredKeyed, PairedLeaves;
      predRes, ps := [], [];
      var p := 0;
      while p < |g.s0|
        invariant 0 <= p <= |g.s0| && |predRes| == p && Valid()
        invariant forall q :: 0 <= q < p ==> PredValue(predRes[q], layout, groups[q], buckets)
        invariant old(ops) <= ops && Results(ps, predRes)
      {
        ghost var was := ops;
        assert PredKeyed(c, items, layout, p, groups[p]);
        var h;
        ghost var k;
        h, k := EvalPred(c, id, items, p, Trio(g.s0[p], g.s1[p], g.s2[p]), w, layout, buckets, groups[p]);
        AllKept(Keys(), 0, was, ops, ps, predRes);
        predRes, ps := predRes + [h], ps + [k];
        p := p + 1;
      }
    }

    /** BOFSSEvalFilter at the three servers: the messages are regrouped, and predicate by predicate the
        keys are evaluated, the leaves combined by OR; then the predicates are combined. */
    method BOFSSEvalFilter(c: Cipher, isAnd: bool, items: Trio<seq<Primitive>>, ghost l: Layout,
                           ghost buckets: seq<nat>, ghost groups: seq<seq<LeafMask>>)
      returns (r: Result<Trio<Held>, Regroup.ParseError>, ghost at: nat)
      requires Valid()
      requires Acceptable(items.s0, s0.Metas()) <==> Acceptable(items.s1, s1.Metas())
      requires Acceptable(items.s1, s1.Metas()) <==> Acceptable(items.s2, s2.Metas())
      requires Acceptable(items.s0, s0.Metas()) ==>
                 HoldsTable(items.s0[0].id, l, buckets) && AllKeyed(c, items, l, groups)
      modifies `ops, s0`prfCounter, s0`multReceivedShares, s1`prfCounter, s1`multReceivedShares, s2`prfCounter,
               s2`multReceivedShares
      ensures Valid() && (r.Ok? <==> Acceptable(items.s0, s0.Metas()))
      ensures r.Ok? ==> FilterValue(r.value, isAnd, l, groups, buckets)
      ensures old(ops) <= ops && (r.Ok? ==> Result(at, r.value))
    {
      hide Idle, Traced, ResultAt, HoldsBuckets, PredValue, FilterValue, Acceptable, PredKeyed, PairedLeaves;
      var g0 := ParseBofss(items.s0, s0.Metas());
      var g1 := ParseBofss(items.s1, s1.Metas());
      var g2 := ParseBofss(items.s2, s2.Metas());
      if g0.Err? { return Err(g0.error), 0; }
      AcceptableNonempty(items.s0, s0.Metas());
      var id := items.s0[0].id;
      var t := s0.boTables[id];
      var w := t.windowSize;
      assert w == |buckets| && t.layout == l by { HeldWindow(Tables(id), l, buckets); }
      var predRes;
      ghost var ps;
      predRes, ps := EvalPreds(c, id, items, Trio(g0.value, g1.value, g2.value), w, t.layout, buckets, groups);
      var filter;
      filter, at := CombinePreds(isAnd, predRes, w, l, buckets, groups, ps);
      return Ok(filter), at;
    }
  }
}
