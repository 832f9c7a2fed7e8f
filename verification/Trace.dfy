/** What a list of operations leaves behind, operation by operation: the messages of the next one, and which
    shared vectors the servers hold as its results. */
module Trace {
  import opened Arith
  import opened Rss
  import opened RssRuns

  // The messages of the next operation.
  function Messages(s: Setup, start: uint128, ops: seq<Op>, op: Op): Trio<Message>
  {
    var st := Run(s, start, ops);
    Trio(Send(s, 0, st.s0, op), Send(s, 1, st.s1, op), Send(s, 2, st.s2, op))
  }

  // A shared vector is the k-th result of the operations.
  ghost predicate ResultAt(s: Setup, start: uint128, ops: seq<Op>, k: nat, h: Trio<Held>)
  {
    var st := Run(s, start, ops);
    k < |st.s0.regs| && k < |st.s1.regs| && k < |st.s2.regs| && RegOf(st, k) == h
  }

  ghost predicate ResultsAt(s: Setup, start: uint128, ops: seq<Op>, ks: seq<nat>, hs: seq<Trio<Held>>)
  {
    |ks| == |hs| && forall i :: 0 <= i < |hs| ==> ResultAt(s, start, ops, ks[i], hs[i])
  }

  function CounterAfter(s: Setup, start: uint128, ops: seq<Op>): uint128 { Run(s, start, ops).s0.counter }

  // One more operation.
  lemma Snoc(s: Setup, start: uint128, ops: seq<Op>, op: Op)
    ensures Run(s, start, ops + [op]) == Step(s, Run(s, start, ops), op)
    ensures Sound(ops) && Enabled(op, PlainRun(ops)) ==>
              Sound(ops + [op]) && PlainRun(ops + [op]) == PlainStep(PlainRun(ops), op)
  {
    hide Step, Enabled, PlainStep;
    assert (ops + [op])[..|ops|] == ops;
  }

  // Results stay.
  lemma {:induction false} Kept(s: Setup, start: uint128, ops: seq<Op>, later: seq<Op>, k: nat, h: Trio<Held>)
    requires ops <= later && ResultAt(s, start, ops, k, h)
    ensures ResultAt(s, start, later, k, h)
    decreases |later|
  {
    hide Run, Send, Results;
    if ops == later {
      return;
    }
    var init, op := later[..|later| - 1], later[|later| - 1];
    Kept(s, start, ops, init, k, h);
    Snoc(s, start, init, op);
    assert later == init + [op];
  }

  lemma AllKept(s: Setup, start: uint128, ops: seq<Op>, later: seq<Op>, ks: seq<nat>, hs: seq<Trio<Held>>)
    requires ops <= later && ResultsAt(s, start, ops, ks, hs)
    ensures ResultsAt(s, start, later, ks, hs)
  {
    hide ResultAt;
    forall i | 0 <= i < |hs| ensures ResultAt(s, start, later, ks[i], hs[i]) {
      Kept(s, start, ops, later, ks[i], hs[i]);
    }
  }

  // A result is one of the plaintext run's vectors, and as long.
  lemma ResultSize(s: Setup, start: uint128, ops: seq<Op>, k: nat, h: Trio<Held>, w: nat)
    requires Sound(ops) && ResultAt(s, start, ops, k, h) && Sized(h, w)
    ensures k < |PlainRun(ops)| && |PlainRun(ops)[k]| == w
  {
    hide Run, PlainRun, Sound, Open;
    RunCorrect(s, start, ops);
    assert Carries(RegOf(Run(s, start, ops), k), PlainRun(ops)[k]);
  }

  // A product of two results: its messages, its inputs and where it comes out.
  lemma ProductNext(s: Setup, start: uint128, ops: seq<Op>, isAnd: bool, i: nat, j: nat, x: Trio<Held>, y: Trio<Held>,
                    w: nat, draw: nat, shift: int)
    requires Sound(ops) && ResultAt(s, start, ops, i, x) && ResultAt(s, start, ops, j, y) && Sized(x, w) && Sized(y, w)
    ensures
      var op := if isAnd then AndOp(i, j, draw, shift) else OrOp(i, j, draw, shift);
      var z := ZeroRows(s, InputAt(CounterAfter(s, start, ops), draw, shift), w);
      && Sound(ops + [op]) && |PlainRun(ops + [op])| == |PlainRun(ops)| + 1
      && CounterAfter(s, start, ops + [op]) == (CounterAfter(s, start, ops) + draw) % R
      && ResultAt(s, start, ops + [op], |PlainRun(ops)|, if isAnd then And(x, y, z, w) else Or(x, y, z, w))
      && Messages(s, start, ops, op)
         == Trio([MulVec(x.s0, y.s0, z.s0)], [MulVec(x.s1, y.s1, z.s1)], [MulVec(x.s2, y.s2, z.s2)])
  {
    hide Run, PlainRun, Sound, Open, And, Or, Carries, MulVec, ZeroVec, PlainAnd, PlainOr;
    var op := if isAnd then AndOp(i, j, draw, shift) else OrOp(i, j, draw, shift);
    ResultSize(s, start, ops, i, x, w);
    ResultSize(s, start, ops, j, y, w);
    RunCorrect(s, start, ops);
    Snoc(s, start, ops, op);
    ProductRegs(s, Run(s, start, ops), PlainRun(ops), op, i, j, draw, shift);
  }

  // The three shares of zero that mask set k of n.
  function SetZeros(s: Setup, counter: uint128, n: nat, k: nat, w: nat): Trio<uint128>
  {
    var at := (counter + SetInput(k, n, w)) % R;
    Trio(ZeroAt(s, 0, at), ZeroAt(s, 1, at), ZeroAt(s, 2, at))
  }

  // The three servers' messages for a reshare.
  ghost function MaskedSets(s: Setup, counter: uint128, sets: seq<Trio<Held>>, w: nat): (m: Trio<seq<Vec>>)
    requires forall k :: 0 <= k < |sets| ==> Sized(sets[k], w)
    ensures |m.s0| == |m.s1| == |m.s2| == |sets|
  {
    EvenParts(sets, w);
    Trio(MaskAll(s, 0, counter, sets, w), MaskAll(s, 1, counter, sets, w), MaskAll(s, 2, counter, sets, w))
  }

  lemma MaskedAt(s: Setup, counter: uint128, sets: seq<Trio<Held>>, w: nat, k: nat)
    requires (forall k :: 0 <= k < |sets| ==> Sized(sets[k], w)) && k < |sets|
    ensures
      var m, z := MaskedSets(s, counter, sets, w), SetZeros(s, counter, |sets|, k, w);
      && Sized(sets[k], w) && m.s0[k] == MaskSet(sets[k].s0, z.s0) && m.s1[k] == MaskSet(sets[k].s1, z.s1)
      && m.s2[k] == MaskSet(sets[k].s2, z.s2)
  {
    hide MaskSet, ZeroAt, SetInput, MaskAll, EvenSets;
    EvenParts(sets, w);
    MaskAllAt(s, 0, counter, sets, w, k);
    MaskAllAt(s, 1, counter, sets, w, k);
    MaskAllAt(s, 2, counter, sets, w, k);
  }

  // A reshare: its messages and where its sets come out.
  lemma ReshareNext(s: Setup, start: uint128, ops: seq<Op>, sets: seq<Trio<Held>>, w: nat)
    requires Sound(ops) && forall k :: 0 <= k < |sets| ==> Sized(sets[k], w)
    ensures
      var op, n, c := ReshareOp(sets, w), |sets|, CounterAfter(s, start, ops);
      && Sound(ops + [op]) && |PlainRun(ops + [op])| == |PlainRun(ops)| + n
      && CounterAfter(s, start, ops + [op]) == (c + n * w) % R
      && (forall k :: 0 <= k < n ==>
            ResultAt(s, start, ops + [op], |PlainRun(ops)| + k, ReshareSet(sets[k], SetZeros(s, c, n, k, w), w)))
      && Messages(s, start, ops, op) == MaskedSets(s, c, sets, w)
  {
    hide Run, PlainRun, Sound, Carries, PlainSet, ZeroAt, MaskAll, EvenSets, ReshareSet, RegOf, Step;
    EvenParts(sets, w);
    var op, n, st := ReshareOp(sets, w), |sets|, Run(s, start, ops);
    RunCorrect(s, start, ops);
    Snoc(s, start, ops, op);
    ReshareRegs(s, st, PlainRun(ops), sets, w);
    CountersAfter(s, st, op);
    forall k | 0 <= k < n
      ensures ResultAt(s, start, ops + [op], |PlainRun(ops)| + k,
                       ReshareSet(sets[k], SetZeros(s, CounterAfter(s, start, ops), n, k, w), w))
    {
      ReshareReg(s, st, PlainRun(ops), sets, w, k);
    }
  }

  lemma CounterSnoc(s: Setup, start: uint128, ops: seq<Op>, op: Op)
    ensures CounterAfter(s, start, ops + [op]) == (CounterAfter(s, start, ops) + Inputs(op)) % R
  {
    hide Step, Run;
    Snoc(s, start, ops, op);
    CountersAfter(s, Run(s, start, ops), op);
  }

  lemma CountersAfter(s: Setup, st: State, op: Op)
    ensures Step(s, st, op).s0.counter == (st.s0.counter + Inputs(op)) % R
  {
    hide Send, Results;
  }
}
