/** Every run of the replicated protocol: any common sequence of reshare, AND and OR operations, on vectors
    of any lengths, keeps the shares replicated, the counters equal and the opened values those of the
    plaintext run. */
module RssRuns {
  import opened Arith
  import opened Rss

  // One operation, the same at every server. A reshare brings a list of sets, three-out-of-three shares
  // of w words each; i and j name earlier results. A product may draw counter inputs for itself and others
  // to come; its own start `shift` after the counter has moved, so a negative shift uses inputs drawn before.
  datatype Op =
    | ReshareOp(sets: seq<Trio<Held>>, w: nat)
    | AndOp(i: nat, j: nat, draw: nat, shift: int)
    | OrOp(i: nat, j: nat, draw: nat, shift: int)

  // What one exchange carries: a list of vectors.
  type Message = seq<Vec>

  // ----- one server -----

  // The vectors a server holds and its counter.
  datatype Local = Local(regs: seq<Held>, counter: uint128)

  predicate SameLength(x: Held, y: Held) { |x.first| == |x.second| == |y.first| == |y.second| }

  // What the server needs to compute its message.
  predicate CanSend(i: nat, loc: Local, op: Op)
    requires i < 3
  {
    match op
    case ReshareOp(sets, w) => EvenSets(PartOf(sets, i), w)
    case AndOp(a, b, _, _) => a < |loc.regs| && b < |loc.regs| && SameLength(loc.regs[a], loc.regs[b])
    case OrOp(a, b, _, _) => a < |loc.regs| && b < |loc.regs| && SameLength(loc.regs[a], loc.regs[b])
  }

  // A zero share a row, from consecutive inputs.
  function ZeroVec(s: Setup, i: nat, counter: uint128, n: nat): (z: Vec)
    requires i < 3
    ensures |z| == n
  {
    ZeroRun(s.prf, Share(s.keys, i), Share(s.keys, if i == 0 then 2 else i - 1), counter, n)
  }

  // Where a product's inputs start.
  function InputAt(counter: uint128, draw: nat, shift: int): uint128 { (counter + draw + shift) % R }

  function Product(s: Setup, i: nat, loc: Local, a: nat, b: nat, at: uint128): (m: Vec)
    requires i < 3 && a < |loc.regs| && b < |loc.regs| && SameLength(loc.regs[a], loc.regs[b])
    ensures |m| == |loc.regs[a].first|
  {
    MulVec(loc.regs[a], loc.regs[b], ZeroVec(s, i, at, |loc.regs[a].first|))
  }

  // What server i sends for all sets of a reshare.
  function MaskAll(s: Setup, i: nat, counter: uint128, sets: seq<Trio<Held>>, w: nat): (m: Message)
    requires i < 3 && EvenSets(PartOf(sets, i), w)
    ensures |m| == |sets|
  {
    MaskRun(s.prf, Share(s.keys, i), Share(s.keys, if i == 0 then 2 else i - 1), counter, PartOf(sets, i), w)
  }

  lemma MaskAllAt(s: Setup, i: nat, counter: uint128, sets: seq<Trio<Held>>, w: nat, k: nat)
    requires i < 3 && EvenSets(PartOf(sets, i), w) && k < |sets|
    ensures |Share(sets[k], i).first| == |Share(sets[k], i).second|
    ensures MaskAll(s, i, counter, sets, w)[k]
         == MaskSet(Share(sets[k], i), ZeroAt(s, i, (counter + SetInput(k, |sets|, w)) % R))
  {
    hide MaskSet, ZeroShare, SetInput;
    assert PartOf(sets, i)[k] == Share(sets[k], i);
  }

  // The message of server i for the next operation: the masked sets of a reshare, one input a set, or the
  // masked product of two vectors, one input a row.
  function Send(s: Setup, i: nat, loc: Local, op: Op): (m: Message)
    requires i < 3
  {
    if !CanSend(i, loc, op) then []
    else match op
      case ReshareOp(sets, w) =>
        MaskAll(s, i, loc.counter, sets, w)
      case AndOp(a, b, draw, shift) => [Product(s, i, loc, a, b, InputAt(loc.counter, draw, shift))]
      case OrOp(a, b, draw, shift) => [Product(s, i, loc, a, b, InputAt(loc.counter, draw, shift))]
  }

  // The server's new results once its predecessor's message has come.
  function Results(i: nat, loc: Local, op: Op, sent: Message, got: Message): seq<Held>
    requires i < 3
  {
    if !CanSend(i, loc, op) || |got| != |sent| then []
    else match op
      case ReshareOp(_, _) => seq(|sent|, k requires 0 <= k < |sent| => Held(got[k], sent[k]))
      case AndOp(_, _, _, _) => if |sent| != 1 then [] else [Held(got[0], sent[0])]
      case OrOp(a, b, _, _) =>
        if |sent| != 1 || |got[0]| != |loc.regs[a].first| || |sent[0]| != |got[0]| then []
        else [AddHeld(Held(got[0], sent[0]), loc.regs[a], loc.regs[b])]
  }

  // By how much the counter moves on.
  function Inputs(op: Op): nat
  {
    match op
    case ReshareOp(sets, w) => |sets| * w
    case AndOp(_, _, draw, _) => draw
    case OrOp(_, _, draw, _) => draw
  }

  function Receive(i: nat, loc: Local, op: Op, sent: Message, got: Message): Local
    requires i < 3
  {
    Local(loc.regs + Results(i, loc, op, sent, got), (loc.counter + Inputs(op)) % R)
  }

  // ----- three servers in lockstep -----

  type State = Trio<Local>

  function Step(s: Setup, st: State, op: Op): State
  {
    var m0, m1, m2 := Send(s, 0, st.s0, op), Send(s, 1, st.s1, op), Send(s, 2, st.s2, op);
    Trio(Receive(0, st.s0, op, m0, m2), Receive(1, st.s1, op, m1, m0), Receive(2, st.s2, op, m2, m1))
  }

  function Run(s: Setup, start: uint128, ops: seq<Op>): State
  {
    if ops == [] then Trio(Local([], start), Local([], start), Local([], start))
    else Step(s, Run(s, start, ops[..|ops| - 1]), ops[|ops| - 1])
  }

  // ----- the plaintext run -----

  type Plain = seq<Vec>

  ghost predicate Enabled(op: Op, plain: Plain)
  {
    match op
    case ReshareOp(sets, w) => forall k :: 0 <= k < |sets| ==> Sized(sets[k], w)
    case AndOp(i, j, _, _) => i < |plain| && j < |plain| && |plain[i]| == |plain[j]|
    case OrOp(i, j, _, _) => i < |plain| && j < |plain| && |plain[i]| == |plain[j]|
  }

  function PlainAnd(x: Vec, y: Vec): (v: Vec)
    requires |x| == |y|
    ensures |v| == |x|
  {
    seq<uint128>(|x|, r requires 0 <= r < |x| => Mul(x[r], y[r]))
  }

  function PlainOr(x: Vec, y: Vec): (v: Vec)
    requires |x| == |y|
    ensures |v| == |x|
  {
    seq<uint128>(|x|, r requires 0 <= r < |x| => OrWord(x[r], y[r]))
  }

  ghost function PlainSet(set_: Trio<Held>, w: nat): (v: Vec)
    requires Sized(set_, w)
    ensures |v| == w
  {
    seq<uint128>(w, r requires 0 <= r < w => LooseSum(set_, r))
  }

  ghost function PlainStep(plain: Plain, op: Op): Plain
    requires Enabled(op, plain)
  {
    match op
    case ReshareOp(sets, w) => plain + seq(|sets|, k requires 0 <= k < |sets| => PlainSet(sets[k], w))
    case AndOp(i, j, _, _) => plain + [PlainAnd(plain[i], plain[j])]
    case OrOp(i, j, _, _) => plain + [PlainOr(plain[i], plain[j])]
  }

  // Every operation finds its operands, of one length.
  ghost predicate Sound(ops: seq<Op>)
    decreases |ops|, 0
  {
    ops == [] || (Sound(ops[..|ops| - 1]) && Enabled(ops[|ops| - 1], PlainRun(ops[..|ops| - 1])))
  }

  ghost function PlainRun(ops: seq<Op>): Plain
    requires Sound(ops)
    decreases |ops|, 1
  {
    if ops == [] then [] else PlainStep(PlainRun(ops[..|ops| - 1]), ops[|ops| - 1])
  }

  // ----- the invariant -----

  function RegOf(st: State, k: nat): Trio<Held>
    requires k < |st.s0.regs| && k < |st.s1.regs| && k < |st.s2.regs|
  {
    Trio(st.s0.regs[k], st.s1.regs[k], st.s2.regs[k])
  }

  // A shared vector and what it opens to.
  ghost predicate Carries(h: Trio<Held>, v: Vec)
  {
    Replicated(h, |v|) && forall r :: 0 <= r < |v| ==> Open(h, r) == v[r]
  }

  ghost predicate Correct(st: State, plain: Plain)
  {
    && st.s0.counter == st.s1.counter == st.s2.counter
    && |st.s0.regs| == |st.s1.regs| == |st.s2.regs| == |plain|
    && forall k :: 0 <= k < |plain| ==> Carries(RegOf(st, k), plain[k])
  }

  lemma CarriesSized(h: Trio<Held>, v: Vec)
    requires Carries(h, v)
    ensures Sized(h, |v|)
  {
  }

  // The three servers' zero shares from one input on.
  function ZeroRows(s: Setup, at: uint128, n: nat): (z: Trio<Vec>)
    ensures Rows(z, n)
  {
    Trio(ZeroVec(s, 0, at, n), ZeroVec(s, 1, at, n), ZeroVec(s, 2, at, n))
  }

  // Equal counters make every row of zero shares cancel around the ring.
  lemma ZeroRowsCancel(s: Setup, counter: uint128, n: nat)
    ensures ZeroRow(ZeroRows(s, counter, n), n)
  {
    hide ZeroShare, CongR;
    forall r | 0 <= r < n
      ensures CongR(Sum3(ZeroVec(s, 0, counter, n)[r], ZeroVec(s, 1, counter, n)[r], ZeroVec(s, 2, counter, n)[r]), 0)
    {
      ZerosCancel(s, (counter + r) % R);
    }
  }

  // One product of two carried vectors, exchanged.
  lemma AndCarries(s: Setup, counter: uint128, x: Trio<Held>, y: Trio<Held>, v: Vec, u: Vec)
    requires Carries(x, v) && Carries(y, u) && |v| == |u|
    ensures
      var n, z := |v|, ZeroRows(s, counter, |v|);
      && Sized(x, n) && Sized(y, n)
      && Carries(And(x, y, z, n), PlainAnd(v, u)) && Carries(Or(x, y, z, n), PlainOr(v, u))
  {
    hide ZeroRows, And, Or, Open, Mul, OrWord, ZeroRow;
    var n, z := |v|, ZeroRows(s, counter, |v|);
    CarriesSized(x, v);
    CarriesSized(y, u);
    ZeroRowsCancel(s, counter, n);
    AndOpens(x, y, z, n);
    OrOpens(x, y, z, n);
  }

  // One set, reshared.
  lemma SetCarries(s: Setup, at: uint128, set_: Trio<Held>, w: nat)
    requires Sized(set_, w)
    ensures Carries(ReshareSet(set_, Trio(ZeroAt(s, 0, at), ZeroAt(s, 1, at), ZeroAt(s, 2, at)), w), PlainSet(set_, w))
  {
    hide ZeroAt, CongR, ReshareSet, Open;
    ZerosCancel(s, at);
    ReshareOpens(set_, Trio(ZeroAt(s, 0, at), ZeroAt(s, 1, at), ZeroAt(s, 2, at)), w);
  }

  // What a reshare leaves: the old vectors, and one new vector a set.
  lemma ReshareRegs(s: Setup, st: State, plain: Plain, sets: seq<Trio<Held>>, w: nat)
    requires Correct(st, plain) && Enabled(ReshareOp(sets, w), plain)
    ensures
      var st' := Step(s, st, ReshareOp(sets, w));
      && st'.s0.counter == st'.s1.counter == st'.s2.counter
      && |st'.s0.regs| == |st'.s1.regs| == |st'.s2.regs| == |plain| + |sets|
      && forall k :: 0 <= k < |plain| ==> RegOf(st', k) == RegOf(st, k)
  {
    hide Carries, MaskAll, EvenSets;
    var op := ReshareOp(sets, w);
    EvenParts(sets, w);
    assert CanSend(0, st.s0, op) && CanSend(1, st.s1, op) && CanSend(2, st.s2, op);
  }

  lemma ReshareReg(s: Setup, st: State, plain: Plain, sets: seq<Trio<Held>>, w: nat, k: nat)
    requires Correct(st, plain) && Enabled(ReshareOp(sets, w), plain) && k < |sets|
    ensures
      var st', at := Step(s, st, ReshareOp(sets, w)), (st.s0.counter + SetInput(k, |sets|, w)) % R;
      && |st'.s0.regs| == |st'.s1.regs| == |st'.s2.regs| == |plain| + |sets|
      && RegOf(st', |plain| + k) == ReshareSet(sets[k], Trio(ZeroAt(s, 0, at), ZeroAt(s, 1, at), ZeroAt(s, 2, at)), w)
  {
    hide Carries, MaskSet, ZeroAt, MaskAll, SetInput, EvenSets;
    var op := ReshareOp(sets, w);
    EvenParts(sets, w);
    assert CanSend(0, st.s0, op) && CanSend(1, st.s1, op) && CanSend(2, st.s2, op);
    MaskAllAt(s, 0, st.s0.counter, sets, w, k);
    MaskAllAt(s, 1, st.s1.counter, sets, w, k);
    MaskAllAt(s, 2, st.s2.counter, sets, w, k);
  }

  lemma StepReshare(s: Setup, st: State, plain: Plain, sets: seq<Trio<Held>>, w: nat)
    requires Correct(st, plain) && Enabled(ReshareOp(sets, w), plain)
    ensures Correct(Step(s, st, ReshareOp(sets, w)), PlainStep(plain, ReshareOp(sets, w)))
  {
    hide Carries, PlainSet, ZeroAt, ReshareSet, Step, RegOf, Sized;
    var op, n := ReshareOp(sets, w), |plain|;
    var st', plain' := Step(s, st, op), PlainStep(plain, op);
    ReshareRegs(s, st, plain, sets, w);
    forall k | 0 <= k < |plain'| ensures Carries(RegOf(st', k), plain'[k]) {
      if k >= n {
        SetCarries(s, (st.s0.counter + SetInput(k - n, |sets|, w)) % R, sets[k - n], w);
        ReshareReg(s, st, plain, sets, w, k - n);
      }
    }
  }

  // What a product leaves: the old vectors, and one new vector.
  lemma ProductRegs(s: Setup, st: State, plain: Plain, op: Op, i: nat, j: nat, draw: nat, shift: int)
    requires Correct(st, plain) && Enabled(op, plain)
    requires op == AndOp(i, j, draw, shift) || op == OrOp(i, j, draw, shift)
    ensures
      var st', x, y, w := Step(s, st, op), RegOf(st, i), RegOf(st, j), |plain[i]|;
      var z := ZeroRows(s, InputAt(st.s0.counter, draw, shift), w);
      && st'.s0.counter == st'.s1.counter == st'.s2.counter
      && |st'.s0.regs| == |st'.s1.regs| == |st'.s2.regs| == |plain| + 1
      && (forall k :: 0 <= k < |plain| ==> RegOf(st', k) == RegOf(st, k))
      && Sized(x, w) && Sized(y, w)
      && RegOf(st', |plain|) == if op.AndOp? then And(x, y, z, w) else Or(x, y, z, w)
  {
    hide Carries, MulVec, AddVec, ZeroVec;
    CarriesSized(RegOf(st, i), plain[i]);
    CarriesSized(RegOf(st, j), plain[j]);
    assert CanSend(0, st.s0, op) && CanSend(1, st.s1, op) && CanSend(2, st.s2, op);
  }

  lemma StepPair(s: Setup, st: State, plain: Plain, op: Op, i: nat, j: nat, draw: nat, shift: int)
    requires Correct(st, plain) && Enabled(op, plain)
    requires op == AndOp(i, j, draw, shift) || op == OrOp(i, j, draw, shift)
    ensures Correct(Step(s, st, op), PlainStep(plain, op))
  {
    hide Carries, ZeroRows, Step, RegOf, And, Or, PlainAnd, PlainOr;
    ProductRegs(s, st, plain, op, i, j, draw, shift);
    AndCarries(s, InputAt(st.s0.counter, draw, shift), RegOf(st, i), RegOf(st, j), plain[i], plain[j]);
    var st', plain' := Step(s, st, op), PlainStep(plain, op);
    forall k | 0 <= k < |plain'| ensures Carries(RegOf(st', k), plain'[k]) {
      if k < |plain| { assert RegOf(st', k) == RegOf(st, k); }
    }
  }

  /** The protocol invariant, over every sequence of operations that find their operands, with vectors of
      any lengths and any number of sets a reshare, every input, pseudorandom function, key and counter. */
  lemma {:induction false} RunCorrect(s: Setup, start: uint128, ops: seq<Op>)
    requires Sound(ops)
    ensures Correct(Run(s, start, ops), PlainRun(ops))
  {
    if ops != [] {
      hide Enabled, PlainStep, Step, Correct;
      var init, op := ops[..|ops| - 1], ops[|ops| - 1];
      RunCorrect(s, start, init);
      match op
      case ReshareOp(sets, w) => StepReshare(s, Run(s, start, init), PlainRun(init), sets, w);
      case AndOp(i, j, draw, shift) => StepPair(s, Run(s, start, init), PlainRun(init), op, i, j, draw, shift);
      case OrOp(i, j, draw, shift) => StepPair(s, Run(s, start, init), PlainRun(init), op, i, j, draw, shift);
    } else {
      assert Run(s, start, ops) == Trio(Local([], start), Local([], start), Local([], start));
    }
  }
}
