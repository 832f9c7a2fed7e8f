/** The protocol over the mailboxes: every server computes its messages from its own keys, inputs and what
    it has received, and every interleaving of the exchanges ends in the state of the lockstep run. */
module RingRuns {
  import opened Arith
  import opened Rss
  import opened RssRuns
  import RX = RingExchange

  // What server i holds after k operations, given the messages it has received.
  function LocalAfter(s: Setup, start: uint128, ops: seq<Op>, i: nat, k: nat, received: seq<Message>): Local
    requires i < 3 && k <= |ops| && k <= |received|
  {
    if k == 0 then Local([], start)
    else
      var loc := LocalAfter(s, start, ops, i, k - 1, received);
      Receive(i, loc, ops[k - 1], Send(s, i, loc, ops[k - 1]), received[k - 1])
  }

  // The servers of a run as a program of the ring: what server i sends next, given what it has received.
  function Protocol(s: Setup, start: uint128, ops: seq<Op>): RX.Program
  {
    (i: nat, received: seq<Message>) =>
      if i < 3 && |received| < |ops|
      then Send(s, i, LocalAfter(s, start, ops, i, |received|, received), ops[|received|])
      else []
  }

  lemma {:induction false} LocalOfPrefix(s: Setup, start: uint128, ops: seq<Op>, i: nat, k: nat,
                                         a: seq<Message>, b: seq<Message>)
    requires i < 3 && k <= |ops| && k <= |a| && k <= |b| && a[..k] == b[..k]
    ensures LocalAfter(s, start, ops, i, k, a) == LocalAfter(s, start, ops, i, k, b)
  {
    hide Send, Receive;
    if k > 0 {
      assert a[..k - 1] == a[..k][..k - 1] && b[..k - 1] == b[..k][..k - 1];
      assert a[k - 1] == a[..k][k - 1] && b[k - 1] == b[..k][k - 1];
      LocalOfPrefix(s, start, ops, i, k - 1, a, b);
    }
  }

  // The lockstep run of the ring is the lockstep run of the protocol.
  lemma {:induction false} LockstepIsRun(s: Setup, start: uint128, ops: seq<Op>, i: nat, k: nat)
    requires i < 3 && k <= |ops|
    ensures LocalAfter(s, start, ops, i, k, RX.History(Protocol(s, start, ops), i, k))
            == Share(Run(s, start, ops[..k]), i)
    decreases k
  {
    hide Send, Receive;
    if k > 0 {
      var p, j, op := Protocol(s, start, ops), RX.Prev(i), ops[k - 1];
      assert ops[..k][..k - 1] == ops[..k - 1] && ops[..k][k - 1] == op;
      LockstepIsRun(s, start, ops, i, k - 1);
      LockstepIsRun(s, start, ops, j, k - 1);
      var mine, h := RX.History(p, i, k), RX.History(p, i, k - 1);
      assert mine == h + [RX.Sent(p, j, k - 1)];
      LocalOfPrefix(s, start, ops, i, k - 1, mine, h);
      var theirs := RX.History(p, j, k - 1);
      assert RX.Sent(p, j, k - 1) == Send(s, j, LocalAfter(s, start, ops, j, k - 1, theirs), op);
      StepAt(s, Run(s, start, ops[..k - 1]), op, i);
    }
  }

  lemma StepAt(s: Setup, st: State, op: Op, i: nat)
    requires i < 3
    ensures Share(Step(s, st, op), i)
         == Receive(i, Share(st, i), op, Send(s, i, Share(st, i), op), Send(s, RX.Prev(i), Share(st, RX.Prev(i)), op))
  {
    hide Send, Receive;
  }

  /** The protocol under every interleaving: however the calls, deliveries and receipts of the three servers
      are scheduled, no schedule takes more than twelve moves an operation, and one that cannot go on leaves
      the servers in the state of the lockstep run -- counters equal, every vector replicated and opening to
      the plaintext run's. */
  lemma EveryInterleavingCorrect(s: Setup, start: uint128, ops: seq<Op>, moves: seq<RX.Move>, configs: seq<RX.Config>)
    requires Sound(ops) && RX.Execution(Protocol(s, start, ops), moves, configs, |ops|)
    ensures |moves| <= 12 * |ops|
    ensures (forall i, l :: 0 <= i < 3 ==> !RX.CanStep(configs[|moves|], i, l, |ops|)) ==>
              var last, n := configs[|moves|], |ops|;
              && |last[0].received| == |last[1].received| == |last[2].received| == n
              && (forall i :: 0 <= i < 3 ==>
                    LocalAfter(s, start, ops, i, n, last[i].received) == Share(Run(s, start, ops), i))
              && Correct(Trio(LocalAfter(s, start, ops, 0, n, last[0].received),
                              LocalAfter(s, start, ops, 1, n, last[1].received),
                              LocalAfter(s, start, ops, 2, n, last[2].received)), PlainRun(ops))
  {
    hide Correct, Send, Receive, RX.CanStep, RX.DoStep, Sound, PlainRun, Run;
    var p, n := Protocol(s, start, ops), |ops|;
    RX.EveryRunCompletes(p, moves, configs, n);
    assert ops[..n] == ops;
    LockstepIsRun(s, start, ops, 0, n);
    LockstepIsRun(s, start, ops, 1, n);
    LockstepIsRun(s, start, ops, 2, n);
    RunCorrect(s, start, ops);
  }
}
