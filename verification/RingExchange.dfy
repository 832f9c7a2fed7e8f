/** The message exchange under every resharing and multiplication: three servers in a ring, each
    sending one message a round to its successor by a blocking call and receiving its predecessor's
    through a one-slot mailbox, under every interleaving. */
module RingExchange {
  import opened Rss

  // What one exchange carries: a list of vectors.
  type Message = seq<Vec>

  // Where a server's query thread stands in its round: before the send; in the blocking SendMult call;
  // back from it, waiting for its own mailbox to be filled.
  datatype Phase = Computing | Sending | Receiving

  // pending: calls from the predecessor not yet served by FinishMultiply; slot: multReceivedShares;
  // acked: the server's own call has been answered but has not returned yet.
  datatype Server = Server(phase: Phase, acked: bool, pending: seq<Message>, slot: seq<Message>, received: seq<Message>)

  type Config = c: seq<Server> | |c| == 3
    ghost witness [IDLE, IDLE, IDLE]

  const IDLE: Server := Server(Computing, false, [], [], [])

  function Next(i: nat): nat
    requires i < 3
  {
    if i == 2 then 0 else i + 1
  }

  function Prev(i: nat): nat
    requires i < 3
  {
    if i == 0 then 2 else i - 1
  }

  function Round(s: Server): nat { |s.received| }

  // What server i sends after having received the given messages: any function of its own history.
  type Program = (nat, seq<Message>) -> Message

  // ----- steps -----

  datatype Label = Send | Deposit | Return | Take

  // A step of server i in a run of n rounds.
  ghost predicate CanStep(c: Config, i: nat, l: Label, n: nat)
    requires i < 3
  {
    match l
    case Send => c[i].phase == Computing && Round(c[i]) < n
    // FinishMultiply waits while the slot is full
    case Deposit => c[i].pending != [] && c[i].slot == []
    case Return => c[i].phase == Sending && c[i].acked
    // the query thread waits while the slot is empty
    case Take => c[i].phase == Receiving && c[i].slot != []
  }

  ghost function DoStep(p: Program, c: Config, i: nat, l: Label, n: nat): Config
    requires i < 3 && CanStep(c, i, l, n)
  {
    match l
    case Send =>
      var j := Next(i);
      c[i := c[i].(phase := Sending, acked := false)][j := c[j].(pending := c[j].pending + [p(i, c[i].received)])]
    case Deposit =>
      var j := Prev(i);
      c[i := c[i].(slot := [c[i].pending[0]], pending := c[i].pending[1..])][j := c[j].(acked := true)]
    case Return => c[i := c[i].(phase := Receiving, acked := false)]
    case Take => c[i := c[i].(phase := Computing, slot := [], received := c[i].received + c[i].slot)]
  }

  // ----- the lockstep run -----

  // The messages server i receives in the first k rounds when all servers move in lockstep.
  ghost function History(p: Program, i: nat, k: nat): (h: seq<Message>)
    requires i < 3
    ensures |h| == k
    decreases k, 0
  {
    if k == 0 then [] else History(p, i, k - 1) + [Sent(p, Prev(i), k - 1)]
  }

  // The message server i sends in round k of the lockstep run.
  ghost function Sent(p: Program, i: nat, k: nat): Message
    requires i < 3
    decreases k, 1
  {
    p(i, History(p, i, k))
  }

  // ----- the invariant -----

  // Rounds begun by a server: one more than completed while a message of the round is out.
  function SentCount(s: Server): nat
  {
    Round(s) + (if s.phase == Computing then 0 else 1)
  }

  // The link from server i, in state s, to its successor, in state t: it carries, in order, exactly the
  // messages sent and not yet received: first the slot, then the pending call.
  ghost predicate Link(p: Program, i: nat, s: Server, t: Server)
    requires i < 3
  {
    && |t.slot| <= 1 && |t.pending| <= 1
    && SentCount(s) == Round(t) + |t.slot| + |t.pending|
    && (|t.pending| == 1 <==> s.phase == Sending && !s.acked)
    && (s.acked ==> s.phase == Sending)
    && (t.slot != [] ==> t.slot[0] == Sent(p, i, Round(t)))
    && (t.pending != [] ==> t.pending[0] == Sent(p, i, Round(t) + |t.slot|))
  }

  ghost predicate Own(p: Program, i: nat, s: Server, n: nat)
    requires i < 3
  {
    s.received == History(p, i, Round(s)) && SentCount(s) <= n
  }

  ghost predicate Inv(p: Program, c: Config, n: nat)
  {
    && Own(p, 0, c[0], n) && Own(p, 1, c[1], n) && Own(p, 2, c[2], n)
    && Link(p, 0, c[0], c[1]) && Link(p, 1, c[1], c[2]) && Link(p, 2, c[2], c[0])
  }

  // The invariant, read starting from any server of the ring.
  lemma InvFrom(p: Program, c: Config, i: nat, n: nat)
    requires i < 3
    ensures
      var j, h := Next(i), Prev(i);
      Inv(p, c, n) <==>
        && Own(p, h, c[h], n) && Own(p, i, c[i], n) && Own(p, j, c[j], n)
        && Link(p, h, c[h], c[i]) && Link(p, i, c[i], c[j]) && Link(p, j, c[j], c[h])
  {
    hide Own, Link;
  }

  const START: seq<Server> := [IDLE, IDLE, IDLE]

  lemma InitInv(p: Program, n: nat)
    ensures Inv(p, START, n)
  {
  }

  // ----- each step, on the one or two links it touches -----

  lemma SendLink(p: Program, i: nat, s: Server, t: Server, n: nat)
    requires i < 3 && Own(p, i, s, n) && Link(p, i, s, t) && s.phase == Computing
    ensures Link(p, i, s.(phase := Sending, acked := false), t.(pending := t.pending + [p(i, s.received)]))
  {
    hide History;
  }

  lemma DepositLink(p: Program, i: nat, s: Server, t: Server)
    requires i < 3 && Link(p, i, s, t) && t.pending != [] && t.slot == []
    ensures Link(p, i, s.(acked := true), t.(slot := [t.pending[0]], pending := t.pending[1..]))
  {
    hide Sent;
  }

  lemma ReturnLink(p: Program, i: nat, s: Server, t: Server)
    requires i < 3 && Link(p, i, s, t) && s.phase == Sending && s.acked
    ensures Link(p, i, s.(phase := Receiving, acked := false), t)
  {
    hide Sent;
  }

  // Taking a message starts the receiver's next round on both its links.
  lemma TakeLinks(p: Program, i: nat, s: Server, t: Server, next: Server, n: nat)
    requires i < 3 && Link(p, i, s, t) && Own(p, Next(i), t, n) && Link(p, Next(i), t, next)
    requires t.phase == Receiving && t.slot != []
    ensures
      var t' := t.(phase := Computing, slot := [], received := t.received + t.slot);
      Link(p, i, s, t') && Own(p, Next(i), t', n) && Link(p, Next(i), t', next)
  {
    hide Sent, History;
    HistoryUnfold(p, Next(i), Round(t));
    assert t.slot == [t.slot[0]];
  }

  lemma HistoryUnfold(p: Program, i: nat, k: nat)
    requires i < 3
    ensures History(p, i, k + 1) == History(p, i, k) + [Sent(p, Prev(i), k)]
  {
  }

  // A link sees only its sender's phase, flag and history and its receiver's mailbox and history.
  lemma LinkFrame(p: Program, i: nat, s: Server, s': Server, t: Server, t': Server)
    requires i < 3 && Link(p, i, s, t)
    requires s'.phase == s.phase && s'.acked == s.acked && s'.received == s.received
    requires t'.pending == t.pending && t'.slot == t.slot && t'.received == t.received
    ensures Link(p, i, s', t')
  {
    hide Sent;
  }

  lemma StepInv(p: Program, c: Config, i: nat, l: Label, n: nat)
    requires i < 3 && Inv(p, c, n) && CanStep(c, i, l, n)
    ensures Inv(p, DoStep(p, c, i, l, n), n)
  {
    hide Inv, Link, Own;
    var j, h := Next(i), Prev(i);
    var c' := DoStep(p, c, i, l, n);
    InvFrom(p, c, i, n);
    InvFrom(p, c', i, n);
    match l {
      case Send => SendStep(p, c, c', i, n);
      case Deposit => DepositStep(p, c, c', i, n);
      case Return => ReturnStep(p, c, c', i, n);
      case Take => TakeLinks(p, h, c[h], c[i], c[j], n); LinkFrame(p, j, c[j], c'[j], c[h], c'[h]);
    }
  }

  lemma SendStep(p: Program, c: Config, c': Config, i: nat, n: nat)
    requires i < 3 && Inv(p, c, n) && CanStep(c, i, Send, n) && c' == DoStep(p, c, i, Send, n)
    ensures Inv(p, c', n)
  {
    hide Inv, Link, History, Sent;
    var j, h := Next(i), Prev(i);
    InvFrom(p, c, i, n);
    SendLink(p, i, c[i], c[j], n);
    LinkFrame(p, h, c[h], c'[h], c[i], c'[i]);
    LinkFrame(p, j, c[j], c'[j], c[h], c'[h]);
    InvFrom(p, c', i, n);
  }

  lemma DepositStep(p: Program, c: Config, c': Config, i: nat, n: nat)
    requires i < 3 && Inv(p, c, n) && CanStep(c, i, Deposit, n) && c' == DoStep(p, c, i, Deposit, n)
    ensures Inv(p, c', n)
  {
    hide Inv, Link, History, Sent;
    var j, h := Next(i), Prev(i);
    InvFrom(p, c, i, n);
    DepositLink(p, h, c[h], c[i]);
    LinkFrame(p, i, c[i], c'[i], c[j], c'[j]);
    LinkFrame(p, j, c[j], c'[j], c[h], c'[h]);
    InvFrom(p, c', i, n);
  }

  lemma ReturnStep(p: Program, c: Config, c': Config, i: nat, n: nat)
    requires i < 3 && Inv(p, c, n) && CanStep(c, i, Return, n) && c' == DoStep(p, c, i, Return, n)
    ensures Inv(p, c', n)
  {
    hide Inv, Link, History, Sent;
    var j, h := Next(i), Prev(i);
    InvFrom(p, c, i, n);
    ReturnLink(p, i, c[i], c[j]);
    LinkFrame(p, h, c[h], c'[h], c[i], c'[i]);
    LinkFrame(p, j, c[j], c'[j], c[h], c'[h]);
    InvFrom(p, c', i, n);
  }

  // ----- executions -----

  datatype Move = Move(server: nat, l: Label)

  // An execution: a schedule of moves, each enabled where it is taken.
  ghost predicate Execution(p: Program, moves: seq<Move>, configs: seq<Config>, n: nat)
  {
    && |configs| == |moves| + 1 && configs[0] == START
    && forall k :: 0 <= k < |moves| ==>
         && moves[k].server < 3 && CanStep(configs[k], moves[k].server, moves[k].l, n)
         && configs[k + 1] == DoStep(p, configs[k], moves[k].server, moves[k].l, n)
  }

  lemma {:induction false} ReachableInv(p: Program, moves: seq<Move>, configs: seq<Config>, n: nat, k: nat)
    requires Execution(p, moves, configs, n) && k < |configs|
    ensures Inv(p, configs[k], n)
  {
    hide Inv, DoStep, CanStep;
    if k == 0 {
      InitInv(p, n);
    } else {
      ReachableInv(p, moves, configs, n, k - 1);
      StepInv(p, configs[k - 1], moves[k - 1].server, moves[k - 1].l, n);
    }
  }

  /** Nothing is lost, overwritten or reordered, and the schedule does not matter: in every reachable
      configuration the k-th message a server has received is the one its predecessor sends in round k
      of the lockstep run. */
  lemma DeliveredInOrder(p: Program, moves: seq<Move>, configs: seq<Config>, n: nat, t: nat, i: nat, k: nat)
    requires Execution(p, moves, configs, n) && t < |configs| && i < 3 && k < Round(configs[t][i])
    ensures configs[t][i].received[k] == Sent(p, Prev(i), k)
  {
    ReachableInv(p, moves, configs, n, t);
    HistoryAt(p, i, Round(configs[t][i]), k);
  }

  lemma {:induction false} HistoryAt(p: Program, i: nat, n: nat, k: nat)
    requires i < 3 && k < n
    ensures History(p, i, n)[k] == Sent(p, Prev(i), k)
  {
    hide Sent;
    if k < n - 1 { HistoryAt(p, i, n - 1, k); }
  }

  /** Servers are never more than one round apart. */
  lemma RoundsStayClose(p: Program, moves: seq<Move>, configs: seq<Config>, n: nat, t: nat, i: nat, j: nat)
    requires Execution(p, moves, configs, n) && t < |configs| && i < 3 && j < 3
    ensures Round(configs[t][i]) <= Round(configs[t][j]) + 1
  {
    ReachableInv(p, moves, configs, n, t);
    var c := configs[t];
  }

  ghost predicate Finished(c: Config, n: nat)
  {
    forall i :: 0 <= i < 3 ==> c[i].phase == Computing && Round(c[i]) == n
  }

  lemma NoDeadlockFrom(p: Program, c: Config, n: nat)
    requires Inv(p, c, n) && !Finished(c, n)
    ensures exists i, l :: 0 <= i < 3 && CanStep(c, i, l, n)
  {
    hide Sent, History;
    if !exists i, l :: 0 <= i < 3 && CanStep(c, i, l, n) {
      Stuck(c, 0, n);
      Stuck(c, 1, n);
      Stuck(c, 2, n);
    }
  }

  lemma Stuck(c: Config, i: nat, n: nat)
    requires i < 3 && !exists i, l :: 0 <= i < 3 && CanStep(c, i, l, n)
    ensures !CanStep(c, i, Send, n) && !CanStep(c, i, Deposit, n) && !CanStep(c, i, Return, n)
            && !CanStep(c, i, Take, n)
  {
    hide CanStep;
  }

  /** No reachable unfinished configuration is stuck. */
  lemma NoDeadlock(p: Program, moves: seq<Move>, configs: seq<Config>, n: nat, t: nat)
    requires Execution(p, moves, configs, n) && t < |configs| && !Finished(configs[t], n)
    ensures exists i, l :: 0 <= i < 3 && CanStep(configs[t], i, l, n)
  {
    ReachableInv(p, moves, configs, n, t);
    NoDeadlockFrom(p, configs[t], n);
  }

  // Steps a server has taken part in as the sender or the receiver of its own round.
  function Work(s: Server): nat
  {
    4 * Round(s) + match s.phase
                   case Computing => 0
                   case Sending => if s.acked then 2 else 1
                   case Receiving => 3
  }

  function TotalWork(c: Config): nat { Work(c[0]) + Work(c[1]) + Work(c[2]) }

  lemma WorkFrom(c: Config, i: nat)
    requires i < 3
    ensures TotalWork(c) == Work(c[Prev(i)]) + Work(c[i]) + Work(c[Next(i)])
  {
    hide Work;
  }

  lemma StepWorks(p: Program, c: Config, i: nat, l: Label, n: nat)
    requires i < 3 && Inv(p, c, n) && CanStep(c, i, l, n)
    ensures TotalWork(DoStep(p, c, i, l, n)) == TotalWork(c) + 1
  {
    hide Sent, History, TotalWork, Inv, Own;
    InvFrom(p, c, i, n);
    WorkFrom(c, i);
    WorkFrom(DoStep(p, c, i, l, n), i);
  }

  lemma {:induction false} WorkIsTime(p: Program, moves: seq<Move>, configs: seq<Config>, n: nat, t: nat)
    requires Execution(p, moves, configs, n) && t < |configs|
    ensures TotalWork(configs[t]) == t
  {
    hide Inv, DoStep, CanStep;
    if t > 0 {
      WorkIsTime(p, moves, configs, n, t - 1);
      ReachableInv(p, moves, configs, n, t - 1);
      StepWorks(p, configs[t - 1], moves[t - 1].server, moves[t - 1].l, n);
    } else {
      assert TotalWork(START) == 0;
    }
  }

  /** Every execution ends: no schedule has more than 12 n moves, and one that cannot be extended has
      exactly that many, with every server holding the messages of the lockstep run. */
  lemma EveryRunCompletes(p: Program, moves: seq<Move>, configs: seq<Config>, n: nat)
    requires Execution(p, moves, configs, n)
    ensures |moves| <= 12 * n
    ensures (forall i, l :: 0 <= i < 3 ==> !CanStep(configs[|moves|], i, l, n)) ==>
              |moves| == 12 * n && forall i :: 0 <= i < 3 ==> configs[|moves|][i].received == History(p, i, n)
  {
    var c := configs[|moves|];
    ReachableInv(p, moves, configs, n, |moves|);
    WorkIsTime(p, moves, configs, n, |moves|);
    if forall i, l :: 0 <= i < 3 ==> !CanStep(c, i, l, n) {
      if !Finished(c, n) { NoDeadlockFrom(p, c, n); }
    }
  }
}
