/** Queries under every schedule: what the servers hold, and what the client makes of it, does not depend on
    how the exchanges of their operations interleave. */
module Schedules {
  import opened Arith
  import opened Rss
  import opened RssRuns
  import opened Trace
  import C = Cluster
  import QC = QueryClient
  import RR = RingRuns
  import RX = RingExchange

  // A schedule of everything the servers have exchanged so far, run until it cannot go on.
  ghost predicate Finished(c: C.Cluster, moves: seq<RX.Move>, configs: seq<RX.Config>)
    reads c`ops, c.s0`prfKey0, c.s1`prfKey0, c.s2`prfKey0
  {
    && RX.Execution(RR.Protocol(c.Keys(), 0, c.ops), moves, configs, |c.ops|)
    && forall i, l :: 0 <= i < 3 ==> !RX.CanStep(configs[|moves|], i, l, |c.ops|)
  }

  // What server i holds at the end of a schedule: what it computes from its own keys, its own inputs and the
  // messages it has received.
  ghost function HeldBy(c: C.Cluster, i: nat, moves: seq<RX.Move>, configs: seq<RX.Config>): Local
    requires i < 3 && |configs| == |moves| + 1 && |configs[|moves|][i].received| == |c.ops|
    reads c`ops, c.s0`prfKey0, c.s1`prfKey0, c.s2`prfKey0
  {
    RR.LocalAfter(c.Keys(), 0, c.ops, i, |c.ops|, configs[|moves|][i].received)
  }

  /** Whatever the servers hold as a result of their operations, they hold under every schedule of the
      mailboxes: the operations so far are a program of the ring in which each server sends what its own keys,
      inputs and received messages make it send; no schedule of it takes more than twelve moves an operation,
      and one that cannot go on leaves server i with its part of the result. */
  lemma ResultUnderEverySchedule(c: C.Cluster, k: nat, h: Trio<Held>, moves: seq<RX.Move>, configs: seq<RX.Config>)
    requires c.Valid() && c.Result(k, h) && Finished(c, moves, configs)
    ensures |moves| <= 12 * |c.ops| && |configs| == |moves| + 1
    ensures forall i :: 0 <= i < 3 ==>
              && |configs[|moves|][i].received| == |c.ops|
              && k < |HeldBy(c, i, moves, configs).regs| && HeldBy(c, i, moves, configs).regs[k] == Share(h, i)
  {
    hide Sound, PlainRun, Run, RR.LocalAfter, RX.CanStep, RX.DoStep, Send, Correct;
    RR.EveryInterleavingCorrect(c.Keys(), 0, c.ops, moves, configs);
  }

  /** The answer of a query does not depend on the schedule either: from the filters the three servers hold at
      the end of any finished schedule the client makes the very same answer. */
  lemma AnswerUnderEverySchedule(c: C.Cluster, ret: uint128, aggId: string, f: Trio<Held>, at: nat,
                                 moves: seq<RX.Move>, configs: seq<RX.Config>)
    requires c.Valid() && QC.Recombined(c, ret, aggId, f, at) && Finished(c, moves, configs)
    ensures |configs| == |moves| + 1
    ensures forall i :: 0 <= i < 3 ==>
              |configs[|moves|][i].received| == |c.ops| && at < |HeldBy(c, i, moves, configs).regs|
    ensures
      var held := Trio(HeldBy(c, 0, moves, configs).regs[at], HeldBy(c, 1, moves, configs).regs[at],
                       HeldBy(c, 2, moves, configs).regs[at]);
      QC.FromAnswers(c, ret, aggId, held)
  {
    hide QC.FromAnswers, HeldBy, Finished, ResultAt;
    ResultUnderEverySchedule(c, at, f, moves, configs);
  }
}
