/** `calc_bw` in memory: the ranks' counters and the traffic of the pairs, updated in place. */
module WindowMachine {
  import opened WindowProtocol
  import opened WindowProgress
  import Fairness

  class Job {
    const c: Config
    const ranks: array<Side>
    const nets: array<Net>

    ghost predicate Valid() {
      c.Valid() && nets.Length == c.pairs && ranks.Length >= 2 * c.pairs
    }

    ghost function View(): State
      reads ranks, nets
    {
      State(ranks[..], nets[..])
    }

    constructor (c: Config, numRanks: nat)
      requires c.Valid() && numRanks >= 2 * c.pairs
      ensures Valid() && fresh(ranks) && fresh(nets)
      ensures this.c == c && ranks.Length == numRanks && Initial(c, View())
    {
      this.c := c;
      ranks := new Side[numRanks](r => Side(0, Top, 0, 0, 0, 0));
      nets := new Net[c.pairs](p => Net(0, 0, 0, 0, 0, 0, 0, 0));
    }

    /** The head of the iteration loop of a sender or receiver. */
    method Head(x: Side) returns (y: Side)
      ensures y == FromTop(c, x)
    {
      y := x;
      if y.barriers == 0 {
        y := y.(barriers := 1, stage := AtBarrier);
      } else if y.iter == c.Iterations() {
        y := y.(stage := Finished);
      } else if y.iter == c.skip && y.barriers == 1 {
        y := y.(barriers := 2, stage := AtBarrier);
      } else {
        y := y.(stage := Posting, count := 0);
      }
    }

    /** One poll of `wait_for_comp`, and the reset after a successful counter wait. */
    method Poll(have: nat, left: nat) returns (w: Waited)
      ensures w == WaitStep(c.counting, have, left)
    {
      w := Waited(have, left, false);
      if c.counting {
        if have >= left {
          w := Waited(0, 0, true);
        }
      } else if left == 0 {
        w := Waited(have, 0, true);
      } else if have > 0 {
        w := Waited(have - 1, left - 1, false);
      }
    }

    /** A step of sending rank r. */
    method Send(open: bool, r: nat)
      requires Valid() && r < c.pairs
      modifies ranks, nets
      ensures
        var (x, n) := SenderStep(c, open, old(ranks[r]), old(nets[r]));
        ranks[..] == old(ranks[..])[r := x] && nets[..] == old(nets[..])[r := n]
    {
      hide FromTop, WaitStep, c.PerWindow;
      var x, n := ranks[r], nets[r];
      match x.stage {
        case Top => x := Head(x);
        case AtBarrier =>
          if open {
            x := x.(stage := Top);
          }
        case Posting =>
          if x.count < c.PerWindow() {
            x, n := x.(count := x.count + 1), n.(sent := n.sent + 1);
          } else {
            x := x.(stage := WaitData);
          }
        case WaitData =>
          var w := Poll(x.send, x.count);
          x := if w.done then x.(send := w.have, stage := PostAck, count := 0) else x.(send := w.have, count := w.left);
        case PostAck =>
          x, n := x.(stage := WaitAck, count := 1), n.(ackPosted := n.ackPosted + 1);
        case WaitAck =>
          var w := Poll(x.recv, x.count);
          x := if w.done then NextIteration(x.(recv := w.have)) else x.(recv := w.have, count := w.left);
        case Finished =>
      }
      ranks[r], nets[r] := x, n;
    }

    /** A step of receiving rank r. */
    method Receive(open: bool, r: nat)
      requires Valid() && c.pairs <= r < 2 * c.pairs
      modifies ranks, nets
      ensures
        var p := r - c.pairs;
        var (x, n) := ReceiverStep(c, open, old(ranks[r]), old(nets[p]));
        ranks[..] == old(ranks[..])[r := x] && nets[..] == old(nets[..])[p := n]
    {
      hide FromTop, WaitStep, c.PerWindow;
      var x, n := ranks[r], nets[r - c.pairs];
      match x.stage {
        case Top => x := Head(x);
        case AtBarrier =>
          if open {
            x := x.(stage := Top);
          }
        case Posting =>
          if x.count < c.PerWindow() {
            x, n := x.(count := x.count + 1), n.(posted := n.posted + 1);
          } else {
            x := x.(stage := WaitData);
          }
        case WaitData =>
          var w := Poll(x.recv, x.count);
          x := if w.done then x.(recv := w.have, stage := PostAck, count := 0) else x.(recv := w.have, count := w.left);
        case PostAck =>
          x, n := x.(stage := WaitAck, count := 1), n.(ackSent := n.ackSent + 1);
        case WaitAck =>
          var w := Poll(x.send, x.count);
          x := if w.done then NextIteration(x.(send := w.have)) else x.(send := w.have, count := w.left);
        case Finished =>
      }
      ranks[r], nets[r - c.pairs] := x, n;
    }

    /** A network event of pair p: a match or the completion of a send. */
    method Deliver(p: nat, e: Event)
      requires Valid() && p < c.pairs
      modifies ranks, nets
      ensures
        var (x, y, n) := NetStep(e, old(ranks[p]), old(ranks[p + c.pairs]), old(nets[p]));
        ranks[..] == old(ranks[..])[p := x][p + c.pairs := y] && nets[..] == old(nets[..])[p := n]
    {
      var q, n := p + c.pairs, nets[p];
      match e {
        case MatchData =>
          if n.matched < n.sent && n.matched < n.posted {
            nets[p] := n.(matched := n.matched + 1);
            ranks[q] := ranks[q].(recv := ranks[q].recv + 1);
          }
        case CompleteData =>
          if n.sendDone < n.sent {
            nets[p] := n.(sendDone := n.sendDone + 1);
            ranks[p] := ranks[p].(send := ranks[p].send + 1);
          }
        case MatchAck =>
          if n.ackMatched < n.ackSent && n.ackMatched < n.ackPosted {
            nets[p] := n.(ackMatched := n.ackMatched + 1);
            ranks[p] := ranks[p].(recv := ranks[p].recv + 1);
          }
        case CompleteAck =>
          if n.ackDone < n.ackSent {
            nets[p] := n.(ackDone := n.ackDone + 1);
            ranks[q] := ranks[q].(send := ranks[q].send + 1);
          }
      }
    }

    /** One step of a rank or of the network. */
    method Act(a: Action)
      requires Valid() && Legal(c, View(), a)
      modifies ranks, nets
      ensures View() == Next(c, old(View()), a)
    {
      hide SenderStep, ReceiverStep, NetStep;
      match a {
        case RankAct(r) =>
          var open := forall q :: 0 <= q < ranks.Length ==> ranks[q].barriers >= ranks[r].barriers;
          assert open == BarrierOpen(View(), ranks[r].barriers);
          if r < c.pairs {
            Send(open, r);
          } else if r < 2 * c.pairs {
            Receive(open, r);
          } else {
            ranks[r] := IdleStep(open, ranks[r]);
          }
        case NetAct(p, e) => Deliver(p, e);
      }
    }

    /** Any interleaving of the ranks and the network. */
    method Execute(actions: seq<Action>)
      requires Valid() && Inv(c, View())
      requires forall k :: 0 <= k < |actions| ==> Legal(c, View(), actions[k])
      modifies ranks, nets
      ensures View() == Run(c, old(View()), actions)
    {
      hide Next, Inv;
      ghost var s := View();
      for n := 0 to |actions|
        invariant Inv(c, View()) && View() == Run(c, s, actions[..n])
      {
        assert actions[..n + 1][..n] == actions[..n];
        assert Legal(c, s, actions[n]);
        NextPreserves(c, View(), actions[n]);
        Act(actions[n]);
      }
      assert actions[..|actions|] == actions;
    }
  }

  predicate Possible(c: Config, numRanks: nat, a: Action) {
    match a
    case RankAct(r) => r < numRanks
    case NetAct(p, _) => p < c.pairs
  }

  /**
   * One call of `calc_bw` by all ranks, from fresh counters. Under every interleaving the pairs stay in lockstep; if no
   * rank and no network event is starved all ranks return; and when they have returned every pair has balanced its
   * books and left no completion in any counter.
   */
  method CalcBw(c: Config, numRanks: nat, blocks: seq<seq<Action>>)
    returns (job: Job, ghost s: State, ghost actions: seq<Action>)
    requires c.Valid() && numRanks >= 2 * c.pairs
    requires forall b, k :: 0 <= b < |blocks| && 0 <= k < |blocks[b]| ==> Possible(c, numRanks, blocks[b][k])
    ensures fresh(job) && job.Valid() && job.c == c && job.ranks.Length == numRanks
    ensures actions == Fairness.Flatten(blocks) && Reaches(c, s, actions, job.View())
    ensures forall p :: 0 <= p < c.pairs ==> Lockstep(c, job.ranks[p], job.ranks[p + c.pairs], job.nets[p])
    ensures AllFinished(job.View()) ==>
              forall p :: 0 <= p < c.pairs ==> Balanced(c, job.ranks[p], job.ranks[p + c.pairs], job.nets[p])
    ensures FairCall(c, numRanks, blocks) ==> AllFinished(job.View())
  {
    hide Run, Inv, Stuck, AllFinished, Lockstep, Balanced, FairCall;
    job := new Job(c, numRanks);
    s := job.View();
    InitialInv(c, s);
    var schedule: seq<Action> := Fairness.Flatten(blocks);
    actions := schedule;
    Fairness.FlattenAll(a => Possible(c, numRanks, a), blocks, schedule);
    assert forall k :: 0 <= k < |actions| ==> Legal(c, s, actions[k]);
    job.Execute(schedule);
    ghost var t := job.View();
    assert Reaches(c, s, actions, t);
    EveryRun(c, s, actions, t);
    if FairCall(c, numRanks, blocks) {
      FairRunFinishes(c, s, blocks, actions, t);
    }
  }
}
