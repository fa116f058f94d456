/** Termination of `calc_bw`: every run has boundedly many effective actions, and a fair run ends for all ranks. */
module WindowProgress {
  import opened Multiples
  import opened Totals
  import opened WindowProtocol
  import Fairness

  function IdlePosition(x: Side): int {
    2 * x.barriers + (if x.stage == AtBarrier then -1 else if x.stage == Finished then 1 else 0)
  }

  function RankScore(c: Config, r: nat, x: Side): nat {
    var p := if r < 2 * c.pairs then Position(c, x) else IdlePosition(x);
    if p >= 0 then p else 0
  }

  function NetScore(n: Net): nat {
    n.matched + n.sendDone + n.ackMatched + n.ackDone
  }

  function RankScores(c: Config, s: State): (m: seq<nat>)
    ensures |m| == |s.ranks| && forall r :: 0 <= r < |s.ranks| ==> m[r] == RankScore(c, r, s.ranks[r])
  {
    seq(|s.ranks|, r requires 0 <= r < |s.ranks| => RankScore(c, r, s.ranks[r]))
  }

  function NetScores(s: State): (m: seq<nat>)
    ensures |m| == |s.nets| && forall p :: 0 <= p < |s.nets| ==> m[p] == NetScore(s.nets[p])
  {
    seq(|s.nets|, p requires 0 <= p < |s.nets| => NetScore(s.nets[p]))
  }

  /** How far all ranks and all traffic have come. */
  function Measure(c: Config, s: State): nat {
    Sum(RankScores(c, s)) + Sum(NetScores(s))
  }

  function MostRankScore(c: Config): nat {
    Times(c.Iterations(), 2 * c.PerWindow() + 7) + 5
  }

  function MostNetScore(c: Config): nat {
    2 * Times(c.Iterations(), c.PerWindow()) + 2 * c.Iterations()
  }

  function MostSteps(c: Config, numRanks: nat): nat {
    Times(numRanks, MostRankScore(c)) + Times(c.pairs, MostNetScore(c))
  }

  /** Positions are never negative, so the score is the position. */
  lemma ScoreIsPosition(c: Config, x: Side)
    requires c.Valid() && Control(c, x)
    ensures Position(c, x) >= 0
  {
    hide Times, c.PerWindow;
  }

  lemma SenderRises(c: Config, open: bool, snd: Side, n: Net, r: nat)
    requires c.Valid() && Control(c, snd) && r < c.pairs
    ensures SenderStep(c, open, snd, n).1 != n ==> SenderStep(c, open, snd, n).0 != snd
    ensures SenderStep(c, open, snd, n).0 != snd ==>
              RankScore(c, r, SenderStep(c, open, snd, n).0) > RankScore(c, r, snd)
    ensures NetScore(SenderStep(c, open, snd, n).1) == NetScore(n)
  {
    SenderFrame(c, open, snd, n);
    hide SenderStep, Position, Control;
    if SenderStep(c, open, snd, n).0 != snd {
      SenderAdvances(c, open, snd, n);
      ScoreIsPosition(c, snd);
    }
  }

  /** A sender's step that touches the traffic also moves the sender, and it completes nothing. */
  lemma SenderFrame(c: Config, open: bool, snd: Side, n: Net)
    ensures SenderStep(c, open, snd, n).1 != n ==> SenderStep(c, open, snd, n).0 != snd
    ensures NetScore(SenderStep(c, open, snd, n).1) == NetScore(n)
  {
    hide c.PerWindow, FromTop, WaitStep;
  }

  lemma ReceiverFrame(c: Config, open: bool, rcv: Side, n: Net)
    ensures ReceiverStep(c, open, rcv, n).1 != n ==> ReceiverStep(c, open, rcv, n).0 != rcv
    ensures NetScore(ReceiverStep(c, open, rcv, n).1) == NetScore(n)
  {
    hide c.PerWindow, FromTop, WaitStep;
  }

  lemma ReceiverRises(c: Config, open: bool, rcv: Side, n: Net, r: nat)
    requires c.Valid() && Control(c, rcv) && r < 2 * c.pairs
    ensures ReceiverStep(c, open, rcv, n).1 != n ==> ReceiverStep(c, open, rcv, n).0 != rcv
    ensures ReceiverStep(c, open, rcv, n).0 != rcv ==>
              RankScore(c, r, ReceiverStep(c, open, rcv, n).0) > RankScore(c, r, rcv)
    ensures NetScore(ReceiverStep(c, open, rcv, n).1) == NetScore(n)
  {
    ReceiverFrame(c, open, rcv, n);
    hide ReceiverStep, Position, Control;
    if ReceiverStep(c, open, rcv, n).0 != rcv {
      ReceiverAdvances(c, open, rcv, n);
      ScoreIsPosition(c, rcv);
    }
  }

  lemma IdleRises(c: Config, open: bool, x: Side, r: nat)
    requires IdleInv(x) && r >= 2 * c.pairs
    ensures IdleStep(open, x) != x ==> RankScore(c, r, IdleStep(open, x)) > RankScore(c, r, x)
  {}

  /** Arrivals do not move a rank. */
  lemma NetRises(c: Config, e: Event, snd: Side, rcv: Side, n: Net)
    ensures
      var (x, y, t) := NetStep(e, snd, rcv, n);
      && Position(c, x) == Position(c, snd) && Position(c, y) == Position(c, rcv)
      && (t == n ==> x == snd && y == rcv)
      && (t != n ==> NetScore(t) == NetScore(n) + 1)
  {
    hide Times, c.PerWindow;
  }

  /** A rank's effective step raises its score, and neither the other ranks' nor the traffic's changes. */
  lemma RankActRaises(c: Config, s: State, r: nat)
    requires Inv(c, s) && Shape(c, s) && r < |s.ranks| && Next(c, s, RankAct(r)) != s
    ensures
      var t := Next(c, s, RankAct(r));
      && |t.ranks| == |s.ranks| && RankScore(c, r, t.ranks[r]) > RankScore(c, r, s.ranks[r])
      && (forall q :: 0 <= q < |s.ranks| && q != r ==> t.ranks[q] == s.ranks[q])
      && NetScores(t) == NetScores(s)
  {
    hide Inv, SenderStep, ReceiverStep, IdleStep, Control, RankScore, NetScore;
    var open := BarrierOpen(s, s.ranks[r].barriers);
    hide BarrierOpen;
    ControlOf(c, s, r);
    if r < c.pairs {
      SenderRises(c, open, s.ranks[r], s.nets[r], r);
    } else if r < 2 * c.pairs {
      ReceiverRises(c, open, s.ranks[r], s.nets[r - c.pairs], r);
    } else {
      IdleRises(c, open, s.ranks[r], r);
    }
  }

  lemma ControlOf(c: Config, s: State, r: nat)
    requires Inv(c, s) && r < |s.ranks|
    ensures c.Valid() && Shape(c, s)
    ensures r < 2 * c.pairs ==> Control(c, s.ranks[r])
    ensures r >= 2 * c.pairs ==> IdleInv(s.ranks[r])
  {
    hide Control, SenderBooks, ReceiverBooks, NetBounds;
    if r < c.pairs {
      assert PairInv(c, s.ranks[r], s.ranks[r + c.pairs], s.nets[r]);
    } else if r < 2 * c.pairs {
      assert PairInv(c, s.ranks[r - c.pairs], s.ranks[r - c.pairs + c.pairs], s.nets[r - c.pairs]);
    }
  }

  /** An effective network event raises the pair's traffic score, and no rank's score changes. */
  lemma NetActRaises(c: Config, s: State, p: nat, e: Event)
    requires Shape(c, s) && p < c.pairs && Next(c, s, NetAct(p, e)) != s
    ensures
      var t := Next(c, s, NetAct(p, e));
      && |t.nets| == |s.nets| && NetScore(t.nets[p]) > NetScore(s.nets[p])
      && (forall q :: 0 <= q < |s.nets| && q != p ==> t.nets[q] == s.nets[q])
      && RankScores(c, t) == RankScores(c, s)
  {
    NetRises(c, e, s.ranks[p], s.ranks[p + c.pairs], s.nets[p]);
    hide NetStep, Position, NetScore;
  }

  /** Every action that changes anything raises the measure. */
  lemma NextRaises(c: Config, s: State, a: Action)
    requires Inv(c, s) && Shape(c, s) && Legal(c, s, a) && Next(c, s, a) != s
    ensures Measure(c, Next(c, s, a)) > Measure(c, s)
  {
    hide Inv, Next, RankScore, NetScore;
    var t := Next(c, s, a);
    match a
    case RankAct(r) =>
      RankActRaises(c, s, r);
      assert RankScores(c, t) == RankScores(c, s)[r := RankScore(c, r, t.ranks[r])];
      SumUpdate(RankScores(c, s), r, RankScore(c, r, t.ranks[r]));
    case NetAct(p, e) =>
      NetActRaises(c, s, p, e);
      assert NetScores(t) == NetScores(s)[p := NetScore(t.nets[p])];
      SumUpdate(NetScores(s), p, NetScore(t.nets[p]));
  }

  lemma MeasureBounded(c: Config, s: State)
    requires Inv(c, s)
    ensures Measure(c, s) <= MostSteps(c, |s.ranks|)
  {
    hide Inv, Control, Position, c.PerWindow;
    forall r | 0 <= r < |s.ranks| ensures RankScores(c, s)[r] <= MostRankScore(c) {
      ControlOf(c, s, r);
      if r < 2 * c.pairs {
        PositionBounded(c, s.ranks[r]);
      }
    }
    SumBound(RankScores(c, s), MostRankScore(c));
    PairsOf(c, s);
    forall p | 0 <= p < |s.nets| ensures NetScores(s)[p] <= MostNetScore(c) {
      TrafficBounded(c, s.ranks[p], s.ranks[p + c.pairs], s.nets[p], MatchData);
    }
    SumBound(NetScores(s), MostNetScore(c));
  }

  lemma PairsOf(c: Config, s: State)
    requires Inv(c, s)
    ensures c.Valid() && Shape(c, s)
    ensures forall p :: 0 <= p < c.pairs ==> PairInv(c, s.ranks[p], s.ranks[p + c.pairs], s.nets[p])
  {}

  /** One call of `calc_bw`, in which every rank and every network event must be scheduled. */
  ghost function Call(c: Config, numRanks: nat): Fairness.System<State, Action> {
    Fairness.System(
      (s: State, a: Action) => if Shape(c, s) && Legal(c, s, a) then Next(c, s, a) else s,
      (s: State) => Inv(c, s) && |s.ranks| == numRanks,
      (s: State) => Measure(c, s),
      MostSteps(c, numRanks),
      (a: Action) => match a case RankAct(r) => r < numRanks case NetAct(p, _) => p < c.pairs,
      AllFinished)
  }

  lemma CallProgress(c: Config, numRanks: nat)
    ensures Fairness.Progressive(Call(c, numRanks)) && Fairness.Live(Call(c, numRanks))
  {
    hide Inv, Next, Measure, MostSteps, AllFinished, Stuck, Moves;
    var y := Call(c, numRanks);
    forall s: State, a: Action | y.inv(s)
      ensures y.inv(y.next(s, a)) && (y.next(s, a) != s ==> y.measure(y.next(s, a)) > y.measure(s))
      ensures y.done(s) ==> y.done(y.next(s, a))
    {
      PairsOf(c, s);
      if Legal(c, s, a) {
        NextPreserves(c, s, a);
        if Next(c, s, a) != s {
          NextRaises(c, s, a);
        }
        if y.done(s) {
          FinishedIsQuiet(c, s, a);
        }
      }
    }
    forall s: State | y.inv(s) ensures y.measure(s) <= y.bound {
      MeasureBounded(c, s);
    }
    forall s: State | y.inv(s) && !y.done(s) ensures exists a :: y.must(a) && y.next(s, a) != s {
      PairsOf(c, s);
      var a := SomeActionMoves(c, s);
      assert y.must(a) && y.next(s, a) != s;
    }
  }

  lemma SomeActionMoves(c: Config, s: State) returns (a: Action)
    requires Inv(c, s) && Shape(c, s) && !AllFinished(s)
    ensures Legal(c, s, a) && Next(c, s, a) != s
  {
    hide Inv, AllFinished, Moves;
    StuckIffFinished(c, s);
    a :| Legal(c, s, a) && Moves(c, s, a);
    MovesChanges(c, s, a);
  }

  lemma {:induction false} RunIsRun(c: Config, s: State, actions: seq<Action>)
    requires Inv(c, s) && forall k :: 0 <= k < |actions| ==> Legal(c, s, actions[k])
    ensures Run(c, s, actions) == Fairness.Run(Call(c, |s.ranks|), s, actions)
  {
    hide Inv, Next;
    if |actions| > 0 {
      var n := |actions| - 1;
      RunIsRun(c, s, actions[..n]);
      PairsOf(c, Run(c, s, actions[..n]));
      assert Legal(c, s, actions[n]);
    }
  }

  /** Termination: in any run only boundedly many actions change anything. */
  lemma RunEnds(c: Config, s: State, actions: seq<Action>, t: State)
    requires Reaches(c, s, actions, t)
    ensures t == Fairness.Run(Call(c, |s.ranks|), s, actions)
    ensures Fairness.Effective(Call(c, |s.ranks|), s, actions) <= MostSteps(c, |s.ranks|)
  {
    InitialInv(c, s);
    RunIsRun(c, s, actions);
    hide Inv, Run, MostSteps, Measure;
    CallProgress(c, |s.ranks|);
    Fairness.EffectiveBounded(Call(c, |s.ranks|), s, actions);
  }

  /** The schedule never starves a rank or a network event of a pair. */
  ghost predicate FairCall(c: Config, numRanks: nat, blocks: seq<seq<Action>>) {
    && (forall b, r: nat :: 0 <= b < |blocks| && r < numRanks ==> RankAct(r) in blocks[b])
    && (forall b, p: nat, e :: 0 <= b < |blocks| && p < c.pairs ==> NetAct(p, e) in blocks[b])
    && |blocks| > MostSteps(c, numRanks)
  }

  /** Taking turns, and letting the network do everything it can, is such a schedule. */
  lemma TurnsAreFair(c: Config, numRanks: nat)
    ensures exists blocks :: FairCall(c, numRanks, blocks)
  {
    hide MostSteps;
    var turns := seq(numRanks, r requires 0 <= r => RankAct(r));
    var events := seq(4 * c.pairs, k requires 0 <= k =>
      NetAct(k / 4, if k % 4 == 0 then MatchData else if k % 4 == 1 then CompleteData
                    else if k % 4 == 2 then MatchAck else CompleteAck));
    var block: seq<Action> := turns + events;
    forall r: nat | r < numRanks ensures RankAct(r) in block {
      assert block[r] == RankAct(r);
    }
    forall p: nat, e | p < c.pairs ensures NetAct(p, e) in block {
      var k := 4 * p + match e case MatchData => 0 case CompleteData => 1 case MatchAck => 2 case CompleteAck => 3;
      assert k / 4 == p && events[k] == NetAct(p, e);
      assert block[numRanks + k] == events[k];
    }
    var blocks := seq(MostSteps(c, numRanks) + 1, _ => block);
    assert FairCall(c, numRanks, blocks);
  }

  /** Progress: a fair run ends with all ranks out of `calc_bw`. */
  lemma FairRunFinishes(c: Config, s: State, blocks: seq<seq<Action>>, actions: seq<Action>, t: State)
    requires Reaches(c, s, actions, t) && actions == Fairness.Flatten(blocks) && FairCall(c, |s.ranks|, blocks)
    ensures AllFinished(t)
  {
    InitialInv(c, s);
    RunIsRun(c, s, actions);
    CallProgress(c, |s.ranks|);
    var y := Call(c, |s.ranks|);
    hide Run, MostSteps, Inv, Measure, AllFinished;
    forall b, a: Action | 0 <= b < |blocks| && y.must(a) ensures a in blocks[b] {
      match a
      case RankAct(r) =>
      case NetAct(p, e) =>
    }
    Fairness.FairRunEnds(y, s, blocks);
  }
}
