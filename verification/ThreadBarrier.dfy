/** The two-slot sense-reversing thread barrier `ct_tbarrier`, one atomic operation per step. */
module ThreadBarrier {
  import opened Multiples
  import opened Totals
  import Fairness

  /** Where a thread is: between calls, or about to do one of the operations of a call. */
  datatype Control = Outside | Reset | Signal | Spin | Flip

  /** The private part of `fabtests_tbar_t`, with the thread's control point and its number of completed calls. */
  datatype Thread = Thread(phase: seq<int>, slot: int, control: Control, calls: nat)

  datatype State = State(counter: seq<int>, signal: seq<int>, threads: seq<Thread>)

  ghost predicate Shape(s: State) {
    && |s.counter| == |s.signal| == 2
    && |s.threads| >= 1
    && forall t :: 0 <= t < |s.threads| ==> |s.threads[t].phase| == 2 && 0 <= s.threads[t].slot < 2
  }

  function FreshThread(): Thread {
    Thread([0, 0], 0, Outside, 0)
  }

  ghost predicate Initial(s: State) {
    && Shape(s)
    && s.counter == [0, 0] && s.signal == [0, 0]
    && forall t :: 0 <= t < |s.threads| ==> s.threads[t] == FreshThread()
  }

  /**
   * One step of thread t, which makes `limit` calls in all. A spinning thread that still sees its old phase
   * stays put.
   */
  function Step(s: State, limit: nat, t: nat): State
    requires Shape(s) && t < |s.threads|
  {
    var th := s.threads[t];
    match th.control
    case Outside =>
      if th.calls < limit then
        var joined := s.counter[th.slot] + 1;
        State(s.counter[th.slot := joined], s.signal,
              s.threads[t := th.(control := if joined == |s.threads| then Reset else Spin)])
      else s
    case Reset =>
      State(s.counter[th.slot := 0], s.signal, s.threads[t := th.(control := Signal)])
    case Signal =>
      State(s.counter, s.signal[th.slot := 1 - th.phase[th.slot]], s.threads[t := th.(control := Flip)])
    case Spin =>
      if s.signal[th.slot] == th.phase[th.slot] then s
      else s.(threads := s.threads[t := th.(control := Flip)])
    case Flip =>
      s.(threads := s.threads[t :=
        Thread(th.phase[th.slot := 1 - th.phase[th.slot]], 1 - th.slot, Outside, th.calls + 1)])
  }

  /** The phase of a slot after k calls: calls alternate between the slots, and each flips its slot. */
  function PhaseAfter(k: nat, slot: int): (p: int)
    ensures 0 <= p <= 1
  {
    if k == 0 then 0
    else if (k - 1) % 2 == slot then 1 - PhaseAfter(k - 1, slot)
    else PhaseAfter(k - 1, slot)
  }

  /** After an even number of calls both slots have been flipped equally often. */
  lemma {:induction false} PhaseAfterTwice(m: nat)
    ensures PhaseAfter(2 * m, 0) == PhaseAfter(2 * m, 1) == m % 2
  {
    if m > 0 {
      PhaseAfterTwice(m - 1);
      assert PhaseAfter(2 * m - 1, 0) == 1 - PhaseAfter(2 * m - 2, 0);
      assert PhaseAfter(2 * m - 1, 1) == PhaseAfter(2 * m - 2, 1);
    }
  }

  predicate Leads(th: Thread) {
    th.control == Reset || th.control == Signal
  }

  /** The thread has entered call number `round` (counted from 0) and not left it. */
  predicate InRound(th: Thread, round: nat) {
    th.calls == round && th.control != Outside
  }

  function CountIn(threads: seq<Thread>, round: nat): nat {
    if |threads| == 0 then 0
    else CountIn(threads[..|threads| - 1], round) + if InRound(threads[|threads| - 1], round) then 1 else 0
  }

  /** A thread is in or before the current round `open`, or still inside the round released last. */
  predicate ThreadInv(th: Thread, open: nat) {
    && th.slot == th.calls % 2
    && |th.phase| == 2
    && th.phase[0] == PhaseAfter(th.calls, 0) && th.phase[1] == PhaseAfter(th.calls, 1)
    && ((th.calls == open && th.control != Flip) ||
        (th.calls + 1 == open && (th.control == Spin || th.control == Flip)))
  }

  /** When a last arriver is at work, everybody else spins in its round. */
  ghost predicate LeaderInv(s: State, open: nat, l: nat)
    requires Shape(s) && l < |s.threads|
  {
    Leads(s.threads[l]) ==>
      && s.counter[open % 2] == (if s.threads[l].control == Reset then |s.threads| else 0)
      && s.threads[l].calls == open
      && forall q :: 0 <= q < |s.threads| && q != l ==> s.threads[q].control == Spin && s.threads[q].calls == open
  }

  ghost predicate NoLeader(s: State) {
    forall t :: 0 <= t < |s.threads| ==> !Leads(s.threads[t])
  }

  /** `open` rounds have been released so far. */
  ghost predicate Inv(s: State, open: nat) {
    && Shape(s)
    && (forall t :: 0 <= t < |s.threads| ==> ThreadInv(s.threads[t], open))
    && s.signal[0] == PhaseAfter(open, 0) && s.signal[1] == PhaseAfter(open, 1)
    && s.counter[1 - open % 2] == 0
    && (forall l :: 0 <= l < |s.threads| ==> LeaderInv(s, open, l))
    && (NoLeader(s) ==> s.counter[open % 2] == CountIn(s.threads, open) < |s.threads|)
  }

  lemma {:induction false} CountNone(threads: seq<Thread>, round: nat)
    requires forall t :: 0 <= t < |threads| ==> !InRound(threads[t], round)
    ensures CountIn(threads, round) == 0
  {
    if |threads| != 0 {
      CountNone(threads[..|threads| - 1], round);
    }
  }

  lemma {:induction false} CountAll(threads: seq<Thread>, round: nat)
    ensures CountIn(threads, round) <= |threads|
    ensures CountIn(threads, round) == |threads| <==> forall t :: 0 <= t < |threads| ==> InRound(threads[t], round)
  {
    if |threads| != 0 {
      CountAll(threads[..|threads| - 1], round);
    }
  }

  lemma {:induction false} CountUpdate(threads: seq<Thread>, round: nat, t: nat, th: Thread)
    requires t < |threads|
    ensures CountIn(threads[t := th], round) ==
            CountIn(threads, round) + (if InRound(th, round) then 1 else 0)
                                    - (if InRound(threads[t], round) then 1 else 0)
  {
    var n := |threads| - 1;
    if t == n {
      assert threads[t := th][..n] == threads[..n];
    } else {
      CountUpdate(threads[..n], round, t, th);
      assert threads[t := th][..n] == threads[..n][t := th];
    }
  }

  lemma InitialInv(s: State)
    requires Initial(s)
    ensures Inv(s, 0)
  {
    CountNone(s.threads, 0);
  }

  /** The number of released rounds after a step: storing the signal releases a round. */
  function OpenAfter(s: State, t: nat, open: nat): nat
    requires t < |s.threads|
  {
    if s.threads[t].control == Signal then open + 1 else open
  }

  /** While some thread has not yet arrived in the open round, there is no last arriver. */
  lemma NobodyLeads(s: State, open: nat, t: nat)
    requires Inv(s, open) && t < |s.threads| && s.threads[t].control == Outside
    ensures NoLeader(s)
  {
    forall l | 0 <= l < |s.threads| ensures !Leads(s.threads[l]) {
      assert LeaderInv(s, open, l);
    }
  }

  /** An arrival that leaves the count short. */
  lemma ArriveEarly(s: State, open: nat, t: nat, u: State)
    requires Inv(s, open) && NoLeader(s) && t < |s.threads| && s.threads[t].control == Outside
    requires s.counter[s.threads[t].slot] + 1 < |s.threads|
    requires u == State(s.counter[s.threads[t].slot := s.counter[s.threads[t].slot] + 1], s.signal,
                        s.threads[t := s.threads[t].(control := Spin)])
    ensures Inv(u, open)
  {
    hide PhaseAfter;
    assert ThreadInv(s.threads[t], open);
    CountUpdate(s.threads, open, t, u.threads[t]);
    hide CountIn;
    assert NoLeader(u);
  }

  /** The arrival that fills the count: everybody else spins in the round. */
  lemma ArriveLast(s: State, open: nat, t: nat, u: State)
    requires Inv(s, open) && NoLeader(s) && t < |s.threads| && s.threads[t].control == Outside
    requires s.counter[s.threads[t].slot] + 1 == |s.threads|
    requires u == State(s.counter[s.threads[t].slot := |s.threads|], s.signal,
                        s.threads[t := s.threads[t].(control := Reset)])
    ensures Inv(u, open)
  {
    hide PhaseAfter;
    assert ThreadInv(s.threads[t], open);
    CountUpdate(s.threads, open, t, u.threads[t]);
    LastArriverLeads(s, open, t, u.threads[t]);
    hide CountIn, NoLeader;
    assert Leads(u.threads[t]);
    assert !NoLeader(u) by { SomebodyLeads(u, t); }
  }

  lemma SomebodyLeads(s: State, t: nat)
    requires t < |s.threads| && Leads(s.threads[t])
    ensures !NoLeader(s)
  {}

  /** When the count is full after an arrival, everybody else spins in the round. */
  lemma LastArriverLeads(s: State, open: nat, t: nat, th: Thread)
    requires Inv(s, open) && NoLeader(s) && t < |s.threads| && InRound(th, open)
    requires CountIn(s.threads[t := th], open) == |s.threads|
    ensures forall q :: 0 <= q < |s.threads| && q != t ==> s.threads[q].control == Spin && s.threads[q].calls == open
  {
    hide PhaseAfter, LeaderInv, CountIn;
    CountAll(s.threads[t := th], open);
    forall q | 0 <= q < |s.threads| && q != t ensures s.threads[q].control == Spin && s.threads[q].calls == open {
      assert InRound(s.threads[t := th][q], open);
      assert ThreadInv(s.threads[q], open) && !Leads(s.threads[q]);
    }
  }

  lemma ArrivePreserves(s: State, open: nat, limit: nat, t: nat)
    requires Inv(s, open) && t < |s.threads| && s.threads[t].control == Outside
    ensures Inv(Step(s, limit, t), open)
  {
    NobodyLeads(s, open, t);
    assert ThreadInv(s.threads[t], open);
    var u := Step(s, limit, t);
    hide ThreadInv, LeaderInv, NoLeader, CountIn;
    if s.threads[t].calls < limit {
      if s.counter[s.threads[t].slot] + 1 == |s.threads| {
        ArriveLast(s, open, t, u);
      } else {
        ArriveEarly(s, open, t, u);
      }
    }
  }

  lemma ResetPreserves(s: State, open: nat, limit: nat, t: nat)
    requires Inv(s, open) && t < |s.threads| && s.threads[t].control == Reset
    ensures Inv(Step(s, limit, t), open)
  {
    hide PhaseAfter;
    var u := Step(s, limit, t);
    assert LeaderInv(s, open, t);
    assert Leads(u.threads[t]);
  }

  lemma ReleaseFlips(open: nat)
    ensures PhaseAfter(open + 1, open % 2) == 1 - PhaseAfter(open, open % 2)
    ensures PhaseAfter(open + 1, 1 - open % 2) == PhaseAfter(open, 1 - open % 2)
    ensures (open + 1) % 2 == 1 - open % 2
  {}

  lemma SignalPreserves(s: State, open: nat, limit: nat, t: nat)
    requires Inv(s, open) && t < |s.threads| && s.threads[t].control == Signal
    ensures Inv(Step(s, limit, t), open + 1)
  {
    hide PhaseAfter;
    var u := Step(s, limit, t);
    assert LeaderInv(s, open, t);
    ReleaseFlips(open);
    CountNone(u.threads, open + 1);
  }

  /** Steps of a thread still inside the released round do not touch the open round. */
  lemma LateStepPreserves(s: State, open: nat, t: nat, th: Thread)
    requires Inv(s, open) && t < |s.threads| && s.threads[t].calls < open
    requires ThreadInv(th, open) && !Leads(th) && !InRound(th, open)
    ensures Inv(s.(threads := s.threads[t := th]), open)
  {
    hide PhaseAfter;
    var u := s.(threads := s.threads[t := th]);
    assert ThreadInv(s.threads[t], open);
    CountUpdate(s.threads, open, t, th);
    forall l | 0 <= l < |u.threads| ensures LeaderInv(u, open, l) {
      assert LeaderInv(s, open, l);
    }
    assert NoLeader(u) ==> NoLeader(s) by {
      assert forall l :: 0 <= l < |u.threads| ==> Leads(u.threads[l]) == Leads(s.threads[l]);
    }
  }

  lemma SpinPreserves(s: State, open: nat, limit: nat, t: nat)
    requires Inv(s, open) && t < |s.threads| && s.threads[t].control == Spin
    ensures Inv(Step(s, limit, t), open)
  {
    hide PhaseAfter;
    var u := Step(s, limit, t);
    if u != s {
      SpinSeesRelease(s, open, t);
      LateStepPreserves(s, open, t, u.threads[t]);
    }
  }

  /** A waiter sees the flip of its slot exactly when its round has been released: no flip is missed, none is early. */
  lemma SpinSeesRelease(s: State, open: nat, t: nat)
    requires Inv(s, open) && t < |s.threads| && s.threads[t].control == Spin
    ensures s.signal[s.threads[t].slot] != s.threads[t].phase[s.threads[t].slot] <==> s.threads[t].calls < open
  {
    var th := s.threads[t];
    assert ThreadInv(th, open);
    if th.calls < open {
      ReleaseFlips(th.calls);
    }
  }

  lemma FlipPreserves(s: State, open: nat, limit: nat, t: nat)
    requires Inv(s, open) && t < |s.threads| && s.threads[t].control == Flip
    ensures Inv(Step(s, limit, t), open)
  {
    hide PhaseAfter;
    var u := Step(s, limit, t);
    assert ThreadInv(s.threads[t], open);
    ReleaseFlips(s.threads[t].calls);
    LateStepPreserves(s, open, t, u.threads[t]);
  }

  /** Every step of every thread keeps the invariant. */
  lemma StepPreserves(s: State, open: nat, limit: nat, t: nat)
    requires Inv(s, open) && t < |s.threads|
    ensures Inv(Step(s, limit, t), OpenAfter(s, t, open))
  {
    match s.threads[t].control
    case Outside => ArrivePreserves(s, open, limit, t);
    case Reset => ResetPreserves(s, open, limit, t);
    case Signal => SignalPreserves(s, open, limit, t);
    case Spin => SpinPreserves(s, open, limit, t);
    case Flip => FlipPreserves(s, open, limit, t);
  }

  /** A run: the state, the number of rounds released, and the number of times a thread arrived last. */
  datatype Trace = Trace(state: State, open: nat, elected: nat)

  ghost predicate TraceInv(tr: Trace) {
    && Inv(tr.state, tr.open)
    && tr.elected == tr.open + if NoLeader(tr.state) then 0 else 1
  }

  function NextTrace(tr: Trace, limit: nat, t: nat): (next: Trace)
    requires Shape(tr.state) && t < |tr.state.threads|
    ensures |next.state.threads| == |tr.state.threads|
  {
    var u := Step(tr.state, limit, t);
    Trace(u, OpenAfter(tr.state, t, tr.open),
          tr.elected + if tr.state.threads[t].control == Outside && u.threads[t].control == Reset then 1 else 0)
  }

  /** Exactly one thread per round takes the last-arriver branch. */
  lemma ElectionPreserves(tr: Trace, limit: nat, t: nat)
    requires TraceInv(tr) && t < |tr.state.threads|
    ensures TraceInv(NextTrace(tr, limit, t))
  {
    hide PhaseAfter, CountIn;
    var s := tr.state;
    var u := Step(s, limit, t);
    StepPreserves(s, tr.open, limit, t);
    assert LeaderInv(s, tr.open, t);
    if s.threads[t].control == Outside {
      assert NoLeader(s) by {
        forall l | 0 <= l < |s.threads| ensures !Leads(s.threads[l]) {
          assert LeaderInv(s, tr.open, l);
        }
      }
      assert u != s && Leads(u.threads[t]) ==> !NoLeader(u);
    } else if s.threads[t].control == Signal {
      assert !NoLeader(s);
      assert NoLeader(u);
    } else {
      assert Leads(u.threads[t]) == Leads(s.threads[t]);
      assert forall l :: 0 <= l < |u.threads| ==> Leads(u.threads[l]) == Leads(s.threads[l]);
      assert NoLeader(u) == NoLeader(s);
    }
  }

  /** The trace after a schedule, which names the thread to step at each point. */
  ghost function Run(tr: Trace, limit: nat, schedule: seq<nat>): (r: Trace)
    requires TraceInv(tr)
    requires forall k :: 0 <= k < |schedule| ==> schedule[k] < |tr.state.threads|
    ensures TraceInv(r) && |r.state.threads| == |tr.state.threads|
  {
    if |schedule| == 0 then tr
    else
      var n := |schedule| - 1;
      var before := Run(tr, limit, schedule[..n]);
      ElectionPreserves(before, limit, schedule[n]);
      NextTrace(before, limit, schedule[n])
  }

  /** The number of calls a thread has entered. */
  function Entered(th: Thread): nat {
    th.calls + if th.control == Outside then 0 else 1
  }

  /** A run from freshly initialised threads. */
  ghost predicate Reaches(s: State, limit: nat, schedule: seq<nat>, tr: Trace) {
    && Initial(s)
    && (forall k :: 0 <= k < |schedule| ==> schedule[k] < |s.threads|)
    && (InitialInv(s); tr == Run(Trace(s, 0, 0), limit, schedule))
  }

  /** Barrier safety: in every run no thread has left its k-th call unless every thread has entered its k-th call. */
  lemma BarrierSafety(s: State, limit: nat, schedule: seq<nat>, tr: Trace, t: nat, u: nat)
    requires Reaches(s, limit, schedule, tr) && t < |s.threads| && u < |s.threads|
    ensures |tr.state.threads| == |s.threads|
    ensures tr.state.threads[t].calls <= Entered(tr.state.threads[u])
    ensures tr.state.threads[t].calls <= tr.state.threads[u].calls + 1
  {
    InitialInv(s);
    hide Run, LeaderInv, PhaseAfter;
    assert ThreadInv(tr.state.threads[t], tr.open);
    assert ThreadInv(tr.state.threads[u], tr.open);
  }

  /**
   * One last arriver per round: a round that some thread has completed had its election, and a round that some thread
   * has not entered has had none.
   */
  lemma ElectedOncePerRound(s: State, limit: nat, schedule: seq<nat>, tr: Trace, t: nat)
    requires Reaches(s, limit, schedule, tr) && t < |s.threads|
    ensures |tr.state.threads| == |s.threads|
    ensures tr.state.threads[t].calls <= tr.elected <= Entered(tr.state.threads[t])
  {
    InitialInv(s);
    hide Run, PhaseAfter, CountIn;
    assert ThreadInv(tr.state.threads[t], tr.open);
    if l: nat :| l < |s.threads| && Leads(tr.state.threads[l]) {
      assert LeaderInv(tr.state, tr.open, l);
    }
  }

  /** The reset discards exactly the arrivals of its own round: the count is full, and nobody is in another round. */
  lemma ResetLosesNothing(s: State, open: nat, t: nat)
    requires Inv(s, open) && t < |s.threads| && s.threads[t].control == Reset
    ensures s.counter[s.threads[t].slot] == |s.threads|
    ensures forall u :: 0 <= u < |s.threads| ==> InRound(s.threads[u], s.threads[t].calls)
  {
    assert LeaderInv(s, open, t);
    assert ThreadInv(s.threads[t], open);
  }

  predicate Enabled(s: State, limit: nat, t: nat)
    requires Shape(s) && t < |s.threads|
  {
    Step(s, limit, t) != s
  }

  predicate DoneCalls(th: Thread, limit: nat) {
    th.control == Outside && th.calls == limit
  }

  /** No thread makes more than `limit` calls. */
  ghost predicate WithinLimit(s: State, limit: nat) {
    forall t :: 0 <= t < |s.threads| ==> s.threads[t].calls < limit || DoneCalls(s.threads[t], limit)
  }

  /** No deadlock: while a thread has calls left or is inside one, some step changes the state. */
  lemma SomeThreadEnabled(s: State, open: nat, limit: nat)
    requires Inv(s, open) && WithinLimit(s, limit)
    requires exists t :: 0 <= t < |s.threads| && !DoneCalls(s.threads[t], limit)
    ensures exists t: nat :: t < |s.threads| && Enabled(s, limit, t)
  {
    hide PhaseAfter;
    if t: nat :| t < |s.threads| && s.threads[t].control == Outside && s.threads[t].calls < limit {
      assert Enabled(s, limit, t);
    } else if t: nat :| t < |s.threads| && s.threads[t].control != Outside && s.threads[t].control != Spin {
      assert Enabled(s, limit, t) by {
        assert s.threads[t] != Step(s, limit, t).threads[t];
      }
    } else if t: nat :| t < |s.threads| && s.threads[t].control == Spin && s.threads[t].calls < open {
      SpinSeesRelease(s, open, t);
      assert s.threads[t] != Step(s, limit, t).threads[t];
      assert Enabled(s, limit, t);
    } else {
      AllSpinning(s, open, limit);
      assert false;
    }
  }

  /** A state in which every unfinished thread spins in an unreleased round cannot arise. */
  lemma AllSpinning(s: State, open: nat, limit: nat)
    requires Inv(s, open) && WithinLimit(s, limit)
    requires forall t :: 0 <= t < |s.threads| ==>
               DoneCalls(s.threads[t], limit) ||
               (s.threads[t].control == Spin && s.threads[t].calls >= open)
    ensures forall t :: 0 <= t < |s.threads| ==> DoneCalls(s.threads[t], limit)
  {
    hide PhaseAfter;
    assert NoLeader(s);
    CountAll(s.threads, open);
    var u: nat :| u < |s.threads| && !InRound(s.threads[u], open);
    assert ThreadInv(s.threads[u], open);
    forall t | 0 <= t < |s.threads| ensures DoneCalls(s.threads[t], limit) {
      assert ThreadInv(s.threads[t], open);
    }
  }

  function StepsDone(th: Thread): nat {
    5 * th.calls +
    match th.control
    case Outside => 0
    case Reset => 1
    case Signal => 2
    case Spin => 2
    case Flip => 3
  }

  function Steps(threads: seq<Thread>): (s: seq<nat>)
    ensures |s| == |threads| && forall t :: 0 <= t < |threads| ==> s[t] == StepsDone(threads[t])
  {
    seq(|threads|, t requires 0 <= t < |threads| => StepsDone(threads[t]))
  }

  function TotalSteps(threads: seq<Thread>): nat {
    Sum(Steps(threads))
  }

  lemma TotalStepsUpdate(threads: seq<Thread>, t: nat, th: Thread)
    requires t < |threads|
    ensures TotalSteps(threads[t := th]) == TotalSteps(threads) + StepsDone(th) - StepsDone(threads[t])
  {
    hide StepsDone;
    assert Steps(threads[t := th]) == Steps(threads)[t := StepsDone(th)];
    SumUpdate(Steps(threads), t, StepsDone(th));
  }

  /** Progress: every step that changes the state moves its thread forward. */
  lemma StepAdvances(s: State, limit: nat, t: nat)
    requires Shape(s) && t < |s.threads| && WithinLimit(s, limit)
    ensures WithinLimit(Step(s, limit, t), limit)
    ensures Enabled(s, limit, t) ==> TotalSteps(Step(s, limit, t).threads) > TotalSteps(s.threads)
  {
    var u := Step(s, limit, t);
    if u != s {
      TotalStepsUpdate(s.threads, t, u.threads[t]);
    }
  }

  predicate AllDone(s: State, limit: nat) {
    forall t :: 0 <= t < |s.threads| ==> DoneCalls(s.threads[t], limit)
  }

  /** The runs of n threads that make `limit` calls each, as a system in which every thread must be scheduled. */
  ghost function Calls(n: nat, limit: nat): Fairness.System<Trace, nat> {
    Fairness.System(
      (tr: Trace, t: nat) => if Shape(tr.state) && t < |tr.state.threads| then NextTrace(tr, limit, t) else tr,
      (tr: Trace) => TraceInv(tr) && |tr.state.threads| == n && WithinLimit(tr.state, limit),
      (tr: Trace) => TotalSteps(tr.state.threads),
      Times(n, 5 * limit),
      t => t < n,
      (tr: Trace) => AllDone(tr.state, limit))
  }

  /** A step that refuses to move its thread leaves the whole trace as it is. */
  lemma RefusedStep(tr: Trace, limit: nat, t: nat)
    requires Shape(tr.state) && t < |tr.state.threads| && !Enabled(tr.state, limit, t)
    ensures NextTrace(tr, limit, t) == tr
  {
    assert Step(tr.state, limit, t).threads[t] == tr.state.threads[t];
  }

  lemma CallsProgress(n: nat, limit: nat)
    ensures Fairness.Progressive(Calls(n, limit)) && Fairness.Live(Calls(n, limit))
  {
    hide TraceInv, WithinLimit, TotalSteps, Step, DoneCalls;
    var y := Calls(n, limit);
    forall tr: Trace, t: nat | y.inv(tr)
      ensures y.inv(y.next(tr, t)) && (y.next(tr, t) != tr ==> y.measure(y.next(tr, t)) > y.measure(tr))
      ensures y.done(tr) ==> y.done(y.next(tr, t))
    {
      InvShape(tr);
      if t < n {
        ElectionPreserves(tr, limit, t);
        StepAdvances(tr.state, limit, t);
        if !Enabled(tr.state, limit, t) {
          RefusedStep(tr, limit, t);
        }
        if y.done(tr) {
          DoneRefuses(tr.state, limit, t);
        }
      }
    }
    forall tr: Trace | y.inv(tr) ensures y.measure(tr) <= y.bound {
      StepsBounded(tr.state, limit);
    }
    forall tr: Trace | y.inv(tr) && !y.done(tr) ensures exists t :: y.must(t) && y.next(tr, t) != tr {
      InvShape(tr);
      var t := SomeEnabled(tr, limit);
      assert y.must(t) && y.next(tr, t) != tr;
    }
  }

  lemma InvShape(tr: Trace)
    requires TraceInv(tr)
    ensures Shape(tr.state)
  {}

  lemma DoneRefuses(s: State, limit: nat, t: nat)
    requires Shape(s) && t < |s.threads| && AllDone(s, limit)
    ensures !Enabled(s, limit, t)
  {
    assert DoneCalls(s.threads[t], limit);
  }

  lemma StepsBounded(s: State, limit: nat)
    requires WithinLimit(s, limit)
    ensures TotalSteps(s.threads) <= Times(|s.threads|, 5 * limit)
  {
    forall t | 0 <= t < |s.threads| ensures Steps(s.threads)[t] <= 5 * limit {
      assert s.threads[t].calls < limit || DoneCalls(s.threads[t], limit);
    }
    SumBound(Steps(s.threads), 5 * limit);
  }

  lemma SomeEnabled(tr: Trace, limit: nat) returns (t: nat)
    requires TraceInv(tr) && WithinLimit(tr.state, limit) && !AllDone(tr.state, limit)
    ensures t < |tr.state.threads| && Enabled(tr.state, limit, t) && NextTrace(tr, limit, t) != tr
  {
    SomeThreadEnabled(tr.state, tr.open, limit);
    t :| t < |tr.state.threads| && Enabled(tr.state, limit, t);
  }

  lemma {:induction false} RunIsRun(tr: Trace, limit: nat, schedule: seq<nat>)
    requires TraceInv(tr)
    requires forall k :: 0 <= k < |schedule| ==> schedule[k] < |tr.state.threads|
    ensures Run(tr, limit, schedule) == Fairness.Run(Calls(|tr.state.threads|, limit), tr, schedule)
  {
    hide NextTrace, TraceInv;
    if |schedule| > 0 {
      RunIsRun(tr, limit, schedule[..|schedule| - 1]);
      InvShape(Run(tr, limit, schedule[..|schedule| - 1]));
    }
  }

  /** Termination: from the initial state only boundedly many steps of any schedule change the state. */
  lemma RunEnds(s: State, limit: nat, schedule: seq<nat>, tr: Trace)
    requires Reaches(s, limit, schedule, tr)
    ensures
      var y := Calls(|s.threads|, limit);
      && tr == Fairness.Run(y, Trace(s, 0, 0), schedule)
      && Fairness.Effective(y, Trace(s, 0, 0), schedule) <= Times(|s.threads|, 5 * limit)
  {
    InitialInv(s);
    var start := Trace(s, 0, 0);
    RunIsRun(start, limit, schedule);
    CallsProgress(|s.threads|, limit);
    hide Run;
    Fairness.EffectiveBounded(Calls(|s.threads|, limit), start, schedule);
  }

  /**
   * Progress: when no thread is starved all threads finish their calls. A schedule of blocks that each name every
   * thread completes every call of every thread once there are more blocks than steps to be made.
   */
  lemma FairRunFinishes(tr: Trace, limit: nat, blocks: seq<seq<nat>>, schedule: seq<nat>)
    requires TraceInv(tr) && WithinLimit(tr.state, limit) && schedule == Fairness.Flatten(blocks)
    requires forall k :: 0 <= k < |schedule| ==> schedule[k] < |tr.state.threads|
    requires forall b, t :: 0 <= b < |blocks| && 0 <= t < |tr.state.threads| ==> t in blocks[b]
    requires |blocks| > Times(|tr.state.threads|, 5 * limit)
    ensures AllDone(Run(tr, limit, schedule).state, limit)
  {
    hide Run, TraceInv, WithinLimit;
    var n := |tr.state.threads|;
    RunIsRun(tr, limit, schedule);
    CallsProgress(n, limit);
    Fairness.FairRunEnds(Calls(n, limit), tr, blocks);
  }

  /** So, from freshly initialised threads, every fair run of `limit` calls ends. */
  lemma FairRunEnds(s: State, limit: nat, blocks: seq<seq<nat>>, schedule: seq<nat>, tr: Trace)
    requires Reaches(s, limit, schedule, tr) && schedule == Fairness.Flatten(blocks)
    requires forall b, t :: 0 <= b < |blocks| && 0 <= t < |s.threads| ==> t in blocks[b]
    requires |blocks| > Times(|s.threads|, 5 * limit)
    ensures |tr.state.threads| == |s.threads| && AllDone(tr.state, limit)
  {
    InitialInv(s);
    hide Run, Inv;
    FairRunFinishes(Trace(s, 0, 0), limit, blocks, schedule);
  }

  /** When all threads have made k calls, k rounds have been released and the shared words depend on k alone. */
  lemma StateAfterCalls(s: State, open: nat, k: nat)
    requires Inv(s, open)
    requires forall t :: 0 <= t < |s.threads| ==> DoneCalls(s.threads[t], k)
    ensures open == k
    ensures s.counter == [0, 0]
    ensures s.signal == [PhaseAfter(k, 0), PhaseAfter(k, 1)]
    ensures forall t :: 0 <= t < |s.threads| ==>
              s.threads[t].slot == k % 2 && s.threads[t].phase == [PhaseAfter(k, 0), PhaseAfter(k, 1)]
  {
    hide PhaseAfter;
    assert ThreadInv(s.threads[0], open);
    assert NoLeader(s);
    CountNone(s.threads, open);
    forall t | 0 <= t < |s.threads|
      ensures s.threads[t].slot == k % 2 && s.threads[t].phase == [PhaseAfter(k, 0), PhaseAfter(k, 1)]
    {
      assert ThreadInv(s.threads[t], open);
    }
  }

  /**
   * Reuse: `thread_fn` makes two calls per spawn, so after m spawns every thread is back at slot 0 and all
   * phases and signals are m mod 2.
   */
  lemma StateAfterSpawns(s: State, open: nat, m: nat)
    requires Inv(s, open)
    requires forall t :: 0 <= t < |s.threads| ==> DoneCalls(s.threads[t], 2 * m)
    ensures s.counter == [0, 0] && s.signal == [m % 2, m % 2]
    ensures forall t :: 0 <= t < |s.threads| ==> s.threads[t].slot == 0 && s.threads[t].phase == [m % 2, m % 2]
    ensures WithinLimit(s, 2 * (m + 1))
  {
    StateAfterCalls(s, open, 2 * m);
    PhaseAfterTwice(m);
  }
}
