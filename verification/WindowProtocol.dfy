/** The bandwidth test `calc_bw`: sender and receiver pairs with one acknowledgement per window, and idle ranks. */
module WindowProtocol {
  import opened Multiples

  datatype Transfer = SendRecv | SendvRecvv | SendRecvv | SendvRecv

  /** Parameters of one call: ranks 0..pairs-1 send, pairs..2*pairs-1 receive, the others are idle. */
  datatype Config = Config(transfer: Transfer, window: nat, iovCnt: nat, loop: nat, skip: nat, pairs: nat, counting: bool) {
    ghost predicate Valid() {
      window >= 1 && iovCnt >= 1 && loop >= 1
    }

    /** Operations posted and awaited per window, on either side. */
    function PerWindow(): (m: nat)
      ensures Valid() ==> m >= 1
    {
      if transfer == SendRecv then Times(window, iovCnt) else window
    }

    function Iterations(): nat {
      loop + skip
    }
  }

  /** Top: head of the iteration loop, or before the first barrier. */
  datatype Stage = Top | AtBarrier | Posting | WaitData | PostAck | WaitAck | Finished

  /** One rank: its iteration, operations posted or completions still awaited, unread completions, barriers entered. */
  datatype Side = Side(iter: nat, stage: Stage, count: nat, send: nat, recv: nat, barriers: nat)

  /** The traffic of a pair so far, in order; ack counts run from receiver to sender. */
  datatype Net = Net(
    sent: nat, posted: nat, matched: nat, sendDone: nat,
    ackSent: nat, ackPosted: nat, ackMatched: nat, ackDone: nat)

  datatype State = State(ranks: seq<Side>, nets: seq<Net>)

  ghost predicate Shape(c: Config, s: State) {
    |s.nets| == c.pairs && |s.ranks| >= 2 * c.pairs
  }

  predicate BarrierOpen(s: State, n: nat) {
    forall q :: 0 <= q < |s.ranks| ==> s.ranks[q].barriers >= n
  }

  /** The head of the loop: the first barrier, the end, the barrier after the warm-up, or the next window. */
  function FromTop(c: Config, x: Side): Side {
    if x.barriers == 0 then x.(barriers := 1, stage := AtBarrier)
    else if x.iter == c.Iterations() then x.(stage := Finished)
    else if x.iter == c.skip && x.barriers == 1 then x.(barriers := 2, stage := AtBarrier)
    else x.(stage := Posting, count := 0)
  }

  /**
   * `wait_for_comp` on a counter that holds `have` completions, `left` of them still awaited, then the reset of
   * a counter.
   */
  datatype Waited = Waited(have: nat, left: nat, done: bool)

  function WaitStep(counting: bool, have: nat, left: nat): Waited {
    if counting then
      if have >= left then Waited(0, 0, true) else Waited(have, left, false)
    else if left == 0 then Waited(have, 0, true)
    else if have > 0 then Waited(have - 1, left - 1, false)
    else Waited(have, left, false)
  }

  function NextIteration(x: Side): Side {
    x.(iter := x.iter + 1, stage := Top)
  }

  /** One step of a sending rank. */
  function SenderStep(c: Config, open: bool, x: Side, n: Net): (Side, Net) {
    match x.stage
    case Top => (FromTop(c, x), n)
    case AtBarrier => (if open then x.(stage := Top) else x, n)
    case Posting =>
      if x.count < c.PerWindow() then (x.(count := x.count + 1), n.(sent := n.sent + 1))
      else (x.(stage := WaitData), n)
    case WaitData =>
      var w := WaitStep(c.counting, x.send, x.count);
      (if w.done then x.(send := w.have, stage := PostAck, count := 0) else x.(send := w.have, count := w.left), n)
    case PostAck => (x.(stage := WaitAck, count := 1), n.(ackPosted := n.ackPosted + 1))
    case WaitAck =>
      var w := WaitStep(c.counting, x.recv, x.count);
      (if w.done then NextIteration(x.(recv := w.have)) else x.(recv := w.have, count := w.left), n)
    case Finished => (x, n)
  }

  /** One step of a receiving rank. */
  function ReceiverStep(c: Config, open: bool, x: Side, n: Net): (Side, Net) {
    match x.stage
    case Top => (FromTop(c, x), n)
    case AtBarrier => (if open then x.(stage := Top) else x, n)
    case Posting =>
      if x.count < c.PerWindow() then (x.(count := x.count + 1), n.(posted := n.posted + 1))
      else (x.(stage := WaitData), n)
    case WaitData =>
      var w := WaitStep(c.counting, x.recv, x.count);
      (if w.done then x.(recv := w.have, stage := PostAck, count := 0) else x.(recv := w.have, count := w.left), n)
    case PostAck => (x.(stage := WaitAck, count := 1), n.(ackSent := n.ackSent + 1))
    case WaitAck =>
      var w := WaitStep(c.counting, x.send, x.count);
      (if w.done then NextIteration(x.(send := w.have)) else x.(send := w.have, count := w.left), n)
    case Finished => (x, n)
  }

  /** One step of a rank outside all pairs: its two barriers. */
  function IdleStep(open: bool, x: Side): Side {
    match x.stage
    case Top => if x.barriers < 2 then x.(barriers := x.barriers + 1, stage := AtBarrier) else x.(stage := Finished)
    case AtBarrier => if open then x.(stage := Top) else x
    case _ => x
  }

  /**
   * What the network may do for a pair: match the oldest message with the oldest receive, or complete a send,
   * before or after its match.
   */
  datatype Event = MatchData | CompleteData | MatchAck | CompleteAck

  function NetStep(e: Event, snd: Side, rcv: Side, n: Net): (Side, Side, Net) {
    match e
    case MatchData =>
      if n.matched < n.sent && n.matched < n.posted then
        (snd, rcv.(recv := rcv.recv + 1), n.(matched := n.matched + 1))
      else (snd, rcv, n)
    case CompleteData =>
      if n.sendDone < n.sent then (snd.(send := snd.send + 1), rcv, n.(sendDone := n.sendDone + 1))
      else (snd, rcv, n)
    case MatchAck =>
      if n.ackMatched < n.ackSent && n.ackMatched < n.ackPosted then
        (snd.(recv := snd.recv + 1), rcv, n.(ackMatched := n.ackMatched + 1))
      else (snd, rcv, n)
    case CompleteAck =>
      if n.ackDone < n.ackSent then (snd, rcv.(send := rcv.send + 1), n.(ackDone := n.ackDone + 1))
      else (snd, rcv, n)
  }

  datatype Action = RankAct(rank: nat) | NetAct(pair: nat, event: Event)

  predicate Legal(c: Config, s: State, a: Action) {
    match a
    case RankAct(r) => r < |s.ranks|
    case NetAct(p, _) => p < c.pairs
  }

  function Next(c: Config, s: State, a: Action): State
    requires Shape(c, s) && Legal(c, s, a)
  {
    match a
    case RankAct(r) =>
      var x := s.ranks[r];
      var open := BarrierOpen(s, x.barriers);
      if r < c.pairs then
        var (y, n) := SenderStep(c, open, x, s.nets[r]);
        State(s.ranks[r := y], s.nets[r := n])
      else if r < 2 * c.pairs then
        var (y, n) := ReceiverStep(c, open, x, s.nets[r - c.pairs]);
        State(s.ranks[r := y], s.nets[r - c.pairs := n])
      else s.(ranks := s.ranks[r := IdleStep(open, x)])
    case NetAct(p, e) =>
      var (snd, rcv, n) := NetStep(e, s.ranks[p], s.ranks[p + c.pairs], s.nets[p]);
      State(s.ranks[p := snd][p + c.pairs := rcv], s.nets[p := n])
  }

  ghost predicate Initial(c: Config, s: State) {
    && Shape(c, s)
    && (forall r :: 0 <= r < |s.ranks| ==> s.ranks[r] == Side(0, Top, 0, 0, 0, 0))
    && (forall p :: 0 <= p < c.pairs ==> s.nets[p] == Net(0, 0, 0, 0, 0, 0, 0, 0))
  }

  /** Operations of the current window posted so far. */
  function PostedHere(c: Config, x: Side): nat {
    match x.stage
    case Posting => x.count
    case WaitData => c.PerWindow()
    case PostAck => c.PerWindow()
    case WaitAck => c.PerWindow()
    case _ => 0
  }

  /** Data completions of the current window consumed so far. */
  function ConsumedHere(c: Config, x: Side): int {
    match x.stage
    case WaitData => c.PerWindow() - x.count
    case PostAck => c.PerWindow()
    case WaitAck => c.PerWindow()
    case _ => 0
  }

  function AckPostedHere(x: Side): nat {
    if x.stage == WaitAck then 1 else 0
  }

  function AckConsumedHere(x: Side): int {
    if x.stage == WaitAck then 1 - x.count else 0
  }

  /** The control part of a working rank's invariant: where it may be, given the barriers it has entered. */
  predicate Control(c: Config, x: Side) {
    && x.iter <= c.Iterations()
    && x.barriers <= 2
    && (x.barriers == 0 ==> x.iter == 0 && x.stage == Top)
    && (x.barriers == 1 ==> x.iter < c.skip || (x.iter == c.skip && (x.stage == Top || x.stage == AtBarrier)))
    && (x.barriers == 1 && x.stage == AtBarrier ==> x.iter == 0)
    && (x.barriers == 2 ==> x.iter >= c.skip && (x.stage == AtBarrier ==> x.iter == c.skip))
    && (x.iter == c.Iterations() ==> x.stage == Top || x.stage == Finished)
    && (x.stage == Finished ==> x.iter == c.Iterations() && x.barriers == 2)
    && (x.stage == Posting ==> x.count <= c.PerWindow())
    && (x.stage == WaitData ==> x.count <= c.PerWindow() && (c.counting ==> x.count == c.PerWindow()))
    && (x.stage == WaitAck ==> x.count <= 1 && (c.counting ==> x.count == 1))
  }

  /** What a sender has posted and consumed accounts for its side of the traffic. */
  predicate SenderBooks(c: Config, snd: Side, n: Net) {
    && n.sent == Times(snd.iter, c.PerWindow()) + PostedHere(c, snd)
    && n.sendDone == Times(snd.iter, c.PerWindow()) + ConsumedHere(c, snd) + snd.send
    && n.ackPosted == snd.iter + AckPostedHere(snd)
    && n.ackMatched == snd.iter + AckConsumedHere(snd) + snd.recv
  }

  predicate ReceiverBooks(c: Config, rcv: Side, n: Net) {
    && n.posted == Times(rcv.iter, c.PerWindow()) + PostedHere(c, rcv)
    && n.matched == Times(rcv.iter, c.PerWindow()) + ConsumedHere(c, rcv) + rcv.recv
    && n.ackSent == rcv.iter + AckPostedHere(rcv)
    && n.ackDone == rcv.iter + AckConsumedHere(rcv) + rcv.send
  }

  predicate NetBounds(n: Net) {
    && n.matched <= n.sent && n.matched <= n.posted && n.sendDone <= n.sent
    && n.ackMatched <= n.ackSent && n.ackMatched <= n.ackPosted && n.ackDone <= n.ackSent
  }

  /** The books of a pair balance. */
  predicate PairInv(c: Config, snd: Side, rcv: Side, n: Net) {
    && Control(c, snd) && Control(c, rcv)
    && SenderBooks(c, snd, n) && ReceiverBooks(c, rcv, n)
    && NetBounds(n)
  }

  predicate IdleInv(x: Side) {
    && x.barriers <= 2
    && (x.stage == Top || x.stage == AtBarrier || x.stage == Finished)
    && (x.barriers == 0 ==> x.stage == Top)
    && (x.stage == Finished ==> x.barriers == 2)
  }

  /** Barriers left. */
  function Passed(x: Side): nat {
    if x.stage == AtBarrier && x.barriers > 0 then x.barriers - 1 else x.barriers
  }

  predicate BarrierSafe(x: Side, y: Side) {
    y.barriers >= Passed(x)
  }

  ghost predicate Inv(c: Config, s: State) {
    && c.Valid() && Shape(c, s)
    && (forall p :: 0 <= p < c.pairs ==> PairInv(c, s.ranks[p], s.ranks[p + c.pairs], s.nets[p]))
    && (forall r :: 2 * c.pairs <= r < |s.ranks| ==> IdleInv(s.ranks[r]))
    && (forall x, y :: 0 <= x < |s.ranks| && 0 <= y < |s.ranks| ==> BarrierSafe(s.ranks[x], s.ranks[y]))
  }

  lemma InitialInv(c: Config, s: State)
    requires c.Valid() && Initial(c, s)
    ensures Inv(c, s)
  {}

  lemma TopControl(c: Config, x: Side)
    requires c.Valid() && Control(c, x) && x.stage == Top
    ensures Control(c, FromTop(c, x)) && PostedHere(c, FromTop(c, x)) == 0 && ConsumedHere(c, FromTop(c, x)) == 0
  {}

  lemma SenderControl(c: Config, open: bool, snd: Side, n: Net)
    requires c.Valid() && Control(c, snd)
    ensures Control(c, SenderStep(c, open, snd, n).0)
  {
    hide Times, c.PerWindow;
  }

  lemma ReceiverControl(c: Config, open: bool, rcv: Side, n: Net)
    requires c.Valid() && Control(c, rcv)
    ensures Control(c, ReceiverStep(c, open, rcv, n).0)
  {
    hide Times, c.PerWindow;
  }

  /** A sender's step keeps its books. In particular a counter that is reset held exactly what was awaited. */
  lemma SenderKeepsBooks(c: Config, open: bool, snd: Side, n: Net)
    requires c.Valid() && Control(c, snd) && SenderBooks(c, snd, n) && NetBounds(n)
    ensures
      var (x, t) := SenderStep(c, open, snd, n);
      && SenderBooks(c, x, t) && NetBounds(t)
      && t == n.(sent := t.sent, ackPosted := t.ackPosted)
  {
    hide c.PerWindow;
    if snd.stage == Top {
      TopControl(c, snd);
      hide FromTop;
    }
  }

  lemma ReceiverKeepsBooks(c: Config, open: bool, rcv: Side, n: Net)
    requires c.Valid() && Control(c, rcv) && ReceiverBooks(c, rcv, n) && NetBounds(n)
    ensures
      var (x, t) := ReceiverStep(c, open, rcv, n);
      && ReceiverBooks(c, x, t) && NetBounds(t)
      && t == n.(posted := t.posted, ackSent := t.ackSent)
  {
    hide c.PerWindow;
    if rcv.stage == Top {
      TopControl(c, rcv);
      hide FromTop;
    }
  }

  lemma SenderKeepsPair(c: Config, open: bool, snd: Side, rcv: Side, n: Net)
    requires c.Valid() && PairInv(c, snd, rcv, n)
    ensures
      var (x, t) := SenderStep(c, open, snd, n);
      PairInv(c, x, rcv, t)
  {
    hide SenderStep, Control, SenderBooks;
    SenderControl(c, open, snd, n);
    SenderKeepsBooks(c, open, snd, n);
  }

  lemma ReceiverKeepsPair(c: Config, open: bool, snd: Side, rcv: Side, n: Net)
    requires c.Valid() && PairInv(c, snd, rcv, n)
    ensures
      var (x, t) := ReceiverStep(c, open, rcv, n);
      PairInv(c, snd, x, t)
  {
    hide ReceiverStep, Control, ReceiverBooks;
    ReceiverControl(c, open, rcv, n);
    ReceiverKeepsBooks(c, open, rcv, n);
  }

  lemma NetKeepsPair(c: Config, e: Event, snd: Side, rcv: Side, n: Net)
    requires c.Valid() && PairInv(c, snd, rcv, n)
    ensures
      var (x, y, t) := NetStep(e, snd, rcv, n);
      PairInv(c, x, y, t) && Passed(x) == Passed(snd) && Passed(y) == Passed(rcv)
      && x.barriers == snd.barriers && y.barriers == rcv.barriers
  {
    hide Times, c.PerWindow;
  }

  /** A step leaves a barrier only if it is open. */
  predicate BarrierStep(open: bool, x: Side, y: Side) {
    y.barriers >= x.barriers && (Passed(y) == Passed(x) || (open && Passed(y) == x.barriers))
  }

  lemma SenderBarrier(c: Config, open: bool, x: Side, n: Net)
    requires Control(c, x)
    ensures BarrierStep(open, x, SenderStep(c, open, x, n).0)
    ensures BarrierStep(open, x, ReceiverStep(c, open, x, n).0)
  {
    hide Times, c.PerWindow;
  }

  lemma IdleBarrier(open: bool, x: Side)
    requires IdleInv(x)
    ensures BarrierStep(open, x, IdleStep(open, x)) && IdleInv(IdleStep(open, x))
  {}

  lemma RankBarrier(c: Config, s: State, r: nat)
    requires Inv(c, s) && r < |s.ranks|
    ensures
      var t := Next(c, s, RankAct(r));
      && |t.ranks| == |s.ranks|
      && BarrierStep(BarrierOpen(s, s.ranks[r].barriers), s.ranks[r], t.ranks[r])
      && forall q :: 0 <= q < |s.ranks| && q != r ==> t.ranks[q] == s.ranks[q]
  {
    hide SenderStep, ReceiverStep, IdleStep, BarrierStep, Control, SenderBooks, ReceiverBooks;
    var open := BarrierOpen(s, s.ranks[r].barriers);
    if r < c.pairs {
      assert PairInv(c, s.ranks[r], s.ranks[r + c.pairs], s.nets[r]);
      SenderBarrier(c, open, s.ranks[r], s.nets[r]);
    } else if r < 2 * c.pairs {
      assert PairInv(c, s.ranks[r - c.pairs], s.ranks[r - c.pairs + c.pairs], s.nets[r - c.pairs]);
      SenderBarrier(c, open, s.ranks[r], s.nets[r - c.pairs]);
    } else {
      IdleBarrier(open, s.ranks[r]);
    }
  }

  lemma RankPreserves(c: Config, s: State, r: nat)
    requires Inv(c, s) && r < |s.ranks|
    ensures Inv(c, Next(c, s, RankAct(r)))
  {
    hide PairInv, SenderStep, ReceiverStep, Control;
    var t := Next(c, s, RankAct(r));
    var open := BarrierOpen(s, s.ranks[r].barriers);
    forall p | 0 <= p < c.pairs ensures PairInv(c, t.ranks[p], t.ranks[p + c.pairs], t.nets[p]) {
      assert PairInv(c, s.ranks[p], s.ranks[p + c.pairs], s.nets[p]);
      if p == r {
        SenderKeepsPair(c, open, s.ranks[p], s.ranks[p + c.pairs], s.nets[p]);
      } else if p + c.pairs == r {
        ReceiverKeepsPair(c, open, s.ranks[p], s.ranks[p + c.pairs], s.nets[p]);
      }
    }
    RankBarrier(c, s, r);
    hide Next;
    forall x, y | 0 <= x < |t.ranks| && 0 <= y < |t.ranks| ensures BarrierSafe(t.ranks[x], t.ranks[y]) {
      assert BarrierSafe(s.ranks[x], s.ranks[y]);
    }
  }

  lemma NetPreserves(c: Config, s: State, p: nat, e: Event)
    requires Inv(c, s) && p < c.pairs
    ensures Inv(c, Next(c, s, NetAct(p, e)))
  {
    hide PairInv, NetStep, Control;
    var t := Next(c, s, NetAct(p, e));
    assert PairInv(c, s.ranks[p], s.ranks[p + c.pairs], s.nets[p]);
    NetKeepsPair(c, e, s.ranks[p], s.ranks[p + c.pairs], s.nets[p]);
    forall q | 0 <= q < c.pairs ensures PairInv(c, t.ranks[q], t.ranks[q + c.pairs], t.nets[q]) {
      assert PairInv(c, s.ranks[q], s.ranks[q + c.pairs], s.nets[q]);
    }
    forall x, y | 0 <= x < |t.ranks| && 0 <= y < |t.ranks| ensures BarrierSafe(t.ranks[x], t.ranks[y]) {
      assert BarrierSafe(s.ranks[x], s.ranks[y]);
    }
  }

  /** Every step of every rank and every network event keeps the invariant. */
  lemma NextPreserves(c: Config, s: State, a: Action)
    requires Inv(c, s) && Legal(c, s, a)
    ensures Inv(c, Next(c, s, a)) && |Next(c, s, a).ranks| == |s.ranks|
  {
    match a
    case RankAct(r) => RankPreserves(c, s, r);
    case NetAct(p, e) => NetPreserves(c, s, p, e);
  }

  ghost function Run(c: Config, s: State, actions: seq<Action>): (t: State)
    requires Inv(c, s) && forall k :: 0 <= k < |actions| ==> Legal(c, s, actions[k])
    ensures Inv(c, t) && |t.ranks| == |s.ranks|
  {
    if |actions| == 0 then s
    else
      var n := |actions| - 1;
      var before := Run(c, s, actions[..n]);
      assert Legal(c, s, actions[n]);
      NextPreserves(c, before, actions[n]);
      Next(c, before, actions[n])
  }

  /** A pair's iterations differ by at most one, and at most one window is unacknowledged. */
  predicate Lockstep(c: Config, snd: Side, rcv: Side, n: Net) {
    && snd.iter <= rcv.iter + 1 && rcv.iter <= snd.iter + 1
    && n.sent <= Times(n.ackMatched, c.PerWindow()) + c.PerWindow()
  }

  lemma PairInLockstep(c: Config, s: State, p: nat)
    requires Inv(c, s) && p < c.pairs
    ensures Lockstep(c, s.ranks[p], s.ranks[p + c.pairs], s.nets[p])
  {
    var snd, rcv, n := s.ranks[p], s.ranks[p + c.pairs], s.nets[p];
    assert PairInv(c, snd, rcv, n);
    hide c.PerWindow;
    var m := c.PerWindow();
    if rcv.iter > snd.iter + 1 {
      TimesGrow(m, snd.iter + 1, rcv.iter);
      assert false;
    }
    TimesGrow(m, snd.iter, n.ackMatched);
  }

  /**
   * Resetting a counter discards no completion: when a wait succeeds the counter holds exactly what was awaited, and
   * no operation is outstanding that could still complete between the last read and the reset.
   */
  lemma ResetLosesNothing(c: Config, s: State, p: nat)
    requires Inv(c, s) && p < c.pairs && c.counting
    ensures
      var snd, rcv, n := s.ranks[p], s.ranks[p + c.pairs], s.nets[p];
      && (snd.stage == WaitData && snd.send >= snd.count ==> snd.send == snd.count && n.sendDone == n.sent)
      && (snd.stage == WaitAck && snd.recv >= snd.count ==> snd.recv == snd.count && n.ackMatched == n.ackPosted)
      && (rcv.stage == WaitData && rcv.recv >= rcv.count ==> rcv.recv == rcv.count && n.matched == n.posted)
      && (rcv.stage == WaitAck && rcv.send >= rcv.count ==> rcv.send == rcv.count && n.ackDone == n.ackSent)
  {
    assert PairInv(c, s.ranks[p], s.ranks[p + c.pairs], s.nets[p]);
    hide c.PerWindow;
  }

  /** A pair that is through: all messages and acknowledgements are matched and completed, and none is left unread. */
  predicate Balanced(c: Config, snd: Side, rcv: Side, n: Net) {
    && n.sent == n.posted == n.matched == n.sendDone
    && n.sent == (c.loop + c.skip) * (if c.transfer == SendRecv then c.window * c.iovCnt else c.window)
    && n.ackSent == n.ackPosted == n.ackMatched == n.ackDone == c.loop + c.skip
    && snd.send == snd.recv == rcv.send == rcv.recv == 0
  }

  /** When both sides of a pair have finished, the pair has balanced its books. */
  lemma PairBalanced(c: Config, s: State, p: nat)
    requires Inv(c, s) && p < c.pairs
    requires s.ranks[p].stage == Finished && s.ranks[p + c.pairs].stage == Finished
    ensures Balanced(c, s.ranks[p], s.ranks[p + c.pairs], s.nets[p])
  {
    assert PairInv(c, s.ranks[p], s.ranks[p + c.pairs], s.nets[p]);
    TimesProduct(c.Iterations(), c.PerWindow());
    TimesProduct(c.window, c.iovCnt);
    hide Times;
  }

  /** All three roles pass the same two barriers. */
  lemma SameBarriers(c: Config, s: State, r: nat)
    requires Inv(c, s) && r < |s.ranks| && s.ranks[r].stage == Finished
    ensures s.ranks[r].barriers == 2
    ensures BarrierOpen(s, 2)
  {
    if r < c.pairs {
      assert PairInv(c, s.ranks[r], s.ranks[r + c.pairs], s.nets[r]);
    } else if r < 2 * c.pairs {
      assert PairInv(c, s.ranks[r - c.pairs], s.ranks[r - c.pairs + c.pairs], s.nets[r - c.pairs]);
    } else {
      assert IdleInv(s.ranks[r]);
    }
    forall q | 0 <= q < |s.ranks| ensures s.ranks[q].barriers >= 2 {
      assert BarrierSafe(s.ranks[r], s.ranks[q]);
    }
  }

  /**
   * What the two barriers are for: no rank of a pair begins its first window before every rank has entered the call,
   * and none begins its first measured window before every rank of every pair has done all its warm-up windows.
   */
  lemma BarriersSeparate(c: Config, s: State, r: nat, q: nat)
    requires Inv(c, s) && r < 2 * c.pairs && q < |s.ranks|
    ensures s.ranks[r].iter > 0 || s.ranks[r].stage == Posting ==> s.ranks[q].barriers >= 1
    ensures s.ranks[r].iter > c.skip || (s.ranks[r].iter == c.skip && s.ranks[r].stage == Posting) ==>
              s.ranks[q].barriers == 2 && (q < 2 * c.pairs ==> s.ranks[q].iter >= c.skip)
  {
    var p := if r < c.pairs then r else r - c.pairs;
    assert PairInv(c, s.ranks[p], s.ranks[p + c.pairs], s.nets[p]);
    if q < 2 * c.pairs {
      var o := if q < c.pairs then q else q - c.pairs;
      assert PairInv(c, s.ranks[o], s.ranks[o + c.pairs], s.nets[o]);
    } else {
      assert IdleInv(s.ranks[q]);
    }
    assert BarrierSafe(s.ranks[r], s.ranks[q]);
    hide SenderBooks, ReceiverBooks, NetBounds, Times, c.PerWindow;
  }

  /** An action that changes the state without relying on a send completing before its match. */
  predicate Moves(c: Config, s: State, a: Action)
    requires Shape(c, s) && Legal(c, s, a)
  {
    && Next(c, s, a) != s
    && (a.NetAct? && a.event == CompleteData ==> s.nets[a.pair].sendDone < s.nets[a.pair].matched)
    && (a.NetAct? && a.event == CompleteAck ==> s.nets[a.pair].ackDone < s.nets[a.pair].ackMatched)
  }

  /** The rank's own step would change it, whatever the barrier. */
  predicate SenderReady(c: Config, x: Side) {
    x.stage == Top || x.stage == Posting || x.stage == PostAck ||
    (x.stage == WaitData && (if c.counting then x.send >= x.count else x.send > 0 || x.count == 0)) ||
    (x.stage == WaitAck && (if c.counting then x.recv >= x.count else x.recv > 0 || x.count == 0))
  }

  predicate ReceiverReady(c: Config, x: Side) {
    x.stage == Top || x.stage == Posting || x.stage == PostAck ||
    (x.stage == WaitData && (if c.counting then x.recv >= x.count else x.recv > 0 || x.count == 0)) ||
    (x.stage == WaitAck && (if c.counting then x.send >= x.count else x.send > 0 || x.count == 0))
  }

  /** The network can do something for the pair without a send completing early. */
  predicate NetReady(n: Net) {
    || (n.matched < n.sent && n.matched < n.posted)
    || n.sendDone < n.matched
    || (n.ackMatched < n.ackSent && n.ackMatched < n.ackPosted)
    || n.ackDone < n.ackMatched
  }

  /** A pair that cannot move has finished, or one of its ranks waits in a barrier that its partner has not got past. */
  lemma PairMoves(c: Config, snd: Side, rcv: Side, n: Net)
    requires c.Valid() && PairInv(c, snd, rcv, n)
    requires !SenderReady(c, snd) && !ReceiverReady(c, rcv) && !NetReady(n)
    ensures
      || (snd.stage == Finished && rcv.stage == Finished)
      || (snd.stage == AtBarrier && snd.barriers <= rcv.barriers)
      || (rcv.stage == AtBarrier && rcv.barriers <= snd.barriers)
  {
    var m := c.PerWindow();
    assert m >= 1;
    hide c.PerWindow;
    if snd.iter < rcv.iter {
      TimesGrow(m, snd.iter, rcv.iter);
    } else if rcv.iter < snd.iter {
      TimesGrow(m, rcv.iter, snd.iter);
    }
  }

  /** A rank that is ready, or that waits in an open barrier, can move. */
  lemma RankMoves(c: Config, s: State, r: nat)
    requires c.Valid() && Shape(c, s) && r < |s.ranks|
    requires
      || (s.ranks[r].stage == AtBarrier && BarrierOpen(s, s.ranks[r].barriers))
      || (r < c.pairs && SenderReady(c, s.ranks[r]))
      || (c.pairs <= r < 2 * c.pairs && ReceiverReady(c, s.ranks[r]))
      || (r >= 2 * c.pairs && s.ranks[r].stage == Top)
    ensures Moves(c, s, RankAct(r))
  {
    hide BarrierOpen, c.PerWindow;
    assert Next(c, s, RankAct(r)).ranks[r] != s.ranks[r];
  }

  lemma NetMoves(c: Config, s: State, p: nat)
    requires Shape(c, s) && p < c.pairs && NetReady(s.nets[p])
    requires s.nets[p].matched <= s.nets[p].sent && s.nets[p].ackMatched <= s.nets[p].ackSent
    ensures exists e :: Moves(c, s, NetAct(p, e))
  {
    var n := s.nets[p];
    var e :=
      if n.matched < n.sent && n.matched < n.posted then MatchData
      else if n.sendDone < n.matched then CompleteData
      else if n.ackMatched < n.ackSent && n.ackMatched < n.ackPosted then MatchAck
      else CompleteAck;
    assert Next(c, s, NetAct(p, e)).nets[p] != n;
    assert Moves(c, s, NetAct(p, e));
  }

  /** No rank can move, and no network event is due. */
  ghost predicate Stuck(c: Config, s: State)
    requires Shape(c, s)
  {
    forall a :: Legal(c, s, a) ==> !Moves(c, s, a)
  }

  predicate AllFinished(s: State) {
    forall r :: 0 <= r < |s.ranks| ==> s.ranks[r].stage == Finished
  }

  /** What `PairMoves` says of a pair in a stuck state. */
  predicate PairHeld(x: Side, y: Side) {
    || (x.stage == Finished && y.stage == Finished)
    || (x.stage == AtBarrier && x.barriers <= y.barriers)
    || (y.stage == AtBarrier && y.barriers <= x.barriers)
  }

  lemma StuckPair(c: Config, s: State, p: nat)
    requires Inv(c, s) && Stuck(c, s) && p < c.pairs
    ensures PairHeld(s.ranks[p], s.ranks[p + c.pairs])
  {
    var snd, rcv, n := s.ranks[p], s.ranks[p + c.pairs], s.nets[p];
    assert PairInv(c, snd, rcv, n);
    hide Moves, SenderReady, ReceiverReady, NetReady, Inv, Control, SenderBooks, ReceiverBooks;
    if SenderReady(c, snd) {
      assert Legal(c, s, RankAct(p));
      RankMoves(c, s, p);
    }
    if ReceiverReady(c, rcv) {
      assert Legal(c, s, RankAct(p + c.pairs));
      RankMoves(c, s, p + c.pairs);
    }
    if NetReady(n) {
      assert forall e :: Legal(c, s, NetAct(p, e));
      NetMoves(c, s, p);
    }
    PairMoves(c, snd, rcv, n);
  }

  lemma StuckRank(c: Config, s: State, r: nat)
    requires Inv(c, s) && Stuck(c, s) && r < |s.ranks|
    ensures s.ranks[r].stage == AtBarrier ==> !BarrierOpen(s, s.ranks[r].barriers)
    ensures r >= 2 * c.pairs ==> s.ranks[r].stage == AtBarrier || s.ranks[r].stage == Finished
    ensures s.ranks[r].barriers <= 2 && (s.ranks[r].stage == Finished ==> s.ranks[r].barriers == 2)
  {
    if r < c.pairs {
      assert PairInv(c, s.ranks[r], s.ranks[r + c.pairs], s.nets[r]);
    } else if r < 2 * c.pairs {
      assert PairInv(c, s.ranks[r - c.pairs], s.ranks[r - c.pairs + c.pairs], s.nets[r - c.pairs]);
    } else {
      assert IdleInv(s.ranks[r]);
    }
    hide Inv, Moves, PairInv;
    assert Legal(c, s, RankAct(r));
    if s.ranks[r].stage == AtBarrier && BarrierOpen(s, s.ranks[r].barriers) {
      RankMoves(c, s, r);
    } else if r >= 2 * c.pairs && s.ranks[r].stage == Top {
      RankMoves(c, s, r);
    }
  }

  /** Some rank has entered the fewest barriers. */
  lemma {:induction false} Hindmost(ranks: seq<Side>) returns (m: nat)
    requires |ranks| > 0
    ensures m < |ranks| && forall q :: 0 <= q < |ranks| ==> ranks[m].barriers <= ranks[q].barriers
  {
    m := 0;
    if |ranks| > 1 {
      var k := Hindmost(ranks[1..]);
      assert forall q :: 1 <= q < |ranks| ==> ranks[q] == ranks[1..][q - 1];
      m := if ranks[0].barriers <= ranks[k + 1].barriers then 0 else k + 1;
    }
  }

  /** In a stuck state even the rank that has entered the fewest barriers has finished. */
  lemma StuckHindmost(c: Config, s: State, m: nat)
    requires Inv(c, s) && Stuck(c, s) && m < |s.ranks|
    requires forall q :: 0 <= q < |s.ranks| ==> s.ranks[m].barriers <= s.ranks[q].barriers
    ensures s.ranks[m].stage == Finished
  {
    assert Shape(c, s);
    hide Moves, Stuck, PairInv, Inv;
    StuckRank(c, s, m);
    if m < 2 * c.pairs {
      var p := if m < c.pairs then m else m - c.pairs;
      StuckPair(c, s, p);
      StuckRank(c, s, p);
      StuckRank(c, s, p + c.pairs);
    }
  }

  /** No reachable state deadlocks: where nothing can move, every rank has finished. */
  lemma NoDeadlock(c: Config, s: State)
    requires Inv(c, s) && Stuck(c, s)
    ensures AllFinished(s)
  {
    forall r | 0 <= r < |s.ranks| ensures s.ranks[r].stage == Finished {
      hide Moves, Stuck, PairInv, Inv;
      var m := Hindmost(s.ranks);
      StuckHindmost(c, s, m);
      StuckRank(c, s, m);
      StuckRank(c, s, r);
      assert s.ranks[m].barriers <= s.ranks[r].barriers;
      if r < 2 * c.pairs {
        var p := if r < c.pairs then r else r - c.pairs;
        StuckPair(c, s, p);
        StuckRank(c, s, p);
        StuckRank(c, s, p + c.pairs);
      }
    }
  }

  /** Once every rank has finished, no traffic is left either. */
  lemma FinishedIsQuiet(c: Config, s: State, a: Action)
    requires Inv(c, s) && AllFinished(s) && Legal(c, s, a)
    ensures Next(c, s, a) == s
  {
    if a.NetAct? {
      PairBalanced(c, s, a.pair);
    }
    hide PairInv, IdleInv, BarrierOpen, BarrierSafe, c.PerWindow, FromTop;
  }

  /** A state is stuck exactly when every rank has left `calc_bw`. */
  lemma StuckIffFinished(c: Config, s: State)
    requires Inv(c, s)
    ensures Stuck(c, s) <==> AllFinished(s)
  {
    hide PairInv, Moves;
    if Stuck(c, s) {
      NoDeadlock(c, s);
    } else {
      var a :| Legal(c, s, a) && Moves(c, s, a);
      if AllFinished(s) {
        FinishedIsQuiet(c, s, a);
        MovesChanges(c, s, a);
      }
    }
  }

  lemma MovesChanges(c: Config, s: State, a: Action)
    requires Shape(c, s) && Legal(c, s, a) && Moves(c, s, a)
    ensures Next(c, s, a) != s
  {}

  /** Every interleaving of the ranks and the network, from the start of the call. */
  ghost predicate Reaches(c: Config, s: State, actions: seq<Action>, t: State) {
    && c.Valid() && Initial(c, s)
    && (forall k :: 0 <= k < |actions| ==> Legal(c, s, actions[k]))
    && (InitialInv(c, s); t == Run(c, s, actions))
  }

  /**
   * In every run: a pair's iterations differ by at most one and at most one window is unacknowledged; the ranks can
   * go on unless all have finished; and a finished pair has sent, received and acknowledged the same messages.
   */
  lemma EveryRun(c: Config, s: State, actions: seq<Action>, t: State)
    requires Reaches(c, s, actions, t)
    ensures Shape(c, t) && |t.ranks| == |s.ranks| && (Stuck(c, t) <==> AllFinished(t))
    ensures forall p :: 0 <= p < c.pairs ==> Lockstep(c, t.ranks[p], t.ranks[p + c.pairs], t.nets[p])
    ensures AllFinished(t) ==>
              forall p :: 0 <= p < c.pairs ==> Balanced(c, t.ranks[p], t.ranks[p + c.pairs], t.nets[p])
  {
    InitialInv(c, s);
    assert Inv(c, t) && Shape(c, t);
    hide Run, Inv, Stuck, Lockstep, Balanced;
    StuckIffFinished(c, t);
    forall p | 0 <= p < c.pairs
      ensures Lockstep(c, t.ranks[p], t.ranks[p + c.pairs], t.nets[p])
      ensures AllFinished(t) ==> Balanced(c, t.ranks[p], t.ranks[p + c.pairs], t.nets[p])
    {
      PairInLockstep(c, t, p);
      if AllFinished(t) {
        PairBalanced(c, t, p);
      }
    }
  }

  /** How far a rank has come; completions that have arrived but have not been read do not count. */
  function Position(c: Config, x: Side): int {
    var m := c.PerWindow();
    Times(x.iter, 2 * m + 7) + 2 * x.barriers +
    match x.stage
    case Top => 0
    case AtBarrier => -1
    case Posting => 1 + x.count
    case WaitData => 2 + m + m - x.count
    case PostAck => 3 + 2 * m
    case WaitAck => 5 + 2 * m - x.count
    case Finished => 1
  }

  /** Progress: a step that does anything moves its rank forward. */
  lemma SenderAdvances(c: Config, open: bool, x: Side, n: Net)
    requires c.Valid() && Control(c, x) && SenderStep(c, open, x, n) != (x, n)
    ensures Position(c, SenderStep(c, open, x, n).0) > Position(c, x)
  {
    hide c.PerWindow;
  }

  lemma ReceiverAdvances(c: Config, open: bool, x: Side, n: Net)
    requires c.Valid() && Control(c, x) && ReceiverStep(c, open, x, n) != (x, n)
    ensures Position(c, ReceiverStep(c, open, x, n).0) > Position(c, x)
  {
    hide c.PerWindow;
  }

  /** No rank gets further than the end of its last iteration. */
  lemma PositionBounded(c: Config, x: Side)
    requires c.Valid() && Control(c, x)
    ensures Position(c, x) <= Times(c.Iterations(), 2 * c.PerWindow() + 7) + 5
  {
    var m := c.PerWindow();
    TimesGrow(2 * m + 7, x.iter, c.Iterations());
    hide c.PerWindow;
  }

  /** Nor is there ever more traffic than the iterations call for, and every network event uses some of it up. */
  lemma TrafficBounded(c: Config, snd: Side, rcv: Side, n: Net, e: Event)
    requires c.Valid() && PairInv(c, snd, rcv, n)
    ensures n.matched <= n.sent <= Times(c.Iterations(), c.PerWindow()) && n.sendDone <= n.sent
    ensures n.ackMatched <= n.ackSent <= c.Iterations() && n.ackDone <= n.ackSent
    ensures
      var t := NetStep(e, snd, rcv, n).2;
      t != n ==> t.matched + t.sendDone + t.ackMatched + t.ackDone == n.matched + n.sendDone + n.ackMatched + n.ackDone + 1
  {
    TimesGrow(c.PerWindow(), snd.iter, c.Iterations());
    hide c.PerWindow;
  }
}
