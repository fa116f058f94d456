/**
 * What a window carries: the messages a sender posts against the buffers its receiver posts, and the number of
 * iterations.
 */
module WindowTraffic {
  import opened Multiples
  import opened Totals
  import opened WindowProtocol

  const DEFAULT_WINDOW := 64
  const ITERS_SMALL := 100
  const WARMUP_ITERS_SMALL := 10
  const ITERS_LARGE := 20
  const WARMUP_ITERS_LARGE := 2
  const LARGE_THRESHOLD := 8192

  /** A buffer list `s` posted n times over. */
  function Repeat(s: seq<nat>, n: nat): seq<nat> {
    if n == 0 then [] else Repeat(s, n - 1) + s
  }

  /** The vectors and the contiguous buffer one side is given. */
  datatype Buffers = Buffers(iov: seq<nat>, bufLen: nat)

  /** The lengths of the messages the sender posts in one window, in order. */
  function SendSizes(t: Transfer, window: nat, b: Buffers): seq<nat> {
    match t
    case SendRecv => Repeat(b.iov, window)
    case SendvRecvv => Repeat([Sum(b.iov)], window)
    case SendvRecv => Repeat([Sum(b.iov)], window)
    case SendRecvv => Repeat([b.bufLen], window)
  }

  /** The capacities of the receives posted in one window, in order. */
  function RecvSizes(t: Transfer, window: nat, b: Buffers): seq<nat> {
    match t
    case SendRecv => Repeat(b.iov, window)
    case SendvRecvv => Repeat([Sum(b.iov)], window)
    case SendvRecv => Repeat([b.bufLen], window)
    case SendRecvv => Repeat([Sum(b.iov)], window)
  }

  /** The buffers of call c + 1 of a size: c + 1 vectors of `size` bytes and a buffer of (c + 1) * size bytes. */
  function CallBuffers(iovCnt: nat, size: nat): Buffers {
    Buffers(seq(iovCnt, _ => size), iovCnt * size)
  }

  lemma {:induction false} SumRepeat(s: seq<nat>, n: nat)
    ensures Sum(Repeat(s, n)) == Times(n, Sum(s))
  {
    if n > 0 {
      SumRepeat(s, n - 1);
      SumAppend(Repeat(s, n - 1), s);
    }
  }

  lemma {:induction false} RepeatLength(s: seq<nat>, n: nat)
    ensures |Repeat(s, n)| == Times(n, |s|)
  {
    if n > 0 {
      RepeatLength(s, n - 1);
    }
  }

  lemma {:induction false} SumConstant(iovCnt: nat, size: nat)
    ensures Sum(seq(iovCnt, _ => size)) == iovCnt * size
  {
    if iovCnt > 0 {
      SumConstant(iovCnt - 1, size);
      assert seq(iovCnt, _ => size)[..iovCnt - 1] == seq(iovCnt - 1, _ => size);
    }
  }

  /**
   * In every window and for each of the four transfer types the k-th message fits the k-th receive exactly, the
   * number of messages is what both sides wait for, and the bytes are those the bandwidth is computed from.
   */
  lemma WindowMatches(c: Config, size: nat)
    requires c.Valid()
    ensures
      var b := CallBuffers(c.iovCnt, size);
      && SendSizes(c.transfer, c.window, b) == RecvSizes(c.transfer, c.window, b)
      && |SendSizes(c.transfer, c.window, b)| == c.PerWindow()
      && Sum(SendSizes(c.transfer, c.window, b)) == c.window * Sum(b.iov) == c.window * (c.iovCnt * size)
  {
    var b := CallBuffers(c.iovCnt, size);
    SumConstant(c.iovCnt, size);
    TimesProduct(c.window, Sum(b.iov));
    if c.transfer == SendRecv {
      SumRepeat(b.iov, c.window);
      RepeatLength(b.iov, c.window);
    } else {
      assert Sum([Sum(b.iov)]) == Sum(b.iov);
      SumRepeat([Sum(b.iov)], c.window);
      RepeatLength([Sum(b.iov)], c.window);
      TimesProduct(c.window, 1);
    }
  }

  lemma {:induction false} RepeatAt(s: seq<nat>, n: nat, i: nat, j: nat)
    requires i < n && j < |s|
    ensures Times(i, |s|) + j < |Repeat(s, n)| && Repeat(s, n)[Times(i, |s|) + j] == s[j]
  {
    RepeatLength(s, n);
    RepeatLength(s, n - 1);
    TimesGrow(|s|, i, n);
    if i < n - 1 {
      RepeatAt(s, n - 1, i, j);
    }
  }

  /** Vector j of entry i is message i * |iov| + j. */
  predicate VectorAt(posted: seq<nat>, iov: seq<nat>, i: nat, j: nat)
    requires j < |iov|
  {
    var k := Times(i, |iov|) + j;
    k < |posted| && posted[k] == iov[j]
  }

  /** A window of vectors, one message for each. */
  ghost predicate PerVector(posted: seq<nat>, window: nat, iov: seq<nat>) {
    && |posted| == window * |iov|
    && forall i: nat, j: nat :: i < window && j < |iov| ==> VectorAt(posted, iov, i, j)
  }

  /** A window of equal messages. */
  ghost predicate PerEntry(posted: seq<nat>, window: nat, len: nat) {
    |posted| == window && forall i :: 0 <= i < window ==> posted[i] == len
  }

  lemma RepeatVectors(iov: seq<nat>, window: nat)
    ensures PerVector(Repeat(iov, window), window, iov)
  {
    RepeatLength(iov, window);
    TimesProduct(window, |iov|);
    forall i: nat, j: nat | i < window && j < |iov| ensures VectorAt(Repeat(iov, window), iov, i, j) {
      RepeatAt(iov, window, i, j);
    }
  }

  lemma {:induction false} RepeatEntry(len: nat, window: nat)
    ensures PerEntry(Repeat([len], window), window, len)
  {
    if window > 0 {
      RepeatEntry(len, window - 1);
    }
  }

  /** The sender's posting loops: each window entry posts every vector, all vectors gathered, or the one buffer. */
  method PostSends(t: Transfer, window: nat, b: Buffers) returns (posted: seq<nat>)
    ensures posted == SendSizes(t, window, b)
    ensures t == SendRecv ==> PerVector(posted, window, b.iov)
    ensures t == SendvRecvv || t == SendvRecv ==> PerEntry(posted, window, Sum(b.iov))
    ensures t == SendRecvv ==> PerEntry(posted, window, b.bufLen)
  {
    posted := [];
    for j := 0 to window
      invariant posted == SendSizes(t, j, b)
    {
      ghost var before := posted;
      match t
      case SendRecv =>
        for i := 0 to |b.iov|
          invariant posted == before + b.iov[..i]
        {
          posted := posted + [b.iov[i]];
        }
      case SendvRecvv => posted := posted + [Sum(b.iov)];
      case SendvRecv => posted := posted + [Sum(b.iov)];
      case SendRecvv => posted := posted + [b.bufLen];
    }
    RepeatVectors(b.iov, window);
    RepeatEntry(Sum(b.iov), window);
    RepeatEntry(b.bufLen, window);
  }

  /** The receiver's posting loops. */
  method PostReceives(t: Transfer, window: nat, b: Buffers) returns (posted: seq<nat>)
    ensures posted == RecvSizes(t, window, b)
    ensures t == SendRecv ==> PerVector(posted, window, b.iov)
    ensures t == SendvRecvv || t == SendRecvv ==> PerEntry(posted, window, Sum(b.iov))
    ensures t == SendvRecv ==> PerEntry(posted, window, b.bufLen)
  {
    posted := [];
    for j := 0 to window
      invariant posted == RecvSizes(t, j, b)
    {
      ghost var before := posted;
      match t
      case SendRecv =>
        for i := 0 to |b.iov|
          invariant posted == before + b.iov[..i]
        {
          posted := posted + [b.iov[i]];
        }
      case SendvRecvv => posted := posted + [Sum(b.iov)];
      case SendRecvv => posted := posted + [Sum(b.iov)];
      case SendvRecv => posted := posted + [b.bufLen];
    }
    RepeatVectors(b.iov, window);
    RepeatEntry(Sum(b.iov), window);
    RepeatEntry(b.bufLen, window);
  }

  /** The sizes of all messages a pair's sender has posted, and the capacities of all receives, in order. */
  datatype Log = Log(sent: seq<nat>, posted: seq<nat>)

  predicate Posts(c: Config, x: Side) {
    x.stage == Posting && x.count < c.PerWindow()
  }

  /** Entry j of a window's list. */
  function Entry(list: seq<nat>, j: nat): nat {
    if j < |list| then list[j] else 0
  }

  /** What an action adds to the log of pair p: a posting rank posts the entry of its window that is next. */
  function LogNext(c: Config, b: Buffers, s: State, a: Action, p: nat, log: Log): Log
    requires Shape(c, s) && p < c.pairs
  {
    var snd, rcv := s.ranks[p], s.ranks[p + c.pairs];
    if a == RankAct(p) && Posts(c, snd) then
      log.(sent := log.sent + [Entry(SendSizes(c.transfer, c.window, b), snd.count)])
    else if a == RankAct(p + c.pairs) && Posts(c, rcv) then
      log.(posted := log.posted + [Entry(RecvSizes(c.transfer, c.window, b), rcv.count)])
    else log
  }

  ghost function LogOf(c: Config, b: Buffers, s: State, actions: seq<Action>, p: nat): Log
    requires Inv(c, s) && p < c.pairs && forall k :: 0 <= k < |actions| ==> Legal(c, s, actions[k])
  {
    if |actions| == 0 then Log([], [])
    else
      var n := |actions| - 1;
      LogNext(c, b, Run(c, s, actions[..n]), actions[n], p, LogOf(c, b, s, actions[..n], p))
  }

  /** Element k of a list repeated for ever. */
  function Stream(list: seq<nat>, k: nat): nat
    requires |list| > 0
  {
    if k < |list| then list[k] else Stream(list, k - |list|)
  }

  lemma {:induction false} StreamAt(list: seq<nat>, i: nat, j: nat)
    requires j < |list|
    ensures Stream(list, Times(i, |list|) + j) == list[j]
  {
    if i > 0 {
      StreamAt(list, i - 1, j);
    }
  }

  /** The log of a pair is as long as its traffic and repeats the window's list. */
  ghost predicate LogInv(c: Config, list: seq<nat>, n: Net, log: Log) {
    && |list| == c.PerWindow() && |list| > 0
    && |log.sent| == n.sent && |log.posted| == n.posted
    && (forall k :: 0 <= k < |log.sent| ==> log.sent[k] == Stream(list, k))
    && (forall k :: 0 <= k < |log.posted| ==> log.posted[k] == Stream(list, k))
  }

  /** Only a posting rank adds to the traffic of its pair, one message or receive at a time. */
  lemma NextPosts(c: Config, s: State, a: Action, p: nat)
    requires Shape(c, s) && Legal(c, s, a) && p < c.pairs
    ensures |Next(c, s, a).nets| == |s.nets|
    ensures Next(c, s, a).nets[p].sent == s.nets[p].sent + if a == RankAct(p) && Posts(c, s.ranks[p]) then 1 else 0
    ensures Next(c, s, a).nets[p].posted ==
            s.nets[p].posted + if a == RankAct(p + c.pairs) && Posts(c, s.ranks[p + c.pairs]) then 1 else 0
  {
    hide FromTop, WaitStep, BarrierOpen, c.PerWindow;
  }

  /** Where in its stream a posting rank is. */
  lemma PostIndex(c: Config, s: State, p: nat)
    requires Inv(c, s) && p < c.pairs
    ensures
      var snd, rcv, n := s.ranks[p], s.ranks[p + c.pairs], s.nets[p];
      && (Posts(c, snd) ==> n.sent == Times(snd.iter, c.PerWindow()) + snd.count)
      && (Posts(c, rcv) ==> n.posted == Times(rcv.iter, c.PerWindow()) + rcv.count)
  {
    assert PairInv(c, s.ranks[p], s.ranks[p + c.pairs], s.nets[p]);
    hide c.PerWindow, Times, Control;
  }

  lemma LogPreserves(c: Config, b: Buffers, list: seq<nat>, s: State, a: Action, p: nat, log: Log)
    requires Inv(c, s) && Shape(c, s) && Legal(c, s, a) && p < c.pairs && LogInv(c, list, s.nets[p], log)
    requires list == SendSizes(c.transfer, c.window, b) == RecvSizes(c.transfer, c.window, b)
    ensures |Next(c, s, a).nets| == |s.nets| && LogInv(c, list, Next(c, s, a).nets[p], LogNext(c, b, s, a, p, log))
  {
    hide Inv, Next, SendSizes, RecvSizes, Stream, Times, c.PerWindow;
    var snd, rcv := s.ranks[p], s.ranks[p + c.pairs];
    PostIndex(c, s, p);
    NextPosts(c, s, a, p);
    if Posts(c, snd) {
      StreamAt(list, snd.iter, snd.count);
    }
    if Posts(c, rcv) {
      StreamAt(list, rcv.iter, rcv.count);
    }
  }

  lemma {:induction false} LogOfInv(c: Config, size: nat, s: State, actions: seq<Action>, p: nat)
    requires c.Valid() && Initial(c, s) && Inv(c, s) && p < c.pairs
    requires forall k :: 0 <= k < |actions| ==> Legal(c, s, actions[k])
    ensures
      var b := CallBuffers(c.iovCnt, size);
      var t := Run(c, s, actions);
      |t.nets| == c.pairs && LogInv(c, SendSizes(c.transfer, c.window, b), t.nets[p], LogOf(c, b, s, actions, p))
  {
    var b := CallBuffers(c.iovCnt, size);
    WindowMatches(c, size);
    if |actions| > 0 {
      var n := |actions| - 1;
      assert Shape(c, Run(c, s, actions[..n]));
      hide SendSizes, RecvSizes, LogInv, LogNext, Next, Inv, Initial;
      LogOfInv(c, size, s, actions[..n], p);
      assert Legal(c, s, actions[n]);
      LogPreserves(c, b, SendSizes(c.transfer, c.window, b), Run(c, s, actions[..n]), actions[n], p,
                   LogOf(c, b, s, actions[..n], p));
    }
  }

  /**
   * In every run, across windows: whatever message is matched, the receive it is matched with was posted with exactly
   * its size.
   */
  lemma MatchedSizes(c: Config, size: nat, s: State, actions: seq<Action>, t: State, p: nat, k: nat)
    requires Reaches(c, s, actions, t) && p < c.pairs && |t.nets| == c.pairs && k < t.nets[p].matched
    ensures
      var log := (InitialInv(c, s); LogOf(c, CallBuffers(c.iovCnt, size), s, actions, p));
      && |log.sent| == t.nets[p].sent && |log.posted| == t.nets[p].posted
      && k < |log.sent| && k < |log.posted| && log.sent[k] == log.posted[k]
  {
    InitialInv(c, s);
    LogOfInv(c, size, s, actions, p);
    assert PairInv(c, t.ranks[p], t.ranks[p + c.pairs], t.nets[p]);
    hide Run, LogOf, SendSizes, SenderBooks, ReceiverBooks, Control;
  }

  /** What polling does to a counter that gains arrivals[k] completions before the k-th poll. */
  function WaitRun(counting: bool, have: nat, left: nat, arrivals: seq<nat>): Waited
    decreases |arrivals|
  {
    if |arrivals| == 0 then Waited(have, left, false)
    else
      var w := WaitStep(counting, have + arrivals[0], left);
      if w.done then w else WaitRun(counting, w.have, w.left, arrivals[1..])
  }

  /** The measured and the warm-up iterations chosen for a window and a total vector length. */
  function Rounds(window: nat, total: nat): (r: (nat, nat))
    requires window >= 1
  {
    var mult := if DEFAULT_WINDOW / window > 0 then DEFAULT_WINDOW / window else 1;
    if total > LARGE_THRESHOLD then (ITERS_LARGE * mult, WARMUP_ITERS_LARGE * mult)
    else (ITERS_SMALL * mult, WARMUP_ITERS_SMALL * mult)
  }

  lemma Quotient(n: nat, d: nat)
    requires d >= 1
    ensures n / d * d <= n < n / d * d + d
    ensures n / d > 0 <==> d <= n
  {}

  /**
   * Small windows are repeated so that about as many entries are posted as 100 (or, above 8192 bytes, 20) windows of 64
   * would, and never more; a larger window is not repeated. The warm-up is a tenth of that.
   */
  lemma RoundsFillWindow(window: nat, total: nat)
    requires window >= 1
    ensures
      var r := Rounds(window, total);
      var iters := if total <= 8192 then 100 else 20;
      && r.0 == 10 * r.1 >= iters
      && (window > 64 ==> r.0 == iters)
      && (window <= 64 ==> iters * (64 - window) < r.0 * window <= iters * 64)
  {
    var mult := 64 / window;
    Quotient(64, window);
    if window <= 64 {
      var r := Rounds(window, total);
      var iters := if total <= 8192 then 100 else 20;
      assert r.0 == iters * mult;
      assert (iters * mult) * window == iters * (mult * window);
    }
  }

  /** The parameters `calc_bw` derives are always ones for which the protocol theorems hold. */
  lemma CallIsValid(t: Transfer, window: nat, iovCnt: nat, size: nat, pairs: nat, counting: bool)
    requires window >= 1 && iovCnt >= 1
    ensures
      var r := Rounds(window, Sum(CallBuffers(iovCnt, size).iov));
      Config(t, window, iovCnt, r.0, r.1, pairs, counting).Valid()
  {
    RoundsFillWindow(window, Sum(CallBuffers(iovCnt, size).iov));
  }

  /** A queue never loses a completion, and a wait that gave up has consumed all it could. */
  lemma {:induction false} QueueWaitConserves(have: nat, left: nat, arrivals: seq<nat>)
    ensures
      var w := WaitRun(false, have, left, arrivals);
      && (w.done ==> w.left == 0 && exists k :: 0 < k <= |arrivals| && w.have + left == have + Sum(arrivals[..k]))
      && (!w.done ==> w.have + left == have + Sum(arrivals) + w.left)
    decreases |arrivals|
  {
    var w := WaitRun(false, have, left, arrivals);
    if |arrivals| > 0 {
      var rest := arrivals[1..];
      var v := WaitStep(false, have + arrivals[0], left);
      assert Sum([arrivals[0]]) == arrivals[0];
      if v.done {
        assert arrivals[..1] == [arrivals[0]];
      } else {
        QueueWaitConserves(v.have, v.left, rest);
        assert arrivals == [arrivals[0]] + rest;
        SumAppend([arrivals[0]], rest);
        if w.done {
          var k :| 0 < k <= |rest| && w.have + v.left == v.have + Sum(rest[..k]);
          assert arrivals[..k + 1] == [arrivals[0]] + rest[..k];
          SumAppend([arrivals[0]], rest[..k]);
        }
      }
    }
  }

  /** The completions before and after the first poll. */
  lemma FirstArrivals(arrivals: seq<nat>, k: nat)
    requires 0 < k <= |arrivals|
    ensures Sum(arrivals[..k]) == arrivals[0] + Sum(arrivals[1..][..k - 1])
  {
    assert Sum([arrivals[0]]) == arrivals[0];
    assert arrivals[..k] == [arrivals[0]] + arrivals[1..][..k - 1];
    SumAppend([arrivals[0]], arrivals[1..][..k - 1]);
  }

  predicate EnoughBy(have: nat, left: nat, arrivals: seq<nat>, k: nat) {
    0 < k <= |arrivals| && have + Sum(arrivals[..k]) >= left
  }

  /** A counter wait succeeds if and only if some poll finds enough; the reset after it leaves the counter at zero. */
  lemma {:induction false} CounterWaitSucceeds(have: nat, left: nat, arrivals: seq<nat>)
    ensures
      var w := WaitRun(true, have, left, arrivals);
      && (w.done <==> exists k :: EnoughBy(have, left, arrivals, k))
      && (w.done ==> w.have == 0) && (!w.done ==> w.left == left && w.have == have + Sum(arrivals))
    decreases |arrivals|
  {
    if |arrivals| > 0 {
      var rest, more := arrivals[1..], have + arrivals[0];
      FirstArrivals(arrivals, 1);
      FirstArrivals(arrivals, |arrivals|);
      assert arrivals[..|arrivals|] == arrivals && rest[..|arrivals| - 1] == rest;
      hide Sum;
      if more >= left {
        SumNone(rest[..0]);
        assert EnoughBy(have, left, arrivals, 1);
      } else {
        CounterWaitSucceeds(more, left, rest);
        if k: nat :| EnoughBy(more, left, rest, k) {
          FirstArrivals(arrivals, k + 1);
          assert EnoughBy(have, left, arrivals, k + 1);
        }
        if k: nat :| EnoughBy(have, left, arrivals, k) {
          FirstArrivals(arrivals, k);
          SumNone(rest[..0]);
          assert EnoughBy(more, left, rest, k - 1);
        }
      }
    }
  }

  lemma SumNone(s: seq<nat>)
    requires |s| == 0
    ensures Sum(s) == 0
  {}

  /** By every poll so many completions have arrived that the remaining polls can read all that are still awaited. */
  ghost predicate InTime(have: nat, left: nat, arrivals: seq<nat>) {
    && |arrivals| > left
    && forall i :: 0 < i < |arrivals| ==> have + Sum(arrivals[..i]) + (|arrivals| - 1 - i) >= left
  }

  lemma {:induction false} InTimeNext(have: nat, left: nat, arrivals: seq<nat>)
    requires |arrivals| > 0 && left > 0
    ensures
      var more := have + arrivals[0];
      InTime(have, left, arrivals) <==>
      if more > 0 then InTime(more - 1, left - 1, arrivals[1..]) else InTime(0, left, arrivals[1..])
  {
    var rest, more := arrivals[1..], have + arrivals[0];
    var next := if more > 0 then left - 1 else left;
    var kept := if more > 0 then more - 1 else 0;
    forall i | 0 < i < |arrivals| ensures Sum(arrivals[..i]) == arrivals[0] + Sum(rest[..i - 1]) {
      FirstArrivals(arrivals, i);
    }
    SumNone(rest[..0]);
    hide Sum;
    if InTime(have, left, arrivals) {
      if more == 0 && |arrivals| > 1 {
        assert have + Sum(arrivals[..1]) + (|arrivals| - 1 - 1) >= left;
      }
      forall i | 0 < i < |rest| ensures kept + Sum(rest[..i]) + (|rest| - 1 - i) >= next {
        assert have + Sum(arrivals[..i + 1]) + (|arrivals| - 1 - (i + 1)) >= left;
      }
    }
    if InTime(kept, next, rest) {
      forall i | 0 < i < |arrivals| ensures have + Sum(arrivals[..i]) + (|arrivals| - 1 - i) >= left {
        if i > 1 {
          assert kept + Sum(rest[..i - 1]) + (|rest| - 1 - (i - 1)) >= next;
        }
      }
    }
  }

  /**
   * A queue wait succeeds, by the last poll, if and only if the completions arrive in time for one to be read at each
   * poll and one poll is left to notice that none is awaited any more.
   */
  lemma {:induction false} QueueWaitSucceeds(have: nat, left: nat, arrivals: seq<nat>)
    ensures WaitRun(false, have, left, arrivals).done <==> InTime(have, left, arrivals)
    decreases |arrivals|
  {
    if |arrivals| > 0 && left > 0 {
      var more := have + arrivals[0];
      InTimeNext(have, left, arrivals);
      if more > 0 {
        QueueWaitSucceeds(more - 1, left - 1, arrivals[1..]);
      } else {
        QueueWaitSucceeds(0, left, arrivals[1..]);
      }
    }
  }

  /** The completions of one direction, `unread` until a wait consumes them or resets the counter. */
  class Completions {
    var unread: nat

    constructor ()
      ensures unread == 0
    {
      unread := 0;
    }

    /** `wait_for_comp` for `num` completions followed, for a counter, by its reset; gives up after the last poll. */
    method Wait(counting: bool, num: nat, arrivals: seq<nat>) returns (done: bool, left: nat)
      modifies this
      ensures Waited(unread, left, done) == WaitRun(counting, old(unread), num, arrivals)
      ensures counting ==> (done <==> exists k :: EnoughBy(old(unread), num, arrivals, k))
      ensures !counting ==> (done <==> InTime(old(unread), num, arrivals))
    {
      CounterWaitSucceeds(unread, num, arrivals);
      QueueWaitSucceeds(unread, num, arrivals);
      hide InTime, EnoughBy;
      done, left := false, num;
      var k := 0;
      while k < |arrivals|
        invariant k <= |arrivals| && !done
        invariant WaitRun(counting, unread, left, arrivals[k..]) == WaitRun(counting, old(unread), num, arrivals)
      {
        assert arrivals[k..][1..] == arrivals[k + 1..];
        unread := unread + arrivals[k];
        if counting {
          if unread >= left {
            unread, left, done := 0, 0, true;
            return;
          }
        } else if left == 0 {
          done := true;
          return;
        } else if unread > 0 {
          unread, left := unread - 1, left - 1;
        }
        k := k + 1;
      }
    }
  }
}
