/** The barrier and its client `thread_fn` in memory. */
module BarrierMachine {
  import opened Multiples
  import opened ThreadBarrier
  import Fairness

  /** The shared words and the per-thread records that `main` keeps across spawns. */
  class Barrier {
    const counter: array<int>
    const signal: array<int>
    const threads: array<Thread>

    ghost predicate Valid()
      reads threads
    {
      && counter != signal
      && counter.Length == signal.Length == 2
      && threads.Length >= 1
      && forall t :: 0 <= t < threads.Length ==> |threads[t].phase| == 2 && 0 <= threads[t].slot < 2
    }

    ghost function View(): State
      reads counter, signal, threads
    {
      State(counter[..], signal[..], threads[..])
    }

    /** `ct_tbarrier_init` for every thread, on zeroed shared words. */
    constructor (njoiners: nat)
      requires njoiners >= 1
      ensures Valid() && Initial(View()) && threads.Length == njoiners
      ensures fresh(counter) && fresh(signal) && fresh(threads)
    {
      counter := new int[2](i => 0);
      signal := new int[2](i => 0);
      threads := new Thread[njoiners](i => FreshThread());
      new;
      assert counter[..] == [0, 0] && signal[..] == [0, 0];
    }

    /** One atomic operation of thread t's current call. */
    method Tick(limit: nat, t: nat)
      requires Valid() && Shape(View()) && t < threads.Length
      modifies counter, signal, threads
      ensures Valid() && View() == Step(old(View()), limit, t)
    {
      var th := threads[t];
      match th.control {
        case Outside =>
          if th.calls < limit {
            var njoiners := counter[th.slot];
            counter[th.slot] := njoiners + 1;
            threads[t] := th.(control := if njoiners + 1 == threads.Length then Reset else Spin);
          }
        case Reset =>
          counter[th.slot] := 0;
          threads[t] := th.(control := Signal);
        case Signal =>
          signal[th.slot] := 1 - th.phase[th.slot];
          threads[t] := th.(control := Flip);
        case Spin =>
          var val := signal[th.slot];
          if val != th.phase[th.slot] {
            threads[t] := th.(control := Flip);
          }
        case Flip =>
          threads[t] := Thread(th.phase[th.slot := 1 - th.phase[th.slot]], 1 - th.slot, Outside, th.calls + 1);
      }
    }

    /** Any interleaving of the threads' operations. */
    method Execute(limit: nat, schedule: seq<nat>, ghost tr: Trace) returns (ghost r: Trace)
      requires Valid() && tr.state == View() && TraceInv(tr)
      requires forall k :: 0 <= k < |schedule| ==> schedule[k] < threads.Length
      modifies counter, signal, threads
      ensures Valid() && r.state == View() && TraceInv(r) && r == Run(tr, limit, schedule)
    {
      hide ThreadInv, LeaderInv, NoLeader, Step;
      r := tr;
      for n := 0 to |schedule|
        invariant Valid() && r.state == View() && TraceInv(r)
        invariant r == Run(tr, limit, schedule[..n])
      {
        assert schedule[..n + 1][..n] == schedule[..n];
        ElectionPreserves(r, limit, schedule[n]);
        r := NextTrace(r, limit, schedule[n]);
        Tick(limit, schedule[n]);
      }
      assert schedule[..|schedule|] == schedule;
    }
  }

  /** The schedule of one spawn: blocks that each name all n threads, enough of them for `limit` calls in all. */
  ghost predicate FairSpawn(blocks: seq<seq<nat>>, n: nat, limit: nat) {
    var schedule: seq<nat> := Fairness.Flatten(blocks);
    && (forall k :: 0 <= k < |schedule| ==> schedule[k] < n)
    && (forall b, t :: 0 <= b < |blocks| && 0 <= t < n ==> t in blocks[b])
    && |blocks| > Times(n, 5 * limit)
  }

  /** Taking turns is such a schedule. */
  lemma TurnsAreFair(n: nat, limit: nat)
    ensures FairSpawn(seq(Times(n, 5 * limit) + 1, _ => Fairness.RoundRobin(n)), n, limit)
  {
    hide Times;
    var blocks: seq<seq<nat>> := seq(Times(n, 5 * limit) + 1, _ => Fairness.RoundRobin(n));
    Fairness.FlattenAll(t => t < n, blocks, Fairness.Flatten(blocks));
  }

  /** All threads are between spawns, and the words they share are those of m spawns of two calls each. */
  ghost predicate Reusable(s: State, m: nat) {
    && AllDone(s, 2 * m)
    && s.counter == [0, 0] && s.signal == [m % 2, m % 2]
    && forall t :: 0 <= t < |s.threads| ==> s.threads[t].slot == 0 && s.threads[t].phase == [m % 2, m % 2]
  }

  /** Once all threads have made the calls of m spawns, the barrier can be used again. */
  lemma SpawnsReusable(tr: Trace, m: nat)
    requires TraceInv(tr) && AllDone(tr.state, 2 * m)
    ensures Reusable(tr.state, m) && WithinLimit(tr.state, 2 * (m + 1))
  {
    hide ThreadInv, LeaderInv, PhaseAfter, CountIn;
    StateAfterSpawns(tr.state, tr.open, m);
  }

  lemma SpawnFinishes(tr: Trace, m: nat, blocks: seq<seq<nat>>, schedule: seq<nat>)
    requires TraceInv(tr) && AllDone(tr.state, 2 * m) && schedule == Fairness.Flatten(blocks)
    requires FairSpawn(blocks, |tr.state.threads|, 2 * (m + 1))
    ensures Reusable(Run(tr, 2 * (m + 1), schedule).state, m + 1)
  {
    hide TraceInv, AllDone, WithinLimit, Run, Reusable;
    SpawnsReusable(tr, m);
    FairRunFinishes(tr, 2 * (m + 1), blocks, schedule);
    SpawnsReusable(Run(tr, 2 * (m + 1), schedule), m + 1);
  }

  /**
   * The size loop of `main`: one initialisation, then one spawn of all threads for each size. Whatever the
   * interleaving, a spawn that starves no thread ends, and it leaves the barrier valid for the next one.
   */
  method SpawnLoop(njoiners: nat, spawns: seq<seq<seq<nat>>>) returns (barrier: Barrier)
    requires njoiners >= 1
    requires forall m :: 0 <= m < |spawns| ==> FairSpawn(spawns[m], njoiners, 2 * (m + 1))
    ensures fresh(barrier) && barrier.Valid() && barrier.threads.Length == njoiners
    ensures Reusable(barrier.View(), |spawns|)
  {
    hide Inv, Run, FairSpawn;
    barrier := new Barrier(njoiners);
    InitialInv(barrier.View());
    InitialReusable(barrier.View());
    ghost var tr := Trace(barrier.View(), 0, 0);
    for m := 0 to |spawns|
      invariant fresh(barrier.counter) && fresh(barrier.signal) && fresh(barrier.threads)
      invariant barrier.Valid() && barrier.threads.Length == njoiners
      invariant TraceInv(tr) && tr.state == barrier.View() && Reusable(tr.state, m)
    {
      var schedule: seq<nat> := Fairness.Flatten(spawns[m]);
      ScheduleInRange(spawns[m], njoiners, 2 * (m + 1), schedule);
      SpawnFinishes(tr, m, spawns[m], schedule);
      tr := barrier.Execute(2 * (m + 1), schedule, tr);
    }
  }

  lemma InitialReusable(s: State)
    requires Initial(s)
    ensures TraceInv(Trace(s, 0, 0)) && Reusable(s, 0)
  {
    InitialInv(s);
  }

  lemma ScheduleInRange(blocks: seq<seq<nat>>, n: nat, limit: nat, schedule: seq<nat>)
    requires FairSpawn(blocks, n, limit) && schedule == Fairness.Flatten(blocks)
    ensures forall k :: 0 <= k < |schedule| ==> schedule[k] < n
  {}

  /**
   * The loop of a sending thread: the byte count covers exactly the measured iterations, and every write, of warm-up
   * and measured iterations alike, is awaited before the next iteration.
   */
  method BytesSent(loop: nat, skip: nat, window: nat, size: nat) returns (bytes: nat, writes: nat, awaited: nat)
    requires loop >= 1
    ensures bytes == loop * (window * size)
    ensures writes == awaited == (loop + skip) * window
  {
    bytes, writes, awaited := 0, 0, 0;
    for i := 0 to loop + skip
      invariant i <= skip ==> bytes == Times(i, Times(window, size))
      invariant i > skip ==> bytes == Times(i - skip, Times(window, size))
      invariant writes == awaited == Times(i, window)
    {
      if i == skip {
        bytes := 0;
      }
      ghost var before := bytes;
      for j := 0 to window
        invariant bytes == before + Times(j, size) && writes == awaited + j
      {
        writes := writes + 1;
        bytes := bytes + size;
      }
      awaited := awaited + window;
    }
    TimesProduct(window, size);
    TimesProduct(loop, window * size);
    TimesProduct(loop + skip, window);
  }
}
