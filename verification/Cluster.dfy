/** The ranks with their tables in memory: each step works in place on the arrays. */
module Cluster {
  import opened PowersOfTwo
  import opened Words
  import opened WordNumbers
  import opened Lfsr
  import opened TableLayout
  import opened RandomAccess
  import JumpAhead
  import RankOrder
  import Collectives
  import CollectiveMachine
  import Reduction
  import Fairness
  import Multiples
  import Totals

  class Machine {
    const layout: Layout
    const tables: seq<array<Word>>
    var procs: seq<Proc>

    ghost predicate Valid()
      reads this
    {
      && Runnable(layout)
      && |tables| == |procs| == layout.ranks
      && (forall q :: 0 <= q < |tables| ==> tables[q].Length == layout.LocalSize(q))
      && (forall a, b :: 0 <= a < b < |tables| ==> tables[a] != tables[b])
    }

    ghost function View(): (s: State)
      reads this, tables
      ensures |s.tables| == |tables| && s.procs == procs
      ensures forall q :: 0 <= q < |tables| ==> s.tables[q] == tables[q][..]
    {
      State(seq<seq<Word>>(|tables|, q requires 0 <= q < |tables| reads this, tables => tables[q][..]), procs)
    }

    constructor (layout: Layout, tables: seq<array<Word>>)
      requires Runnable(layout) && |tables| == layout.ranks
      requires forall q :: 0 <= q < |tables| ==> tables[q].Length == layout.LocalSize(q)
      requires forall a, b :: 0 <= a < b < |tables| ==> tables[a] != tables[b]
      ensures this.layout == layout && this.tables == tables
      ensures Valid() && Initial(layout, View())
    {
      this.layout := layout;
      this.tables := tables;
      this.procs := seq(layout.ranks, q => Proc(0, 0, false, Zero(), Zero(), 0));
    }

    /** A store into one entry of one rank's table. */
    method Store(pe: nat, index: nat, w: Word)
      requires Valid() && pe < |tables| && index < tables[pe].Length
      modifies tables[pe]
      ensures Valid() && procs == old(procs)
      ensures View() == State(SetTable(old(View()), pe, index, w), procs)
    {
      ghost var before := View();
      tables[pe][index] := w;
      ghost var after := SetTable(before, pe, index, w);
      assert forall q :: 0 <= q < |tables| && q != pe ==> tables[q][..] == before.tables[q];
      assert forall q :: 0 <= q < |tables| ==> View().tables[q] == after[q];
    }

    /** Entering or leaving the barrier at the end of rank r's phase. */
    method Barrier(r: nat)
      requires Valid() && Inv(layout, View()) && r < layout.ranks
      requires procs[r].waiting || procs[r].pos == Limit(layout, r, procs[r].phase)
      modifies this`procs
      ensures Valid() && View() == Step(layout, old(View()), r)
    {
      hide Iterate, TablesInv, InStep, Runnable, layout.Start, layout.LocalSize;
      var p := procs[r];
      if p.waiting {
        if p.phase < LAST && forall q :: 0 <= q < |procs| ==> Arrived(procs[q], p.phase) {
          procs := procs[r := p.(phase := p.phase + 1, pos := 0, waiting := false, ran := p.saved)];
        }
      } else if p.phase < LAST {
        var saved := p.saved;
        if p.phase == 0 {
          SeedInRange(layout, r);
          saved := JumpAhead.GenerateInitialXorVal(4 * layout.Start(r));
        }
        procs := procs[r := p.(waiting := true, saved := saved)];
      }
    }

    /** One item of the loop of rank r's phase. */
    method DoItem(r: nat)
      requires Valid() && Inv(layout, View()) && r < layout.ranks
      requires !procs[r].waiting && procs[r].pos != Limit(layout, r, procs[r].phase)
      modifies this`procs, tables
      ensures Valid() && View() == Step(layout, old(View()), r)
    {
      hide Xor, FromNat, Masked, Shift, Iterate, TablesInv;
      hide InStep, Runnable, SetTable, ApplyUpdate, layout.Place, layout.Start, layout.LocalSize;
      var p := procs[r];
      ghost var s := View();
      match WorkAt(p.phase) {
        case Fill =>
          Store(r, p.pos, FromNat(layout.Start(r) + p.pos));
          procs := procs[r := p.(pos := p.pos + 1)];
        case Update =>
          var ran := Shift(p.ran);
          ghost var at := Masked(ran, layout.size);
          ApplyUpdateEffect(layout, s, r, at);
          var (pe, index) := layout.Place(Masked(ran, layout.size));
          Store(pe, index, Xor(tables[pe][index], ran));
          procs := procs[r := p.(pos := p.pos + 1, ran := ran)];
        case Check =>
          var errors := p.errors;
          if tables[r][p.pos] != FromNat(layout.Start(r) + p.pos) {
            errors := errors + 1;
          }
          procs := procs[r := p.(pos := p.pos + 1, errors := errors)];
        case Quiet =>
      }
    }

    /** One step of rank r. */
    method Tick(r: nat)
      requires Valid() && Inv(layout, View()) && r < layout.ranks
      modifies this`procs, tables
      ensures Valid() && View() == Step(layout, old(View()), r) && Inv(layout, View())
    {
      ghost var s := View();
      StepPreserves(layout, s, r);
      if procs[r].waiting || procs[r].pos == Limit(layout, r, procs[r].phase) {
        Barrier(r);
      } else {
        DoItem(r);
      }
    }

    /** Any interleaving of the ranks. */
    method Execute(schedule: seq<nat>)
      requires Valid() && Inv(layout, View())
      requires forall k :: 0 <= k < |schedule| ==> schedule[k] < layout.ranks
      modifies this`procs, tables
      ensures Valid() && View() == Run(layout, old(View()), schedule)
    {
      hide Step, Inv, Runnable;
      ghost var s := View();
      for n := 0 to |schedule|
        invariant Valid() && Inv(layout, View())
        invariant View() == Run(layout, s, schedule[..n])
      {
        assert schedule[..n + 1][..n] == schedule[..n];
        Tick(schedule[n]);
      }
      assert schedule[..|schedule|] == schedule;
    }
  }

  lemma SeedInRange(L: Layout, r: nat)
    requires Runnable(L) && r < L.ranks
    ensures 4 * L.Start(r) < 0x1_0000_0000_0000_0000
  {
    hide L.Start;
    L.StartMonotone(r, L.ranks);
    L.StartEnds();
    var k: nat :| k <= 61 && L.size == Pow2(k);
    Pow2Monotone(k, 61);
    Pow2Values();
    Pow2Sum(61, 2);
  }

  /** What every rank contributes to the final reduction. */
  function Errors(procs: seq<Proc>): (e: seq<nat>)
    ensures |e| == |procs| && forall q :: 0 <= q < |procs| ==> e[q] == procs[q].errors
  {
    seq(|procs|, q requires 0 <= q < |procs| => procs[q].errors)
  }

  /** The reduction of the error counts: every rank gathers all counts and sums its own buffer. */
  method SumErrors(errors: seq<nat>, gather: seq<seq<Collectives.Action>>) returns (reports: seq<seq<int>>)
    requires |errors| >= 1 && forall r :: 0 <= r < |errors| ==> errors[r] < Reduction.Power256(8)
    requires forall b, k :: 0 <= b < |gather| && 0 <= k < |gather[b]| ==> gather[b][k].rank < |errors|
    ensures |reports| == |errors|
    ensures forall r :: 0 <= r < |reports| ==>
              reports[r] == [] || reports[r] == [Totals.Sum(errors)]
    ensures Collectives.FairJob(1, |errors|, gather) ==> forall r :: 0 <= r < |reports| ==> |reports[r]| == 1
  {
    hide Collectives.FairJob, Collectives.Delivered, Collectives.Reaches, Reduction.Reduce, Reduction.Power256;
    var n := |errors|;
    var calls := [Reduction.IntCall(errors, 8)];
    var results, s, actions, t := CollectiveMachine.Perform(calls, n, gather);
    reports := [];
    for r := 0 to n
      invariant |reports| == r
      invariant forall q :: 0 <= q < r ==>
                  reports[q] == [] || reports[q] == [Totals.Sum(errors)]
      invariant forall q :: 0 <= q < r ==> |results[q]| >= 1 ==> |reports[q]| == 1
    {
      if |results[r]| == 0 {
        reports := reports + [[]];
      } else {
        Reduction.EveryRankSums(errors, Reduction.Power256(8) - 1, 8, calls, s, actions, t, r, 0);
        var sum := Reduction.Allreduce(RankOrder.Add, Reduction.FromBytes, results[r][0], n, 8);
        reports := reports + [[sum]];
      }
    }
  }

  /**
   * The two passes and the check. When all ranks have finished, as they do under every schedule that starves none,
   * every table again holds its own global indices; no rank ever counts an error.
   */
  method RunPasses(layout: Layout, tables: seq<array<Word>>, blocks: seq<seq<nat>>)
    returns (finished: bool, errors: seq<nat>, ghost start: State, ghost schedule: seq<nat>, ghost end: State)
    requires Runnable(layout) && |tables| == layout.ranks
    requires forall q :: 0 <= q < |tables| ==> tables[q].Length == layout.LocalSize(q)
    requires forall a, b :: 0 <= a < b < |tables| ==> tables[a] != tables[b]
    requires forall b, k :: 0 <= b < |blocks| && 0 <= k < |blocks[b]| ==> blocks[b][k] < layout.ranks
    modifies tables
    ensures schedule == Fairness.Flatten(blocks) && Reaches(layout, start, schedule, end)
    ensures |end.tables| == |tables| && forall q :: 0 <= q < |tables| ==> end.tables[q] == tables[q][..]
    ensures finished <==> AllFinished(layout, end)
    ensures FairBenchmark(layout, blocks) ==> finished
    ensures |errors| == layout.ranks && forall q :: 0 <= q < layout.ranks ==> errors[q] == 0
    ensures finished ==> forall q, i :: 0 <= q < |tables| && 0 <= i < tables[q].Length ==>
              tables[q][i] == FromNat(layout.Start(q) + i)
  {
    hide Inv, Run, Runnable, layout.LocalSize, layout.Start, FromNat, FairBenchmark, TotalNeeded;
    var machine := new Machine(layout, tables);
    start := machine.View();
    InitialInv(layout, start);
    var order: seq<nat> := Fairness.Flatten(blocks);
    Fairness.FlattenAll(r => r < layout.ranks, blocks, order);
    machine.Execute(order);
    schedule, end := order, machine.View();
    assert Reaches(layout, start, schedule, end);
    hide Reaches;
    VerificationFindsNoError(layout, start, schedule, end);
    if FairBenchmark(layout, blocks) {
      FairRunFinishes(layout, start, blocks, schedule, end);
    }
    finished := forall q :: 0 <= q < |machine.procs| ==> Finished(machine.procs[q]);
    errors := Errors(machine.procs);
    if finished {
      assert machine.procs[0].phase >= 8;
    }
  }

  /** The benchmark from start to report: the sum each rank computes from its own gathered counts is 0. */
  method RunBenchmark(layout: Layout, tables: seq<array<Word>>, blocks: seq<seq<nat>>,
                      gather: seq<seq<Collectives.Action>>)
    returns (finished: bool, reports: seq<seq<int>>, ghost start: State, ghost schedule: seq<nat>, ghost end: State)
    requires Runnable(layout) && |tables| == layout.ranks
    requires forall q :: 0 <= q < |tables| ==> tables[q].Length == layout.LocalSize(q)
    requires forall a, b :: 0 <= a < b < |tables| ==> tables[a] != tables[b]
    requires forall b, k :: 0 <= b < |blocks| && 0 <= k < |blocks[b]| ==> blocks[b][k] < layout.ranks
    requires forall b, k :: 0 <= b < |gather| && 0 <= k < |gather[b]| ==> gather[b][k].rank < layout.ranks
    modifies tables
    ensures schedule == Fairness.Flatten(blocks) && Reaches(layout, start, schedule, end)
    ensures |end.tables| == |tables| && forall q :: 0 <= q < |tables| ==> end.tables[q] == tables[q][..]
    ensures finished <==> AllFinished(layout, end)
    ensures FairBenchmark(layout, blocks) ==> finished
    ensures finished ==> forall q, i :: 0 <= q < |tables| && 0 <= i < tables[q].Length ==>
              tables[q][i] == FromNat(layout.Start(q) + i)
    ensures |reports| == layout.ranks
    ensures forall r :: 0 <= r < layout.ranks ==> reports[r] == [] || reports[r] == [0]
    ensures finished && Collectives.FairJob(1, layout.ranks, gather) ==>
              forall r :: 0 <= r < layout.ranks ==> reports[r] == [0]
  {
    hide Inv, Run, Runnable, Reaches, layout.LocalSize, layout.Start, FromNat, FairBenchmark, AllFinished;
    hide Collectives.FairJob, Reduction.Power256;
    var errors: seq<nat>;
    finished, errors, start, schedule, end := RunPasses(layout, tables, blocks);
    if finished {
      Totals.SumBound(errors, 0);
      Multiples.TimesProduct(layout.ranks, 0);
      reports := SumErrors(errors, gather);
    } else {
      reports := seq(layout.ranks, r => []);
    }
  }
}
