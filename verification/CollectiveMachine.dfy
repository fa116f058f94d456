/** The collectives in memory: one key-value store and the ranks' records, updated in place. */
module CollectiveMachine {
  import opened Codec
  import opened Keys
  import opened Collectives
  import Fairness

  class Job {
    var store: map<string, seq<Byte>>
    var procs: seq<Proc>

    ghost function View(): State
      reads this
    {
      State(store, procs)
    }

    constructor (ranks: nat)
      ensures Initial(View()) && |procs| == ranks
    {
      store := map[];
      procs := seq(ranks, r => FreshProc());
    }

    /** The store makes rank r's committed value visible. */
    method MakeVisible(r: nat)
      requires r < |procs|
      modifies this
      ensures View() == Publish(old(View()), r)
    {
      var p := procs[r];
      if p.pending.Put1? {
        store := store[p.pending.key := p.pending.value];
        procs := procs[r := p.(pending := Nothing)];
      }
    }

    /** The beginning of a call: the static counter advances, and a contributor puts and commits its value. */
    method Contribute(call: Call, r: nat)
      requires r < |procs| && r < |call.data|
      modifies this`procs
      ensures View() == old(View()).(procs := old(procs)[r := DoPut(call, old(View()), r)])
    {
      var p := procs[r];
      var count := p.gathers;
      if call.kind == Gather {
        p := p.(gathers := p.gathers + 1);
      } else {
        count := p.casts;
        p := p.(casts := p.casts + 1);
      }
      if call.kind == Gather || r == 0 {
        var key := Key(call.kind, count, r);
        if key in store || p.pending.Put1? {
          p := p.(failed := true);
        } else {
          p := p.(stage := Enter, pending := Put1(key, Encode(call.data[r])));
        }
      } else {
        p := p.(stage := Enter);
      }
      procs := procs[r := p];
    }

    /** After the first barrier: one round of the receiving loop of a gather, or the one receive of a broadcast. */
    method Fetch(call: Call, r: nat)
      requires r < |procs| && r < |call.data|
      modifies this`procs
      ensures View() == old(View()).(procs := old(procs)[r := DoCollect(call, old(View()), r)])
    {
      var p := procs[r];
      if call.kind == Gather && p.got >= |procs| {
        p := FinishCall(p, p.target);
      } else if call.kind == Cast && r == 0 {
        p := p.(stage := EnterAgain, target := call.data[0]);
      } else {
        var from := if call.kind == Gather then p.got else 0;
        var key := CurrentKey(call, p, from);
        if key !in store {
          p := p.(failed := true);
        } else if call.kind == Gather {
          p := p.(got := p.got + 1, target := p.target + Decode(store[key]));
        } else {
          p := p.(stage := EnterAgain, target := Decode(store[key]));
        }
      }
      procs := procs[r := p];
    }

    /** One step of rank r. */
    method Tick(calls: seq<Call>, r: nat)
      requires Program(calls, |procs|) && r < |procs|
      modifies this
      ensures View() == Step(calls, old(View()), r)
    {
      hide DoPut, DoCollect, Key, Encode, Decode;
      var p := procs[r];
      if p.failed || p.call >= |calls| {
        return;
      }
      match p.stage {
        case Put => Contribute(calls[p.call], r);
        case Enter =>
          MakeVisible(r);
          procs := procs[r := procs[r].(stage := Wait, entered := procs[r].entered + 1)];
        case Wait =>
          if forall q :: 0 <= q < |procs| ==> procs[q].entered >= p.entered {
            procs := procs[r := p.(stage := Collect)];
          }
        case Collect => Fetch(calls[p.call], r);
        case EnterAgain => procs := procs[r := p.(stage := WaitAgain, entered := p.entered + 1)];
        case WaitAgain =>
          if forall q :: 0 <= q < |procs| ==> procs[q].entered >= p.entered {
            procs := procs[r := FinishCall(p, p.target)];
          }
      }
    }

    /** Any interleaving of the ranks and of values becoming visible. */
    method Execute(calls: seq<Call>, actions: seq<Action>)
      requires Inv(calls, View())
      requires forall k :: 0 <= k < |actions| ==> actions[k].rank < |procs|
      modifies this
      ensures |procs| == old(|procs|) && View() == Run(calls, old(View()), actions)
    {
      hide Step, Publish, Inv;
      ghost var s := View();
      for n := 0 to |actions|
        invariant Inv(calls, View()) && |procs| == old(|procs|)
        invariant View() == Run(calls, s, actions[..n])
      {
        assert actions[..n + 1][..n] == actions[..n];
        InvProgram(calls, View());
        NextPreserves(calls, View(), actions[n]);
        if actions[n].early {
          MakeVisible(actions[n].rank);
        } else {
          Tick(calls, actions[n].rank);
        }
      }
      assert actions[..|actions|] == actions;
    }
  }

  /**
   * All ranks perform the calls; what each completed call left in each rank's buffer is returned. If no rank is starved
   * every rank completes every call.
   */
  method Perform(calls: seq<Call>, ranks: nat, blocks: seq<seq<Action>>)
    returns (results: seq<seq<seq<Byte>>>, ghost s: State, ghost actions: seq<Action>, ghost t: State)
    requires Program(calls, ranks)
    requires forall b, k :: 0 <= b < |blocks| && 0 <= k < |blocks[b]| ==> blocks[b][k].rank < ranks
    ensures actions == Fairness.Flatten(blocks)
    ensures Reaches(calls, s, actions, t) && |t.procs| == |results| == ranks
    ensures forall r :: 0 <= r < ranks ==> results[r] == t.procs[r].results && |results[r]| == t.procs[r].call
    ensures forall r :: 0 <= r < ranks ==> Delivered(calls, ranks, results[r])
    ensures FairJob(|calls|, ranks, blocks) ==> forall r :: 0 <= r < ranks ==> |results[r]| == |calls|
  {
    hide Inv, Run, Delivered, FairJob, Initial;
    var job := new Job(ranks);
    s := job.View();
    InitialInv(calls, s);
    var schedule: seq<Action> := Fairness.Flatten(blocks);
    actions := schedule;
    Fairness.FlattenAll((a: Action) => a.rank < ranks, blocks, schedule);
    job.Execute(calls, schedule);
    t := job.View();
    assert Reaches(calls, s, actions, t);
    if FairJob(|calls|, ranks, blocks) {
      FairRunCompletes(calls, s, blocks, actions, t);
    }
    results := [];
    for r := 0 to ranks
      invariant job.View() == t
      invariant |results| == r && forall q :: 0 <= q < r ==> Delivered(calls, ranks, results[q])
      invariant forall q :: 0 <= q < r ==> results[q] == t.procs[q].results && |results[q]| == t.procs[q].call
    {
      ResultsDelivered(calls, s, actions, t, r);
      results := results + [job.procs[r].results];
    }
  }
}
