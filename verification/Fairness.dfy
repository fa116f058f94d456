/**
 * Termination under fair scheduling, once for all protocols: if every effective step raises a bounded measure and only
 * finished states refuse all the actions that must be scheduled, then a fair schedule finishes.
 */
module Fairness {

  /**
   * `next` leaves the state as it is when an action is not possible; `must` picks the actions a schedule may not
   * starve.
   */
  datatype System<!S, !A> = System(
    next: (S, A) -> S, inv: S -> bool, measure: S -> nat, bound: nat, must: A -> bool, done: S -> bool)

  ghost predicate Progressive<S(!new), A(!new)>(y: System<S, A>) {
    && (forall s, a :: y.inv(s) ==> y.inv(y.next(s, a)))
    && (forall s, a :: y.inv(s) && y.next(s, a) != s ==> y.measure(y.next(s, a)) > y.measure(s))
    && (forall s :: y.inv(s) ==> y.measure(s) <= y.bound)
  }

  /** A state that refuses every action it must be offered is done, and done states stay done. */
  ghost predicate Live<S(!new), A(!new)>(y: System<S, A>) {
    && (forall s :: y.inv(s) && !y.done(s) ==> exists a :: y.must(a) && y.next(s, a) != s)
    && (forall s, a :: y.inv(s) && y.done(s) ==> y.done(y.next(s, a)))
  }

  function Run<S, A>(y: System<S, A>, s: S, actions: seq<A>): S {
    if |actions| == 0 then s
    else y.next(Run(y, s, actions[..|actions| - 1]), actions[|actions| - 1])
  }

  /** The number of actions that change the state. */
  ghost function Effective<S, A>(y: System<S, A>, s: S, actions: seq<A>): nat {
    if |actions| == 0 then 0
    else
      var before := Run(y, s, actions[..|actions| - 1]);
      Effective(y, s, actions[..|actions| - 1]) + if y.next(before, actions[|actions| - 1]) != before then 1 else 0
  }

  /** Under any schedule only a bounded number of actions take effect. */
  lemma {:induction false} EffectiveBounded<S(!new), A(!new)>(y: System<S, A>, s: S, actions: seq<A>)
    requires Progressive(y) && y.inv(s)
    ensures y.inv(Run(y, s, actions))
    ensures y.measure(s) + Effective(y, s, actions) <= y.measure(Run(y, s, actions)) <= y.bound
  {
    if |actions| > 0 {
      EffectiveBounded(y, s, actions[..|actions| - 1]);
    }
  }

  /** Where every effective action raises the measure by one, the measure counts them. */
  lemma {:induction false} EffectiveExact<S(!new), A(!new)>(y: System<S, A>, s: S, actions: seq<A>)
    requires Progressive(y) && y.inv(s)
    requires forall t, a :: y.inv(t) && y.next(t, a) != t ==> y.measure(y.next(t, a)) == y.measure(t) + 1
    ensures y.measure(Run(y, s, actions)) == y.measure(s) + Effective(y, s, actions)
  {
    if |actions| > 0 {
      EffectiveExact(y, s, actions[..|actions| - 1]);
      EffectiveBounded(y, s, actions[..|actions| - 1]);
    }
  }

  lemma {:induction false} RunAppend<S(!new), A(!new)>(y: System<S, A>, s: S, a: seq<A>, b: seq<A>)
    ensures Run(y, s, a + b) == Run(y, Run(y, s, a), b)
  {
    if |b| == 0 {
      assert a + b == a;
    } else {
      assert (a + b)[..|a + b| - 1] == a + b[..|b| - 1];
      RunAppend(y, s, a, b[..|b| - 1]);
    }
  }

  /** A stretch of a run that does not raise the measure changes nothing, and refused each of its actions. */
  lemma {:induction false} QuietStretch<S(!new), A(!new)>(y: System<S, A>, s: S, actions: seq<A>)
    requires Progressive(y) && y.inv(s)
    requires y.measure(Run(y, s, actions)) <= y.measure(s)
    ensures Run(y, s, actions) == s
    ensures forall a :: a in actions ==> y.next(s, a) == s
  {
    if |actions| > 0 {
      var n := |actions| - 1;
      EffectiveBounded(y, s, actions[..n]);
      assert y.inv(Run(y, s, actions[..n]));
      QuietStretch(y, s, actions[..n]);
      assert actions == actions[..n] + [actions[n]];
    }
  }

  function Flatten<A>(blocks: seq<seq<A>>): seq<A> {
    if |blocks| == 0 then [] else Flatten(blocks[..|blocks| - 1]) + blocks[|blocks| - 1]
  }

  /** A schedule consists of what its blocks consist of. */
  lemma {:induction false} FlattenAll<A>(ok: A -> bool, blocks: seq<seq<A>>, actions: seq<A>)
    requires forall b, k :: 0 <= b < |blocks| && 0 <= k < |blocks[b]| ==> ok(blocks[b][k])
    requires actions == Flatten(blocks)
    ensures forall k :: 0 <= k < |actions| ==> ok(actions[k])
  {
    if |blocks| > 0 {
      FlattenAll(ok, blocks[..|blocks| - 1], Flatten(blocks[..|blocks| - 1]));
    }
  }

  /** Every block of the schedule offers every action that must be offered. */
  ghost predicate Fair<A(!new)>(must: A -> bool, blocks: seq<seq<A>>) {
    forall b, a :: 0 <= b < |blocks| && must(a) ==> a in blocks[b]
  }

  /** Taking n turns in order is a block that offers everyone a turn. */
  function RoundRobin(n: nat): (block: seq<nat>)
    ensures |block| == n && forall t :: 0 <= t < n ==> block[t] == t
    ensures forall t :: 0 <= t < n ==> t in block
  {
    if n == 0 then [] else RoundRobin(n - 1) + [n - 1]
  }

  /** A fair block finishes the run or raises the measure. */
  lemma BlockProgress<S(!new), A(!new)>(y: System<S, A>, s: S, block: seq<A>)
    requires Progressive(y) && Live(y) && y.inv(s) && !y.done(s)
    requires forall a :: y.must(a) ==> a in block
    ensures y.measure(Run(y, s, block)) > y.measure(s)
  {
    var a :| y.must(a) && y.next(s, a) != s;
    EffectiveBounded(y, s, block);
    if y.measure(Run(y, s, block)) <= y.measure(s) {
      QuietStretch(y, s, block);
      assert false;
    }
  }

  lemma {:induction false} DoneStays<S(!new), A(!new)>(y: System<S, A>, s: S, actions: seq<A>)
    requires Progressive(y) && Live(y) && y.inv(s) && y.done(s)
    ensures y.done(Run(y, s, actions))
  {
    if |actions| > 0 {
      DoneStays(y, s, actions[..|actions| - 1]);
      EffectiveBounded(y, s, actions[..|actions| - 1]);
    }
  }

  lemma {:induction false} BlocksProgress<S(!new), A(!new)>(y: System<S, A>, s: S, blocks: seq<seq<A>>)
    requires Progressive(y) && Live(y) && y.inv(s) && Fair(y.must, blocks)
    ensures
      var t := Run(y, s, Flatten(blocks));
      y.done(t) || y.measure(t) >= y.measure(s) + |blocks|
  {
    if |blocks| > 0 {
      var n := |blocks| - 1;
      var front := Flatten(blocks[..n]);
      var t := Run(y, s, front);
      assert Fair(y.must, blocks[..n]);
      BlocksProgress(y, s, blocks[..n]);
      EffectiveBounded(y, s, front);
      RunAppend(y, s, front, blocks[n]);
      if y.done(t) {
        DoneStays(y, t, blocks[n]);
      } else {
        BlockProgress(y, t, blocks[n]);
      }
    }
  }

  /** More fair blocks than the measure has room for finish every run. */
  lemma FairRunEnds<S(!new), A(!new)>(y: System<S, A>, s: S, blocks: seq<seq<A>>)
    requires Progressive(y) && Live(y) && y.inv(s) && Fair(y.must, blocks) && |blocks| > y.bound
    ensures y.done(Run(y, s, Flatten(blocks)))
  {
    BlocksProgress(y, s, blocks);
    EffectiveBounded(y, s, Flatten(blocks));
  }
}
