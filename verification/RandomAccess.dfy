/** The distributed benchmark: every rank runs its part of `random_access`, in any interleaving. */
module RandomAccess {
  import opened PowersOfTwo
  import opened Words
  import opened WordNumbers
  import opened Lfsr
  import opened TableLayout
  import opened UpdateStream
  import Fairness

  /** What a rank does between two consecutive barriers. */
  datatype Work = Fill | Update | Quiet | Check

  /** Phases are separated by barriers; phases 2 to 6 lie between the barriers around the result broadcast. */
  const LAST: nat := 9

  function WorkAt(phase: nat): Work {
    if phase == 0 then Fill
    else if phase == 1 || phase == 7 then Update
    else if phase == 8 then Check
    else Quiet
  }

  /** `pos` counts the items of the phase done so far; `waiting` is set between entering and leaving a barrier. */
  datatype Proc = Proc(phase: nat, pos: nat, waiting: bool, saved: Word, ran: Word, errors: nat)

  datatype State = State(tables: seq<seq<Word>>, procs: seq<Proc>)

  /** A table of at most 2^61 entries, in blocks whose indices fit in an int. */
  ghost predicate Runnable(L: Layout)
    ensures Runnable(L) ==> L.Valid()
  {
    L.Valid() && L.LocalSize(0) <= TWO31 && exists k: nat :: k <= 61 && L.size == Pow2(k)
  }

  function Limit(L: Layout, rank: nat, phase: nat): nat
    requires L.Valid()
  {
    match WorkAt(phase)
    case Fill => L.LocalSize(rank)
    case Update => 4 * L.LocalSize(rank)
    case Quiet => 0
    case Check => L.LocalSize(rank)
  }

  ghost predicate Shape(L: Layout, s: State)
    requires L.Valid()
  {
    && |s.tables| == |s.procs| == L.ranks
    && (forall r :: 0 <= r < L.ranks ==> |s.tables[r]| == L.LocalSize(r))
    && (forall r :: 0 <= r < L.ranks ==> s.procs[r].phase <= LAST)
    && (forall r :: 0 <= r < L.ranks ==> s.procs[r].pos <= Limit(L, r, s.procs[r].phase))
  }

  predicate Arrived(p: Proc, phase: nat) {
    p.phase > phase || (p.phase == phase && p.waiting)
  }

  /** Every rank has entered the barrier that ends `phase`. */
  predicate BarrierOpen(s: State, phase: nat) {
    forall q :: 0 <= q < |s.procs| ==> Arrived(s.procs[q], phase)
  }

  lemma TargetExists(L: Layout, w: Word)
    requires Runnable(L)
    ensures Masked(w, L.size) < L.size
    ensures L.PlacedRight(Masked(w, L.size))
  {
    hide Masked;
    var k: nat :| k <= 61 && L.size == Pow2(k);
    MaskedInRange(w, k);
    L.PlacementExact();
  }

  function SetTable(s: State, r: nat, i: nat, w: Word): seq<seq<Word>>
    requires r < |s.tables| && i < |s.tables[r]|
  {
    var row: seq<Word> := s.tables[r][i := w];
    s.tables[r := row]
  }

  function ApplyUpdate(L: Layout, s: State, r: nat): State
    requires Runnable(L) && Shape(L, s) && r < L.ranks
  {
    var ran := Shift(s.procs[r].ran);
    TargetExists(L, ran);
    var (pe, index) := L.Place(Masked(ran, L.size));
    State(SetTable(s, pe, index, Xor(s.tables[pe][index], ran)),
          s.procs[r := s.procs[r].(pos := s.procs[r].pos + 1, ran := ran)])
  }

  /** One atomic step of rank r; a rank that must wait, or has finished, leaves the state as it is. */
  function Step(L: Layout, s: State, r: nat): State
    requires Runnable(L) && Shape(L, s) && r < L.ranks
  {
    var p := s.procs[r];
    if p.waiting then
      if p.phase < LAST && BarrierOpen(s, p.phase) then
        s.(procs := s.procs[r := p.(phase := p.phase + 1, pos := 0, waiting := false, ran := p.saved)])
      else s
    else if p.pos == Limit(L, r, p.phase) then
      if p.phase == LAST then s
      else
        var saved := if p.phase == 0 then Value(4 * L.Start(r)) else p.saved;
        s.(procs := s.procs[r := p.(waiting := true, saved := saved)])
    else
      match WorkAt(p.phase)
      case Fill =>
        State(SetTable(s, r, p.pos, FromNat(L.Start(r) + p.pos)), s.procs[r := p.(pos := p.pos + 1)])
      case Update => ApplyUpdate(L, s, r)
      case Check =>
        var bad := if s.tables[r][p.pos] != FromNat(L.Start(r) + p.pos) then 1 else 0;
        s.(procs := s.procs[r := p.(pos := p.pos + 1, errors := p.errors + bad)])
      case Quiet => s
  }

  ghost predicate Initial(L: Layout, s: State)
    requires L.Valid()
  {
    && Shape(L, s)
    && forall r :: 0 <= r < L.ranks ==>
         s.procs[r].phase == 0 && s.procs[r].pos == 0 && !s.procs[r].waiting && s.procs[r].errors == 0
  }

  /** How many updates of the pass in `phase` a rank has applied. */
  function Progress(L: Layout, r: nat, p: Proc, phase: nat): nat
    requires L.Valid()
  {
    if p.phase < phase then 0 else if p.phase == phase then p.pos else 4 * L.LocalSize(r)
  }

  function Done(L: Layout, s: State, phase: nat): (d: seq<nat>)
    requires L.Valid() && |s.procs| == L.ranks
    ensures |d| == L.ranks
    ensures forall q :: 0 <= q < L.ranks ==> d[q] == Progress(L, q, s.procs[q], phase)
  {
    seq(L.ranks, q requires 0 <= q < L.ranks => Progress(L, q, s.procs[q], phase))
  }

  /** The XOR of all updates of one pass applied so far to entry g. */
  function Applied(L: Layout, s: State, phase: nat, g: nat): Word
    requires L.Valid() && |s.procs| == L.ranks
  {
    RankUpdates(L, Done(L, s, phase), L.ranks, g)
  }

  function Expected(L: Layout, s: State, g: nat): Word
    requires L.Valid() && |s.procs| == L.ranks
  {
    Xor(FromNat(g), Xor(Applied(L, s, 1, g), Applied(L, s, 7, g)))
  }

  predicate Filled(p: Proc, i: nat) {
    p.phase > 0 || i < p.pos
  }

  ghost predicate ProcInv(L: Layout, r: nat, p: Proc)
    requires L.Valid()
  {
    && (p.waiting ==> p.phase < LAST && p.pos == Limit(L, r, p.phase))
    && (p.phase > 0 || p.waiting ==> p.saved == Value(4 * L.Start(r)))
    && (WorkAt(p.phase).Update? ==> p.ran == Value(4 * L.Start(r) + p.pos))
    && p.errors == 0
  }

  predicate Adjacent(p: Proc, q: Proc) {
    p.phase <= q.phase + 1 && (p.phase == q.phase + 1 ==> q.waiting)
  }

  ghost predicate InStep(s: State) {
    forall q, r :: 0 <= q < |s.procs| && 0 <= r < |s.procs| ==> Adjacent(s.procs[q], s.procs[r])
  }

  ghost predicate TablesInv(L: Layout, s: State)
    requires L.Valid() && Shape(L, s)
  {
    forall r, i :: 0 <= r < L.ranks && 0 <= i < L.LocalSize(r) && Filled(s.procs[r], i) ==>
      s.tables[r][i] == Expected(L, s, L.Start(r) + i)
  }

  ghost predicate Inv(L: Layout, s: State)
    requires L.Valid()
  {
    && Shape(L, s)
    && InStep(s)
    && (forall r :: 0 <= r < L.ranks ==> ProcInv(L, r, s.procs[r]))
    && TablesInv(L, s)
  }

  lemma InitialInv(L: Layout, s: State)
    requires L.Valid() && Initial(L, s)
    ensures Inv(L, s)
  {}

  /** Steps that only move a rank's control point keep every table's meaning. */
  lemma SameApplied(L: Layout, s: State, t: State)
    requires L.Valid() && Shape(L, s) && Shape(L, t) && TablesInv(L, s)
    requires t.tables == s.tables
    requires Done(L, t, 1) == Done(L, s, 1) && Done(L, t, 7) == Done(L, s, 7)
    requires forall r, i :: 0 <= r < L.ranks && 0 <= i < L.LocalSize(r) && Filled(t.procs[r], i) ==>
               Filled(s.procs[r], i)
    ensures TablesInv(L, t)
  {}

  lemma LeavePreserves(L: Layout, s: State, r: nat)
    requires Runnable(L) && Inv(L, s) && r < L.ranks
    requires s.procs[r].waiting
    ensures Inv(L, Step(L, s, r))
  {
    hide FromNat, Xor, RankUpdates, Shift, Iterate, Done;
    var t := Step(L, s, r);
    if t != s {
      var ph := s.procs[r].phase;
      assert forall q :: 0 <= q < L.ranks ==> Arrived(s.procs[q], ph);
      forall a, b | 0 <= a < L.ranks && 0 <= b < L.ranks ensures Adjacent(t.procs[a], t.procs[b]) {
        assert Adjacent(s.procs[a], s.procs[b]);
        assert Arrived(s.procs[b], ph);
      }
      assert Done(L, t, 1) == Done(L, s, 1);
      assert Done(L, t, 7) == Done(L, s, 7);
      SameApplied(L, s, t);
    }
  }

  lemma ArrivePreserves(L: Layout, s: State, r: nat)
    requires Runnable(L) && Inv(L, s) && r < L.ranks
    requires !s.procs[r].waiting && s.procs[r].pos == Limit(L, r, s.procs[r].phase)
    ensures Inv(L, Step(L, s, r))
  {
    hide FromNat, Xor, RankUpdates, Shift, Iterate, Done;
    var t := Step(L, s, r);
    if t != s {
      forall a, b | 0 <= a < L.ranks && 0 <= b < L.ranks ensures Adjacent(t.procs[a], t.procs[b]) {
        assert Adjacent(s.procs[a], s.procs[b]);
      }
      assert Done(L, t, 1) == Done(L, s, 1);
      assert Done(L, t, 7) == Done(L, s, 7);
      SameApplied(L, s, t);
    }
  }

  /** A work item leaves the ranks in step. */
  lemma WorkKeepsStep(s: State, t: State, r: nat)
    requires InStep(s) && r < |s.procs| == |t.procs|
    requires !s.procs[r].waiting
    requires t.procs == s.procs[r := t.procs[r]]
    requires t.procs[r].phase == s.procs[r].phase && !t.procs[r].waiting
    ensures InStep(t)
  {}

  /** While some rank still fills its table, nobody has applied an update. */
  lemma NothingAppliedYet(L: Layout, s: State, r: nat, g: nat)
    requires L.Valid() && |s.procs| == L.ranks && InStep(s) && r < L.ranks
    requires s.procs[r].phase == 0 && !s.procs[r].waiting
    ensures Expected(L, s, g) == FromNat(g)
  {
    hide FromNat, Xor, RankUpdates;
    forall q | 0 <= q < L.ranks ensures s.procs[q].phase == 0 {
      assert Adjacent(s.procs[q], s.procs[r]);
    }
    RankUpdatesNone(L, Done(L, s, 1), L.ranks, g);
    RankUpdatesNone(L, Done(L, s, 7), L.ranks, g);
    XorZero(Zero());
    XorZero(FromNat(g));
  }

  lemma FillPreserves(L: Layout, s: State, r: nat)
    requires Runnable(L) && Inv(L, s) && r < L.ranks
    requires !s.procs[r].waiting && s.procs[r].phase == 0 && s.procs[r].pos < L.LocalSize(r)
    ensures Inv(L, Step(L, s, r))
  {
    hide FromNat, Xor, Shift, Iterate, Expected, ApplyUpdate, L.Start, L.LocalSize;
    var t := Step(L, s, r);
    WorkKeepsStep(s, t, r);
    forall q, i | 0 <= q < L.ranks && 0 <= i < L.LocalSize(q) && Filled(t.procs[q], i)
      ensures t.tables[q][i] == Expected(L, t, L.Start(q) + i)
    {
      NothingAppliedYet(L, s, r, L.Start(q) + i);
      NothingAppliedYet(L, t, r, L.Start(q) + i);
      if q != r || i != s.procs[r].pos {
        assert Filled(s.procs[q], i);
      }
    }
  }

  lemma XorInsert(f: Word, a: Word, b: Word, h: Word)
    ensures Xor(f, Xor(Xor(a, h), b)) == Xor(Xor(f, Xor(a, b)), h)
    ensures Xor(f, Xor(a, Xor(b, h))) == Xor(Xor(f, Xor(a, b)), h)
  {}

  /** The effect of one update on what every entry should hold. */
  lemma UpdateExpected(L: Layout, s: State, t: State, r: nat, g: nat)
    requires L.Valid() && Shape(L, s) && Shape(L, t) && r < L.ranks
    requires s.procs[r].phase == 1 || s.procs[r].phase == 7
    requires t.procs[r].phase == s.procs[r].phase && t.procs[r].pos == s.procs[r].pos + 1
    requires t.procs == s.procs[r := t.procs[r]]
    ensures Expected(L, t, g) ==
            Xor(Expected(L, s, g), Hit(L.size, 4 * L.Start(r) + s.procs[r].pos + 1, g))
  {
    hide FromNat, Xor, RankUpdates, Hit;
    var ph := s.procs[r].phase;
    var other := 8 - ph;
    assert Done(L, t, other) == Done(L, s, other);
    var d := Done(L, s, ph);
    assert Done(L, t, ph) == d[r := d[r] + 1];
    RankUpdatesStep(L, d, r, L.ranks, g);
    XorInsert(FromNat(g), Applied(L, s, 1, g), Applied(L, s, 7, g),
              Hit(L.size, 4 * L.Start(r) + s.procs[r].pos + 1, g));
  }

  /** Once a rank is past its filling phase, every table is filled. */
  lemma AllFilled(L: Layout, s: State, r: nat, q: nat, i: nat)
    requires L.Valid() && Inv(L, s) && r < L.ranks && q < L.ranks && i < L.LocalSize(q)
    requires s.procs[r].phase > 0
    ensures Filled(s.procs[q], i)
  {}

  lemma SetTableAt(s: State, r: nat, i: nat, w: Word, q: nat, j: nat)
    requires r < |s.tables| && i < |s.tables[r]| && q < |s.tables|
    ensures |SetTable(s, r, i, w)| == |s.tables|
    ensures |SetTable(s, r, i, w)[q]| == |s.tables[q]|
    ensures j < |s.tables[q]| ==>
              SetTable(s, r, i, w)[q][j] == if q == r && j == i then w else s.tables[q][j]
  {}

  /** One XOR at the placed entry. */
  lemma ApplyUpdateEffect(L: Layout, s: State, r: nat, at: nat)
    requires Runnable(L) && Shape(L, s) && r < L.ranks
    requires at == Masked(Shift(s.procs[r].ran), L.size)
    ensures at < L.size && L.PlacedRight(at)
    ensures
      var t := ApplyUpdate(L, s, r);
      var (pe, index) := L.Place(at);
      && 0 <= pe < L.ranks && 0 <= index < L.LocalSize(pe)
      && t.tables == SetTable(s, pe, index, Xor(s.tables[pe][index], Shift(s.procs[r].ran)))
      && t.procs == s.procs[r := t.procs[r]]
      && t.procs[r] == s.procs[r].(pos := s.procs[r].pos + 1, ran := Shift(s.procs[r].ran))
  {
    hide Xor, Masked, Shift, Runnable, SetTable, L.Place, L.Start, L.LocalSize;
    TargetExists(L, Shift(s.procs[r].ran));
  }

  /** The entry changed by an update is the one its value addresses, and no other. */
  lemma UpdateEntry(L: Layout, s: State, r: nat, k: nat, q: nat, i: nat)
    requires Runnable(L) && Shape(L, s) && r < L.ranks && q < L.ranks && i < L.LocalSize(q)
    requires Shift(s.procs[r].ran) == Value(k)
    ensures
      var t := ApplyUpdate(L, s, r);
      && |t.tables| == L.ranks && |t.tables[q]| == L.LocalSize(q)
      && t.tables[q][i] == Xor(s.tables[q][i], Hit(L.size, k, L.Start(q) + i))
  {
    hide Xor, Masked, Shift, Iterate, Runnable, ApplyUpdate, SetTable, L.Place, L.Start, L.LocalSize;
    var at := Masked(Value(k), L.size);
    ApplyUpdateEffect(L, s, r, at);
    var (pe, index) := L.Place(at);
    SetTableAt(s, pe, index, Xor(s.tables[pe][index], Value(k)), q, i);
    var g := L.Start(q) + i;
    XorZero(s.tables[q][i]);
    if g == at {
      L.HolderUnique(g, q, pe);
    }
  }

  lemma UpdateTables(L: Layout, s: State, r: nat, k: nat, t: State)
    requires Runnable(L) && Inv(L, s) && r < L.ranks && t == ApplyUpdate(L, s, r)
    requires WorkAt(s.procs[r].phase).Update? && k == 4 * L.Start(r) + s.procs[r].pos + 1
    requires Shift(s.procs[r].ran) == Value(k) && Shape(L, t)
    requires t.procs == s.procs[r := t.procs[r]]
    requires t.procs[r].phase == s.procs[r].phase && t.procs[r].pos == s.procs[r].pos + 1
    ensures TablesInv(L, t)
  {
    hide Xor, Masked, Shift, Hit, FromNat, Runnable, Iterate, ApplyUpdate, L.Place, L.Start, L.LocalSize, Expected;
    forall q, i | 0 <= q < L.ranks && 0 <= i < L.LocalSize(q)
      ensures t.tables[q][i] == Expected(L, t, L.Start(q) + i)
    {
      AllFilled(L, s, r, q, i);
      UpdateEntry(L, s, r, k, q, i);
      UpdateExpected(L, s, t, r, L.Start(q) + i);
    }
  }

  lemma UpdatePreserves(L: Layout, s: State, r: nat)
    requires Runnable(L) && Inv(L, s) && r < L.ranks
    requires WorkAt(s.procs[r].phase).Update? && !s.procs[r].waiting
    requires s.procs[r].pos < Limit(L, r, s.procs[r].phase)
    ensures Inv(L, Step(L, s, r))
  {
    hide Xor, Masked, Shift, FromNat, Runnable, ApplyUpdate, SetTable, L.Place, L.Start, L.LocalSize, Expected;
    var t := ApplyUpdate(L, s, r);
    var k := 4 * L.Start(r) + s.procs[r].pos + 1;
    assert Shift(s.procs[r].ran) == Value(k);
    hide Iterate;
    var at := Masked(Shift(s.procs[r].ran), L.size);
    ApplyUpdateEffect(L, s, r, at);
    var (pe, index) := L.Place(at);
    forall q | 0 <= q < L.ranks ensures |t.tables| == L.ranks && |t.tables[q]| == L.LocalSize(q) {
      SetTableAt(s, pe, index, Xor(s.tables[pe][index], Shift(s.procs[r].ran)), q, 0);
    }
    WorkKeepsStep(s, t, r);
    assert Shape(L, t);
    UpdateTables(L, s, r, k, t);
  }

  lemma CheckPreserves(L: Layout, s: State, r: nat)
    requires Runnable(L) && Inv(L, s) && r < L.ranks
    requires s.procs[r].phase == 8 && !s.procs[r].waiting && s.procs[r].pos < L.LocalSize(r)
    ensures Inv(L, Step(L, s, r))
  {
    hide Xor, FromNat, Runnable, RankUpdates, Iterate, L.Place, L.Start, L.LocalSize, Done;
    var t := Step(L, s, r);
    AllRestored(L, s, r, r, s.procs[r].pos);
    WorkKeepsStep(s, t, r);
    assert Done(L, t, 1) == Done(L, s, 1);
    assert Done(L, t, 7) == Done(L, s, 7);
    SameApplied(L, s, t);
  }

  /** Once some rank has begun to check, both passes are complete everywhere and have cancelled each other. */
  lemma AllRestored(L: Layout, s: State, r: nat, q: nat, i: nat)
    requires L.Valid() && Inv(L, s) && r < L.ranks && q < L.ranks && i < L.LocalSize(q)
    requires s.procs[r].phase >= 8
    ensures s.tables[q][i] == FromNat(L.Start(q) + i)
  {
    hide Xor, FromNat, RankUpdates, Iterate, L.Start, L.LocalSize;
    AllFilled(L, s, r, q, i);
    var g := L.Start(q) + i;
    forall p | 0 <= p < L.ranks ensures Done(L, s, 1)[p] == Done(L, s, 7)[p] {
      assert Adjacent(s.procs[r], s.procs[p]);
    }
    assert Done(L, s, 1) == Done(L, s, 7);
    XorSelf(Applied(L, s, 1, g));
    XorZero(FromNat(g));
  }

  /** Every step of every rank keeps the invariant. */
  lemma StepPreserves(L: Layout, s: State, r: nat)
    requires Runnable(L) && Inv(L, s) && r < L.ranks
    ensures Inv(L, Step(L, s, r))
  {
    var p := s.procs[r];
    if p.waiting {
      LeavePreserves(L, s, r);
    } else if p.pos == Limit(L, r, p.phase) {
      ArrivePreserves(L, s, r);
    } else {
      match WorkAt(p.phase)
      case Fill => FillPreserves(L, s, r);
      case Update => UpdatePreserves(L, s, r);
      case Check => CheckPreserves(L, s, r);
      case Quiet =>
    }
  }

  /** The state after a schedule, which names the rank to step at each point. */
  ghost function Run(L: Layout, s: State, schedule: seq<nat>): (t: State)
    requires Runnable(L) && Inv(L, s)
    requires forall k :: 0 <= k < |schedule| ==> schedule[k] < L.ranks
    ensures Inv(L, t)
  {
    if |schedule| == 0 then s
    else
      var n := |schedule| - 1;
      var before := Run(L, s, schedule[..n]);
      StepPreserves(L, before, schedule[n]);
      Step(L, before, schedule[n])
  }

  ghost predicate Reaches(L: Layout, s: State, schedule: seq<nat>, t: State)
    requires Runnable(L)
  {
    && Initial(L, s)
    && (forall k :: 0 <= k < |schedule| ==> schedule[k] < L.ranks)
    && (InitialInv(L, s); t == Run(L, s, schedule))
  }

  /** A rank is between its two passes. */
  predicate BetweenPasses(p: Proc) {
    1 < p.phase < 7 || (p.phase == 7 && p.pos == 0)
  }

  /** Distributed refines serial: between the passes the blocks, in rank order, are the serial table. */
  lemma DistributedRefinesSerial(L: Layout, s: State, schedule: seq<nat>, t: State, q: nat, i: nat)
    requires Runnable(L) && Reaches(L, s, schedule, t)
    requires forall r :: 0 <= r < L.ranks ==> BetweenPasses(t.procs[r])
    requires q < L.ranks && i < L.LocalSize(q)
    ensures L.Start(q) + i < L.size
    ensures t.tables[q][i] == SerialTable(L.size, 4 * L.size)[L.Start(q) + i]
  {
    hide Xor, FromNat, RankUpdates, Iterate, Updates, L.Start, L.LocalSize, Runnable, Run;
    var g := L.Start(q) + i;
    assert BetweenPasses(t.procs[q]);
    AllFilled(L, t, q, q, i);
    RankUpdatesAll(L, Done(L, t, 1), L.ranks, g);
    RankUpdatesNone(L, Done(L, t, 7), L.ranks, g);
    L.StartEnds();
    XorZero(Updates(L.size, 0, 4 * L.size, g));
    L.LocalInTable(q, i);
    SerialEntry(L.size, 4 * L.size, g);
  }

  /**
   * Verification: in every reachable state no rank has counted an error, and from the check on every entry is
   * restored.
   */
  lemma VerificationFindsNoError(L: Layout, s: State, schedule: seq<nat>, t: State)
    requires Runnable(L) && Reaches(L, s, schedule, t)
    ensures forall r :: 0 <= r < L.ranks ==> t.procs[r].errors == 0
    ensures forall r, q, i :: 0 <= r < L.ranks && t.procs[r].phase >= 8 && 0 <= q < L.ranks && 0 <= i < L.LocalSize(q) ==>
              t.tables[q][i] == FromNat(L.Start(q) + i)
  {
    forall r, q, i | 0 <= r < L.ranks && t.procs[r].phase >= 8 && 0 <= q < L.ranks && 0 <= i < L.LocalSize(q)
      ensures t.tables[q][i] == FromNat(L.Start(q) + i)
    {
      AllRestored(L, t, r, q, i);
    }
  }

  /** How many of the first n entries of a block differ from their global indices. */
  function Mismatches(table: seq<Word>, start: nat, n: nat): nat
    requires n <= |table|
  {
    if n == 0 then 0 else Mismatches(table, start, n - 1) + if table[n - 1] != FromNat(start + n - 1) then 1 else 0
  }

  lemma {:induction false} MismatchesDetect(table: seq<Word>, start: nat, n: nat)
    requires n <= |table|
    ensures Mismatches(table, start, n) == 0 <==> forall i :: 0 <= i < n ==> table[i] == FromNat(start + i)
  {
    hide FromNat;
    if n != 0 {
      MismatchesDetect(table, start, n - 1);
    }
  }

  /** n steps of rank r alone. */
  function Alone(L: Layout, s: State, r: nat, n: nat): (t: State)
    requires Runnable(L) && Shape(L, s) && r < L.ranks
    requires s.procs[r].phase == 8 && !s.procs[r].waiting && s.procs[r].pos == 0 && n <= L.LocalSize(r)
    ensures Shape(L, t) && t.tables == s.tables
    ensures t.procs[r].phase == 8 && !t.procs[r].waiting && t.procs[r].pos == n
  {
    if n == 0 then s else Step(L, Alone(L, s, r, n - 1), r)
  }

  /**
   * The check would find any damage: from any tables whatever, reachable or not, a rank that checks its whole block
   * counts exactly its wrong entries, so that it reports none if and only if the block is restored.
   */
  lemma {:induction false} CheckCounts(L: Layout, s: State, r: nat, n: nat)
    requires Runnable(L) && Shape(L, s) && r < L.ranks
    requires s.procs[r].phase == 8 && !s.procs[r].waiting && s.procs[r].pos == 0 && n <= L.LocalSize(r)
    ensures Alone(L, s, r, n).procs[r].errors == s.procs[r].errors + Mismatches(s.tables[r], L.Start(r), n)
    ensures n == L.LocalSize(r) ==>
              (Alone(L, s, r, n).procs[r].errors == s.procs[r].errors <==>
               forall i :: 0 <= i < n ==> s.tables[r][i] == FromNat(L.Start(r) + i))
  {
    hide FromNat, L.Start, L.LocalSize, Runnable, ApplyUpdate, SetTable;
    if n != 0 {
      CheckCounts(L, s, r, n - 1);
    }
    MismatchesDetect(s.tables[r], L.Start(r), n);
  }

  /** No update lands before a rank has filled its block, nor after any rank has begun to check. */
  lemma UpdatesOnlyBetween(L: Layout, s: State, schedule: seq<nat>, t: State, r: nat, q: nat)
    requires Runnable(L) && Reaches(L, s, schedule, t)
    requires r < L.ranks && q < L.ranks && WorkAt(t.procs[r].phase).Update? && !t.procs[r].waiting
    ensures t.procs[q].phase > 0 || (t.procs[q].waiting && t.procs[q].pos == L.LocalSize(q))
    ensures t.procs[q].phase < 8
  {
    hide Run;
    assert Adjacent(t.procs[r], t.procs[q]);
    assert Adjacent(t.procs[q], t.procs[r]);
  }

  predicate Finished(p: Proc) {
    p.phase == LAST && p.pos == 0 && !p.waiting
  }

  /** A rank that no other rank is behind: not waiting if possible. */
  lemma LeastAdvanced(s: State) returns (r: nat)
    requires |s.procs| > 0
    ensures r < |s.procs|
    ensures forall q :: 0 <= q < |s.procs| ==> s.procs[r].phase <= s.procs[q].phase
    ensures s.procs[r].waiting ==>
              forall q :: 0 <= q < |s.procs| ==> s.procs[q].phase > s.procs[r].phase || s.procs[q].waiting
  {
    r := 0;
    for n := 1 to |s.procs|
      invariant r < n
      invariant forall q :: 0 <= q < n ==> s.procs[r].phase <= s.procs[q].phase
      invariant s.procs[r].waiting ==>
                  forall q :: 0 <= q < n ==> s.procs[q].phase > s.procs[r].phase || s.procs[q].waiting
    {
      if s.procs[n].phase < s.procs[r].phase || (s.procs[n].phase == s.procs[r].phase && !s.procs[n].waiting) {
        r := n;
      }
    }
  }

  /** The rank's next step changes the state. */
  predicate Enabled(L: Layout, s: State, r: nat)
    requires L.Valid() && r < L.ranks == |s.procs|
  {
    var p := s.procs[r];
    if p.waiting then p.phase < LAST && BarrierOpen(s, p.phase)
    else p.phase < LAST || p.pos < Limit(L, r, p.phase)
  }

  lemma AllInLastPhase(L: Layout, s: State)
    requires L.Valid() && Inv(L, s)
    requires forall q :: 0 <= q < L.ranks ==> s.procs[q].phase >= LAST
    ensures forall q :: 0 <= q < L.ranks ==> Finished(s.procs[q])
  {
    hide TablesInv, L.LocalSize, L.Start, Iterate;
    forall q | 0 <= q < L.ranks ensures Finished(s.procs[q]) {
      assert ProcInv(L, q, s.procs[q]);
    }
  }

  /** No deadlock: unless every rank has finished, some rank is enabled. */
  lemma SomeRankEnabled(L: Layout, s: State)
    requires L.Valid() && Inv(L, s)
    requires exists r :: 0 <= r < L.ranks && !Finished(s.procs[r])
    ensures exists r: nat :: r < L.ranks && Enabled(L, s, r)
  {
    hide TablesInv, L.LocalSize, L.Start, Iterate;
    var r := LeastAdvanced(s);
    assert ProcInv(L, r, s.procs[r]);
    if s.procs[r].phase == LAST {
      AllInLastPhase(L, s);
      assert false;
    }
    assert Enabled(L, s, r);
  }

  /** The number of steps a rank takes before it enters a phase. */
  function StepsBefore(L: Layout, r: nat, phase: nat): nat
    requires L.Valid()
  {
    if phase == 0 then 0 else StepsBefore(L, r, phase - 1) + Limit(L, r, phase - 1) + 2
  }

  function StepsTaken(L: Layout, r: nat, p: Proc): nat
    requires L.Valid()
  {
    StepsBefore(L, r, p.phase) + p.pos + if p.waiting then 1 else 0
  }

  /**
   * The steps of a rank in the whole benchmark: filling and checking its block once, four updates for each entry in each
   * of two passes, and entering and leaving nine barriers.
   */
  lemma StepsInAll(L: Layout, r: nat)
    requires L.Valid()
    ensures StepsBefore(L, r, LAST) == 10 * L.LocalSize(r) + 2 * 9
  {
    hide L.LocalSize;
    assert StepsBefore(L, r, 1) == L.LocalSize(r) + 2;
    assert StepsBefore(L, r, 2) == StepsBefore(L, r, 1) + 4 * L.LocalSize(r) + 2;
    assert StepsBefore(L, r, 3) == StepsBefore(L, r, 2) + 2;
    assert StepsBefore(L, r, 4) == StepsBefore(L, r, 3) + 2;
    assert StepsBefore(L, r, 5) == StepsBefore(L, r, 4) + 2;
    assert StepsBefore(L, r, 6) == StepsBefore(L, r, 5) + 2;
    assert StepsBefore(L, r, 7) == StepsBefore(L, r, 6) + 2;
    assert StepsBefore(L, r, 8) == StepsBefore(L, r, 7) + 4 * L.LocalSize(r) + 2;
    assert StepsBefore(L, r, 9) == StepsBefore(L, r, 8) + L.LocalSize(r) + 2;
  }

  /** An enabled step advances exactly its own rank by one; a disabled one changes nothing. */
  lemma StepAdvances(L: Layout, s: State, r: nat)
    requires Runnable(L) && Inv(L, s) && r < L.ranks
    ensures !Enabled(L, s, r) ==> Step(L, s, r) == s
    ensures Enabled(L, s, r) ==>
              && |Step(L, s, r).procs| == L.ranks
              && StepsTaken(L, r, Step(L, s, r).procs[r]) == StepsTaken(L, r, s.procs[r]) + 1
    ensures forall q :: 0 <= q < L.ranks && q != r ==>
              |Step(L, s, r).procs| == L.ranks && Step(L, s, r).procs[q] == s.procs[q]
  {
    hide TablesInv, L.LocalSize, L.Start, Iterate, SetTable, FromNat, Xor, L.Place, Masked, Runnable;
  }

  function TotalTaken(L: Layout, s: State, n: nat): nat
    requires L.Valid() && n <= L.ranks == |s.procs|
  {
    if n == 0 then 0 else TotalTaken(L, s, n - 1) + StepsTaken(L, n - 1, s.procs[n - 1])
  }

  function TotalNeeded(L: Layout, n: nat): nat
    requires L.Valid()
  {
    if n == 0 then 0 else TotalNeeded(L, n - 1) + StepsBefore(L, n - 1, LAST)
  }

  lemma {:induction false} TotalAdvances(L: Layout, s: State, t: State, r: nat, n: nat)
    requires L.Valid() && |s.procs| == |t.procs| == L.ranks && r < L.ranks && n <= L.ranks
    requires forall q :: 0 <= q < L.ranks && q != r ==> t.procs[q] == s.procs[q]
    requires StepsTaken(L, r, t.procs[r]) == StepsTaken(L, r, s.procs[r]) + 1
    ensures TotalTaken(L, t, n) == TotalTaken(L, s, n) + if r < n then 1 else 0
  {
    hide StepsTaken;
    if n != 0 {
      TotalAdvances(L, s, t, r, n - 1);
    }
  }

  lemma {:induction false} StepsBeforeMonotone(L: Layout, r: nat, a: nat, b: nat)
    requires L.Valid() && a <= b
    ensures StepsBefore(L, r, a) <= StepsBefore(L, r, b)
    ensures a < b ==> StepsBefore(L, r, a) + Limit(L, r, a) + 2 <= StepsBefore(L, r, b)
  {
    if a < b {
      StepsBeforeMonotone(L, r, a, b - 1);
    }
  }

  /** A rank has taken all its steps exactly when it has finished. */
  lemma TakenAll(L: Layout, s: State, r: nat)
    requires L.Valid() && Inv(L, s) && r < L.ranks
    ensures StepsTaken(L, r, s.procs[r]) <= StepsBefore(L, r, LAST)
    ensures StepsTaken(L, r, s.procs[r]) == StepsBefore(L, r, LAST) <==> Finished(s.procs[r])
  {
    hide TablesInv, L.LocalSize, L.Start, Iterate;
    assert ProcInv(L, r, s.procs[r]);
    StepsBeforeMonotone(L, r, s.procs[r].phase, LAST);
  }

  lemma {:induction false} TotalTakenAll(L: Layout, s: State, n: nat)
    requires L.Valid() && Inv(L, s) && n <= L.ranks
    ensures TotalTaken(L, s, n) <= TotalNeeded(L, n)
    ensures TotalTaken(L, s, n) == TotalNeeded(L, n) <==> forall r :: 0 <= r < n ==> Finished(s.procs[r])
  {
    hide TablesInv, StepsTaken, StepsBefore, Finished;
    if n != 0 {
      TotalTakenAll(L, s, n - 1);
      TakenAll(L, s, n - 1);
    }
  }

  lemma {:induction false} NothingTaken(L: Layout, s: State, n: nat)
    requires L.Valid() && Initial(L, s) && n <= L.ranks
    ensures TotalTaken(L, s, n) == 0
  {
    if n != 0 {
      NothingTaken(L, s, n - 1);
    }
  }

  ghost predicate AllFinished(L: Layout, s: State) {
    |s.procs| == L.ranks && forall r :: 0 <= r < L.ranks ==> Finished(s.procs[r])
  }

  /** The benchmark as a system in which every rank must be scheduled. */
  ghost function Benchmark(L: Layout): Fairness.System<State, nat>
    requires Runnable(L)
  {
    Fairness.System(
      (s: State, r: nat) => if Shape(L, s) && r < L.ranks then Step(L, s, r) else s,
      (s: State) => Inv(L, s),
      (s: State) => if |s.procs| == L.ranks then TotalTaken(L, s, L.ranks) else 0,
      TotalNeeded(L, L.ranks),
      r => r < L.ranks,
      (s: State) => AllFinished(L, s))
  }

  lemma InvShape(L: Layout, s: State)
    requires L.Valid() && Inv(L, s)
    ensures Shape(L, s) && |s.procs| == L.ranks
  {}

  /** An effective step is one more of the steps the ranks have to take. */
  lemma StepCounts(L: Layout, s: State, r: nat)
    requires Runnable(L) && Inv(L, s) && r < L.ranks
    ensures Inv(L, Step(L, s, r)) && |Step(L, s, r).procs| == L.ranks
    ensures Step(L, s, r) != s <==> Enabled(L, s, r)
    ensures Step(L, s, r) != s ==> TotalTaken(L, Step(L, s, r), L.ranks) == TotalTaken(L, s, L.ranks) + 1
  {
    StepPreserves(L, s, r);
    InvShape(L, Step(L, s, r));
    hide Inv, Enabled, Step, StepsTaken, Runnable, TotalTaken;
    StepAdvances(L, s, r);
    if Enabled(L, s, r) {
      TotalAdvances(L, s, Step(L, s, r), r, L.ranks);
    }
  }

  lemma FinishedRefuses(L: Layout, s: State, r: nat)
    requires Runnable(L) && Inv(L, s) && AllFinished(L, s) && r < L.ranks
    ensures Step(L, s, r) == s
  {
    assert Finished(s.procs[r]);
    InvShape(L, s);
    assert Limit(L, r, LAST) == 0;
    hide Inv, Runnable;
  }

  lemma BenchmarkProgress(L: Layout)
    requires Runnable(L)
    ensures Fairness.Progressive(Benchmark(L)) && Fairness.Live(Benchmark(L))
    ensures forall s, r: nat :: Benchmark(L).inv(s) && Benchmark(L).next(s, r) != s ==>
              Benchmark(L).measure(Benchmark(L).next(s, r)) == Benchmark(L).measure(s) + 1
  {
    hide Runnable, Inv, Step, TotalTaken, TotalNeeded, Finished;
    var y := Benchmark(L);
    forall s: State, r: nat | y.inv(s)
      ensures y.inv(y.next(s, r)) && (y.next(s, r) != s ==> y.measure(y.next(s, r)) == y.measure(s) + 1)
      ensures y.done(s) ==> y.done(y.next(s, r))
    {
      InvShape(L, s);
      if r < L.ranks {
        StepCounts(L, s, r);
        if y.done(s) {
          FinishedRefuses(L, s, r);
        }
      }
    }
    forall s: State | y.inv(s) ensures y.measure(s) <= y.bound {
      InvShape(L, s);
      TotalTakenAll(L, s, L.ranks);
    }
    forall s: State | y.inv(s) && !y.done(s) ensures exists r :: y.must(r) && y.next(s, r) != s {
      InvShape(L, s);
      SomeRankEnabled(L, s);
      var r: nat :| r < L.ranks && Enabled(L, s, r);
      StepCounts(L, s, r);
      assert y.must(r) && y.next(s, r) != s;
    }
  }

  lemma {:induction false} RunIsRun(L: Layout, s: State, schedule: seq<nat>)
    requires Runnable(L) && Inv(L, s)
    requires forall k :: 0 <= k < |schedule| ==> schedule[k] < L.ranks
    ensures Run(L, s, schedule) == Fairness.Run(Benchmark(L), s, schedule)
  {
    hide Runnable, Inv, Step;
    if |schedule| > 0 {
      RunIsRun(L, s, schedule[..|schedule| - 1]);
      InvShape(L, Run(L, s, schedule[..|schedule| - 1]));
    }
  }

  /** The number of steps of a schedule that change the state. */
  ghost function EffectiveSteps(L: Layout, s: State, schedule: seq<nat>): nat
    requires Runnable(L)
  {
    Fairness.Effective(Benchmark(L), s, schedule)
  }

  /**
   * Termination: under any schedule only a fixed number of steps change the state, and all ranks have finished exactly
   * when that many have.
   */
  lemma RunEnds(L: Layout, s: State, schedule: seq<nat>, t: State)
    requires Runnable(L) && Reaches(L, s, schedule, t)
    ensures t == Fairness.Run(Benchmark(L), s, schedule)
    ensures EffectiveSteps(L, s, schedule) <= TotalNeeded(L, L.ranks)
    ensures EffectiveSteps(L, s, schedule) == TotalNeeded(L, L.ranks) <==> AllFinished(L, t)
  {
    InitialInv(L, s);
    InvShape(L, t);
    InvShape(L, s);
    hide Run, TotalTaken, TotalNeeded, Runnable, Inv, Finished;
    RunIsRun(L, s, schedule);
    BenchmarkProgress(L);
    Fairness.EffectiveExact(Benchmark(L), s, schedule);
    NothingTaken(L, s, L.ranks);
    TotalTakenAll(L, t, L.ranks);
  }

  /** The schedule never starves a rank, and is long enough. */
  ghost predicate FairBenchmark(L: Layout, blocks: seq<seq<nat>>)
    requires L.Valid()
  {
    && (forall b, r :: 0 <= b < |blocks| && 0 <= r < L.ranks ==> r in blocks[b])
    && |blocks| > TotalNeeded(L, L.ranks)
  }

  /** Taking turns is such a schedule. */
  lemma TurnsAreFair(L: Layout)
    requires L.Valid()
    ensures FairBenchmark(L, seq(TotalNeeded(L, L.ranks) + 1, _ => Fairness.RoundRobin(L.ranks)))
  {
    hide TotalNeeded;
  }

  /** When no rank is starved, all ranks finish. */
  lemma FairRunFinishes(L: Layout, s: State, blocks: seq<seq<nat>>, schedule: seq<nat>, t: State)
    requires Runnable(L) && Reaches(L, s, schedule, t) && schedule == Fairness.Flatten(blocks)
    requires FairBenchmark(L, blocks)
    ensures AllFinished(L, t)
  {
    InitialInv(L, s);
    hide Run, TotalNeeded, Runnable, Inv;
    RunIsRun(L, s, schedule);
    BenchmarkProgress(L);
    Fairness.FairRunEnds(Benchmark(L), s, blocks);
  }

  /** A run that takes every rank past the first pass goes through a state with all ranks between the passes. */
  lemma {:induction false} PassesThrough(L: Layout, s: State, schedule: seq<nat>) returns (k: nat)
    requires Runnable(L) && Inv(L, s) && s.procs[0].phase == 0
    requires forall j :: 0 <= j < |schedule| ==> schedule[j] < L.ranks
    requires forall r :: 0 <= r < L.ranks ==> Run(L, s, schedule).procs[r].phase >= 2
    ensures k <= |schedule| && forall r :: 0 <= r < L.ranks ==> BetweenPasses(Run(L, s, schedule[..k]).procs[r])
  {
    hide Inv, Step, BetweenPasses, Runnable, L.Start, L.LocalSize;
    InvShape(L, s);
    InvShape(L, Run(L, s, schedule));
    assert Run(L, s, schedule).procs[0].phase >= 2;
    if |schedule| == 0 {
      assert false;
    }
    var n := |schedule| - 1;
    var before := Run(L, s, schedule[..n]);
    InvShape(L, before);
    if forall r :: 0 <= r < L.ranks ==> before.procs[r].phase >= 2 {
      k := PassesThrough(L, s, schedule[..n]);
      assert schedule[..n][..k] == schedule[..k];
    } else {
      k := |schedule|;
      assert schedule[..k] == schedule;
      LastIntoPhase(L, before, schedule[n]);
    }
  }

  /** When a step takes the last rank out of the first pass, all ranks are between the passes. */
  lemma LastIntoPhase(L: Layout, s: State, r: nat)
    requires Runnable(L) && Inv(L, s) && r < L.ranks
    requires exists q :: 0 <= q < L.ranks && s.procs[q].phase < 2
    requires forall q :: 0 <= q < L.ranks ==> Step(L, s, r).procs[q].phase >= 2
    ensures forall q :: 0 <= q < L.ranks ==> BetweenPasses(Step(L, s, r).procs[q])
  {
    StepPreserves(L, s, r);
    var t := Step(L, s, r);
    assert t.procs[r].phase == 2;
    hide Step, Runnable, TablesInv;
    forall q | 0 <= q < L.ranks ensures BetweenPasses(t.procs[q]) {
      assert Adjacent(t.procs[q], t.procs[r]);
    }
  }

  /** Entry i of rank q is the serial table's entry at its global index. */
  predicate EntrySerial(L: Layout, s: State, q: nat, i: nat)
    requires L.Valid() && q < |s.tables| && i < |s.tables[q]|
  {
    var g := L.Start(q) + i;
    g < L.size && s.tables[q][i] == SerialTable(L.size, 4 * L.size)[g]
  }

  /** The ranks' tables, in rank order, are the serial table. */
  ghost predicate HoldsSerial(L: Layout, s: State)
    requires L.Valid()
  {
    Shape(L, s) && forall q, i :: 0 <= q < L.ranks && 0 <= i < L.LocalSize(q) ==> EntrySerial(L, s, q, i)
  }

  /** The ranks' tables hold their own global indices. */
  ghost predicate HoldsIndices(L: Layout, s: State)
    requires L.Valid()
  {
    Shape(L, s) && forall q, i :: 0 <= q < L.ranks && 0 <= i < L.LocalSize(q) ==> s.tables[q][i] == FromNat(L.Start(q) + i)
  }

  lemma ReachedShape(L: Layout, s: State, schedule: seq<nat>, t: State)
    requires Runnable(L) && Reaches(L, s, schedule, t)
    ensures Inv(L, t) && Shape(L, t)
  {
    InitialInv(L, s);
    InvShape(L, t);
  }

  lemma SerialBetween(L: Layout, s: State, schedule: seq<nat>, t: State)
    requires Runnable(L) && Reaches(L, s, schedule, t)
    requires forall r :: 0 <= r < L.ranks ==> BetweenPasses(t.procs[r])
    ensures HoldsSerial(L, t)
  {
    hide Run, SerialTable, Runnable, Reaches, BetweenPasses, Inv, L.Start, L.LocalSize, Limit;
    ReachedShape(L, s, schedule, t);
    forall q, i | 0 <= q < L.ranks && 0 <= i < L.LocalSize(q) ensures EntrySerial(L, t, q, i) {
      DistributedRefinesSerial(L, s, schedule, t, q, i);
    }
  }

  /**
   * Every run that finishes passes through a moment at which the ranks' tables are the serial table, and ends with the
   * initial tables and no error.
   */
  lemma FinishedRunRefines(L: Layout, s: State, schedule: seq<nat>, t: State) returns (k: nat)
    requires Runnable(L) && Reaches(L, s, schedule, t) && AllFinished(L, t)
    ensures k <= |schedule| && Reaches(L, s, schedule[..k], Run(L, s, schedule[..k]))
    ensures HoldsSerial(L, Run(L, s, schedule[..k])) && HoldsIndices(L, t)
    ensures forall q :: 0 <= q < L.ranks ==> t.procs[q].errors == 0
  {
    InitialInv(L, s);
    InvShape(L, t);
    forall r | 0 <= r < L.ranks ensures t.procs[r].phase >= 8 {
      assert Finished(t.procs[r]);
    }
    k := PassesThrough(L, s, schedule);
    var u := Run(L, s, schedule[..k]);
    hide Run, FromNat, Runnable, Reaches, BetweenPasses, HoldsSerial, Inv, Shape, HoldsIndices, L.Start, L.LocalSize;
    SerialBetween(L, s, schedule[..k], u);
    VerificationFindsNoError(L, s, schedule, t);
    RestoredAtEnd(L, t);
  }

  lemma RestoredAtEnd(L: Layout, t: State)
    requires L.Valid() && Inv(L, t) && Shape(L, t) && forall r :: 0 <= r < L.ranks ==> t.procs[r].phase >= 8
    ensures HoldsIndices(L, t)
  {
    hide Inv, FromNat, L.Start, L.LocalSize, Limit;
    assert |t.tables| == L.ranks && forall q :: 0 <= q < L.ranks ==> |t.tables[q]| == L.LocalSize(q);
    hide Shape;
    forall q, i | 0 <= q < L.ranks && 0 <= i < L.LocalSize(q) ensures t.tables[q][i] == FromNat(L.Start(q) + i) {
      AllRestored(L, t, q, q, i);
    }
  }
}
