/** `PMI_Allgather` and `PMI_Bcast` as a protocol over a key-value store and a counting barrier. */
module Collectives {
  import opened Codec
  import opened Keys
  import opened Multiples
  import opened Totals
  import Fairness

  /** A call made by every rank: data[r] is what rank r passes. Every rank passes the same number of bytes. */
  datatype Call = Call(kind: Kind, data: seq<seq<Byte>>)

  /** Points of a call: contribute, enter the barrier, wait in it, collect, and for a broadcast a second barrier. */
  datatype Stage = Put | Enter | Wait | Collect | EnterAgain | WaitAgain

  /** A value put and committed but not yet known to be visible to other ranks. */
  datatype Pending = Nothing | Put1(key: string, value: seq<Byte>)

  datatype Proc = Proc(
    call: nat,                 // calls completed
    stage: Stage,
    got: nat,                  // blocks collected in this call
    gathers: nat,              // the static counter of PMI_Allgather
    casts: nat,                // the static counter of PMI_Bcast
    entered: nat,              // barriers entered
    pending: Pending,
    target: seq<Byte>,         // collected so far in this call
    results: seq<seq<Byte>>,   // what each completed call left in the rank's buffer
    failed: bool)              // a put of an existing key, or a get of a missing one

  datatype State = State(store: map<string, seq<Byte>>, procs: seq<Proc>)

  ghost predicate Program(calls: seq<Call>, ranks: nat) {
    && ranks >= 1
    && forall c :: 0 <= c < |calls| ==> |calls[c].data| == ranks
  }

  predicate Contributes(call: Call, r: nat) {
    call.kind == Gather || r == 0
  }

  function CountOf(calls: seq<Call>, c: nat, kind: Kind): nat
    requires c <= |calls|
  {
    if c == 0 then 0 else CountOf(calls, c - 1, kind) + if calls[c - 1].kind == kind then 1 else 0
  }

  /** Barriers inside the first c calls: one per allgather, two per broadcast, whatever the rank's role. */
  function Barriers(calls: seq<Call>, c: nat): nat
    requires c <= |calls|
  {
    if c == 0 then 0 else Barriers(calls, c - 1) + if calls[c - 1].kind == Gather then 1 else 2
  }

  /** The key under which rank r contributes to call c. */
  function KeyOf(calls: seq<Call>, c: nat, r: nat): string
    requires c < |calls|
  {
    Key(calls[c].kind, CountOf(calls, c, calls[c].kind), r)
  }

  function Concat(data: seq<seq<Byte>>, n: nat): seq<Byte>
    requires n <= |data|
  {
    if n == 0 then [] else Concat(data, n - 1) + data[n - 1]
  }

  /** What every rank's buffer must hold after a call. */
  function Outcome(call: Call): seq<Byte>
    requires |call.data| >= 1
  {
    if call.kind == Gather then Concat(call.data, |call.data|) else call.data[0]
  }

  function Publish(s: State, r: nat): State
    requires r < |s.procs|
  {
    match s.procs[r].pending
    case Nothing => s
    case Put1(key, value) => State(s.store[key := value], s.procs[r := s.procs[r].(pending := Nothing)])
  }

  /** Rank r enters a barrier. */
  function Entering(s: State, r: nat, stage: Stage): State
    requires r < |s.procs|
  {
    s.(procs := s.procs[r := s.procs[r].(stage := stage, entered := s.procs[r].entered + 1)])
  }

  /** Every rank has entered at least as many barriers as rank r. */
  predicate BarrierOpen(s: State, r: nat)
    requires r < |s.procs|
  {
    forall q :: 0 <= q < |s.procs| ==> s.procs[q].entered >= s.procs[r].entered
  }

  function FinishCall(p: Proc, result: seq<Byte>): Proc {
    p.(call := p.call + 1, stage := Put, got := 0, target := [], results := p.results + [result])
  }

  /** The static counter that names the current call; it is incremented when the call begins. */
  function CallCount(p: Proc, kind: Kind): nat {
    if kind == Gather then p.gathers else p.casts
  }

  function DoPut(call: Call, s: State, r: nat): Proc
    requires r < |s.procs| && r < |call.data|
  {
    var p := s.procs[r];
    var counted := if call.kind == Gather then p.(gathers := p.gathers + 1) else p.(casts := p.casts + 1);
    var key := Key(call.kind, CallCount(p, call.kind), r);
    if !Contributes(call, r) then counted.(stage := Enter)
    else if key in s.store || p.pending.Put1? then counted.(failed := true)
    else counted.(stage := Enter, pending := Put1(key, Encode(call.data[r])))
  }

  /** The name of the current call, after its counter has been incremented. */
  function CurrentKey(call: Call, p: Proc, r: nat): string {
    Key(call.kind, if CallCount(p, call.kind) > 0 then CallCount(p, call.kind) - 1 else 0, r)
  }

  function DoCollect(call: Call, s: State, r: nat): Proc
    requires r < |s.procs| && r < |call.data|
  {
    var p := s.procs[r];
    if call.kind == Gather then
      if p.got < |s.procs| then
        var key := CurrentKey(call, p, p.got);
        if key in s.store then p.(got := p.got + 1, target := p.target + Decode(s.store[key]))
        else p.(failed := true)
      else FinishCall(p, p.target)
    else if r == 0 then p.(stage := EnterAgain, target := call.data[0])
    else
      var key := CurrentKey(call, p, 0);
      if key in s.store then p.(stage := EnterAgain, target := Decode(s.store[key]))
      else p.(failed := true)
  }

  /** One step of rank r in its current call. A rank that waits, has failed or has finished stays put. */
  function Step(calls: seq<Call>, s: State, r: nat): State
    requires Program(calls, |s.procs|) && r < |s.procs|
  {
    var p := s.procs[r];
    if p.failed || p.call >= |calls| then s
    else
      match p.stage
      case Put => s.(procs := s.procs[r := DoPut(calls[p.call], s, r)])
      case Enter => Entering(Publish(s, r), r, Wait)
      case Wait =>
        if BarrierOpen(s, r) then s.(procs := s.procs[r := p.(stage := Collect)]) else s
      case Collect => s.(procs := s.procs[r := DoCollect(calls[p.call], s, r)])
      case EnterAgain => Entering(s, r, WaitAgain)
      case WaitAgain =>
        if BarrierOpen(s, r) then s.(procs := s.procs[r := FinishCall(p, p.target)]) else s
  }

  function FreshProc(): Proc {
    Proc(0, Put, 0, 0, 0, 0, Nothing, [], [], false)
  }

  ghost predicate Initial(s: State) {
    s.store == map[] && forall r :: 0 <= r < |s.procs| ==> s.procs[r] == FreshProc()
  }

  /** Barriers entered in the current call. */
  function EnteredHere(stage: Stage): nat {
    match stage
    case Put => 0
    case Enter => 0
    case Wait => 1
    case Collect => 1
    case EnterAgain => 1
    case WaitAgain => 2
  }

  /** Barriers left in the current call. */
  function LeftHere(stage: Stage): nat {
    match stage
    case Put => 0
    case Enter => 0
    case Wait => 0
    case Collect => 1
    case EnterAgain => 1
    case WaitAgain => 1
  }

  /** Rank r has put its contribution to call c. */
  predicate HasPut(calls: seq<Call>, p: Proc, r: nat, c: nat)
    requires c < |calls|
  {
    Contributes(calls[c], r) && (p.call > c || (p.call == c && p.stage != Put))
  }

  ghost predicate ProcInv(calls: seq<Call>, p: Proc, r: nat) {
    && !p.failed
    && p.call <= |calls|
    && |p.results| == p.call
    && (p.call == |calls| ==> p.stage == Put)
    && p.entered == Barriers(calls, p.call) + EnteredHere(p.stage)
    && (forall c :: 0 <= c < p.call ==> |calls[c].data| >= 1 && p.results[c] == Outcome(calls[c]))
    && p.gathers == CountOf(calls, p.call, Gather) + (if p.stage != Put && calls[p.call].kind == Gather then 1 else 0)
    && p.casts == CountOf(calls, p.call, Cast) + (if p.stage != Put && calls[p.call].kind == Cast then 1 else 0)
    && (p.stage == EnterAgain || p.stage == WaitAgain ==>
          calls[p.call].kind == Cast && |calls[p.call].data| >= 1 && p.target == calls[p.call].data[0])
    && (p.stage == Collect && calls[p.call].kind == Gather ==>
          p.got <= |calls[p.call].data| && p.target == Concat(calls[p.call].data, p.got))
    && (p.stage == Put || p.stage == Enter || p.stage == Wait ==> p.target == [])
    && (p.stage != Collect || calls[p.call].kind == Cast ==> p.got == 0)
  }

  /** Rank r's contribution to call c is in the store, or pending in the rank itself, exactly when it has been put. */
  ghost predicate KeyInv(calls: seq<Call>, store: map<string, seq<Byte>>, p: Proc, r: nat, c: nat)
    requires c < |calls| && r < |calls[c].data|
  {
    var key := KeyOf(calls, c, r);
    var waiting := p.pending == Put1(key, Encode(calls[c].data[r]));
    && (HasPut(calls, p, r, c) ==>
          (key in store && store[key] == Encode(calls[c].data[r])) || (waiting && p.call == c && p.stage == Enter))
    && (key in store ==> HasPut(calls, p, r, c))
  }

  ghost predicate PendingInv(calls: seq<Call>, p: Proc, r: nat) {
    p.pending.Put1? ==>
      && p.call < |calls| && r < |calls[p.call].data| && p.stage == Enter && Contributes(calls[p.call], r)
      && p.pending == Put1(KeyOf(calls, p.call, r), Encode(calls[p.call].data[r]))
  }

  /** Nobody leaves a barrier before everybody has entered it. */
  predicate BarrierSafe(calls: seq<Call>, p: Proc, q: Proc)
  {
    p.call <= |calls| && q.entered >= Barriers(calls, p.call) + LeftHere(p.stage)
  }

  ghost predicate Inv(calls: seq<Call>, s: State) {
    && Program(calls, |s.procs|)
    && (forall r :: 0 <= r < |s.procs| ==> ProcInv(calls, s.procs[r], r) && PendingInv(calls, s.procs[r], r))
    && (forall r, c :: 0 <= r < |s.procs| && 0 <= c < |calls| ==> KeyInv(calls, s.store, s.procs[r], r, c))
    && (forall r, q :: 0 <= r < |s.procs| && 0 <= q < |s.procs| ==> BarrierSafe(calls, s.procs[r], s.procs[q]))
  }

  lemma InitialInv(calls: seq<Call>, s: State)
    requires Program(calls, |s.procs|) && Initial(s)
    ensures Inv(calls, s)
  {}

  lemma {:induction false} CountGrows(calls: seq<Call>, a: nat, b: nat)
    requires a < b <= |calls|
    ensures CountOf(calls, a, calls[a].kind) < CountOf(calls, b, calls[a].kind)
  {
    if a < b - 1 {
      CountGrows(calls, a, b - 1);
    }
  }

  /** Fresh keys: different contributions, of any calls and ranks, have different keys. */
  lemma KeyOfInjective(calls: seq<Call>, c: nat, r: nat, d: nat, q: nat)
    requires c < |calls| && d < |calls|
    requires KeyOf(calls, c, r) == KeyOf(calls, d, q)
    ensures c == d && r == q
  {
    hide Key;
    KeyInjective(calls[c].kind, CountOf(calls, c, calls[c].kind), r, calls[d].kind, CountOf(calls, d, calls[d].kind), q);
    if c < d {
      CountGrows(calls, c, d);
    } else if d < c {
      CountGrows(calls, d, c);
    }
  }

  lemma {:induction false} BarriersGrow(calls: seq<Call>, a: nat, b: nat)
    requires a <= b <= |calls|
    ensures Barriers(calls, a) <= Barriers(calls, b)
    ensures a < b ==> Barriers(calls, a) + (if calls[a].kind == Gather then 1 else 2) <= Barriers(calls, b)
  {
    if a < b {
      BarriersGrow(calls, a, b - 1);
    }
  }

  /** Barrier counts determine positions: who has entered the first barrier of call c has contributed to it. */
  lemma EnteredMeansReached(calls: seq<Call>, q: Proc, i: nat, c: nat)
    requires ProcInv(calls, q, i) && c < |calls|
    requires q.entered >= Barriers(calls, c) + 1
    ensures q.call > c || (q.call == c && q.stage != Put && q.stage != Enter)
  {}

  /** A change of one rank's record alone keeps the invariant if the record stays correct. */
  lemma LocalChange(calls: seq<Call>, s: State, r: nat, p: Proc)
    requires Inv(calls, s) && r < |s.procs|
    requires ProcInv(calls, p, r) && PendingInv(calls, p, r)
    requires p.entered >= s.procs[r].entered
    requires forall q :: 0 <= q < |s.procs| ==> BarrierSafe(calls, p, s.procs[q])
    requires forall c :: 0 <= c < |calls| ==> KeyInv(calls, s.store, p, r, c)
    ensures Inv(calls, s.(procs := s.procs[r := p]))
  {
    hide ProcInv, PendingInv, Barriers, LeftHere, Encode, Key, HasPut, KeyOf;
    var t := s.(procs := s.procs[r := p]);
    forall q, c | 0 <= q < |t.procs| && 0 <= c < |calls| ensures KeyInv(calls, t.store, t.procs[q], q, c) {
      assert KeyInv(calls, s.store, s.procs[q], q, c);
    }
    forall a, b | 0 <= a < |t.procs| && 0 <= b < |t.procs| ensures BarrierSafe(calls, t.procs[a], t.procs[b]) {
      assert a != r ==> BarrierSafe(calls, s.procs[a], s.procs[b]);
    }
    forall q | 0 <= q < |t.procs| ensures ProcInv(calls, t.procs[q], q) && PendingInv(calls, t.procs[q], q) {
      assert q != r ==> ProcInv(calls, s.procs[q], q);
    }
  }

  /** Making a pending value visible, early or at a barrier, keeps the invariant. */
  lemma PublishPreserves(calls: seq<Call>, s: State, r: nat)
    requires Inv(calls, s) && r < |s.procs|
    ensures Inv(calls, Publish(s, r))
    ensures |Publish(s, r).procs| == |s.procs| && Publish(s, r).procs[r] == s.procs[r].(pending := Nothing)
  {
    hide Barriers, LeftHere, Encode, Key, KeyOf, CountOf, Outcome;
    var t := Publish(s, r);
    var p := s.procs[r];
    if p.pending.Put1? {
      assert PendingInv(calls, p, r);
      forall q, c | 0 <= q < |t.procs| && 0 <= c < |calls| ensures KeyInv(calls, t.store, t.procs[q], q, c) {
        assert KeyInv(calls, s.store, s.procs[q], q, c);
        if KeyOf(calls, c, q) == KeyOf(calls, p.call, r) {
          KeyOfInjective(calls, c, q, p.call, r);
        }
      }
      forall a, b | 0 <= a < |t.procs| && 0 <= b < |t.procs| ensures BarrierSafe(calls, t.procs[a], t.procs[b]) {
        assert BarrierSafe(calls, s.procs[a], s.procs[b]);
      }
      forall q | 0 <= q < |t.procs| ensures ProcInv(calls, t.procs[q], q) && PendingInv(calls, t.procs[q], q) {
        assert ProcInv(calls, s.procs[q], q);
      }
    }
  }

  lemma PutPreserves(calls: seq<Call>, s: State, r: nat)
    requires Inv(calls, s) && r < |s.procs| && s.procs[r].call < |calls| && s.procs[r].stage == Put
    ensures Inv(calls, Step(calls, s, r))
  {
    hide Barriers, Encode, Key, Outcome;
    var p := s.procs[r];
    var p' := DoPut(calls[p.call], s, r);
    assert ProcInv(calls, p, r) && PendingInv(calls, p, r);
    assert KeyInv(calls, s.store, s.procs[r], r, p.call);
    forall c | 0 <= c < |calls| ensures KeyInv(calls, s.store, p', r, c) {
      assert KeyInv(calls, s.store, s.procs[r], r, c);
    }
    forall q | 0 <= q < |s.procs| ensures BarrierSafe(calls, p', s.procs[q]) {
      assert BarrierSafe(calls, p, s.procs[q]);
    }
    hide CountOf, KeyOf;
    LocalChange(calls, s, r, p');
  }

  lemma EnterPreserves(calls: seq<Call>, s: State, r: nat)
    requires Inv(calls, s) && r < |s.procs| && s.procs[r].call < |calls|
    requires s.procs[r].stage == Enter || s.procs[r].stage == EnterAgain
    ensures Inv(calls, Step(calls, s, r))
  {
    InvProgram(calls, s);
    hide Inv, Publish, Entering, DoPut, DoCollect, FinishCall, BarrierOpen, Program;
    NoFailure(calls, s, r);
    if s.procs[r].stage == Enter {
      PublishPreserves(calls, s, r);
      EnterUnpublished(calls, Publish(s, r), r);
    } else {
      NothingPending(calls, s, r);
      EnterUnpublished(calls, s, r);
    }
  }

  lemma NoFailure(calls: seq<Call>, s: State, r: nat)
    requires Inv(calls, s) && r < |s.procs|
    ensures !s.procs[r].failed
  {
    assert ProcInv(calls, s.procs[r], r);
  }

  /** Only a rank about to enter the first barrier of a call holds an invisible value. */
  lemma NothingPending(calls: seq<Call>, s: State, r: nat)
    requires Inv(calls, s) && r < |s.procs| && s.procs[r].stage != Enter
    ensures s.procs[r].pending.Nothing?
  {
    assert PendingInv(calls, s.procs[r], r);
  }

  /** Entering a barrier with nothing left to publish. */
  lemma EnterUnpublished(calls: seq<Call>, t: State, r: nat)
    requires Inv(calls, t) && r < |t.procs| && t.procs[r].call < |calls| && t.procs[r].pending.Nothing?
    requires t.procs[r].stage == Enter || t.procs[r].stage == EnterAgain
    ensures Inv(calls, Entering(t, r, if t.procs[r].stage == Enter then Wait else WaitAgain))
  {
    hide Barriers, Encode, Key, Outcome, CountOf, KeyOf;
    var p := t.procs[r];
    var p' := p.(stage := if p.stage == Enter then Wait else WaitAgain, entered := p.entered + 1);
    assert ProcInv(calls, p, r) && PendingInv(calls, p, r);
    forall c | 0 <= c < |calls| ensures KeyInv(calls, t.store, p', r, c) {
      assert KeyInv(calls, t.store, t.procs[r], r, c);
    }
    forall q | 0 <= q < |t.procs| ensures BarrierSafe(calls, p', t.procs[q]) {
      assert BarrierSafe(calls, p, t.procs[q]);
    }
    LocalChange(calls, t, r, p');
  }

  lemma WaitPreserves(calls: seq<Call>, s: State, r: nat)
    requires Inv(calls, s) && r < |s.procs| && s.procs[r].call < |calls| && s.procs[r].stage == Wait
    ensures Inv(calls, Step(calls, s, r))
  {
    hide Encode, Key, KeyOf, Barriers, CountOf, Outcome;
    var p := s.procs[r];
    if BarrierOpen(s, r) {
      var p' := p.(stage := Collect);
      assert ProcInv(calls, p, r) && PendingInv(calls, p, r);
      forall c | 0 <= c < |calls| ensures KeyInv(calls, s.store, p', r, c) {
        assert KeyInv(calls, s.store, s.procs[r], r, c);
      }
      forall q | 0 <= q < |s.procs| ensures BarrierSafe(calls, p', s.procs[q]) {
        assert s.procs[q].entered >= p.entered;
      }
      LocalChange(calls, s, r, p');
    }
  }

  lemma WaitAgainPreserves(calls: seq<Call>, s: State, r: nat)
    requires Inv(calls, s) && r < |s.procs| && s.procs[r].call < |calls| && s.procs[r].stage == WaitAgain
    ensures Inv(calls, Step(calls, s, r))
  {
    hide Encode, Key, KeyOf;
    var p := s.procs[r];
    if BarrierOpen(s, r) {
      var p' := FinishCall(p, p.target);
      assert ProcInv(calls, p, r) && PendingInv(calls, p, r);
      forall c | 0 <= c < |calls| ensures KeyInv(calls, s.store, p', r, c) {
        assert KeyInv(calls, s.store, s.procs[r], r, c);
      }
      forall q | 0 <= q < |s.procs| ensures BarrierSafe(calls, p', s.procs[q]) {
        assert s.procs[q].entered >= p.entered;
      }
      LocalChange(calls, s, r, p');
    }
  }

  /** After the barrier, what rank i contributed can be read back. */
  lemma Readable(calls: seq<Call>, s: State, r: nat, i: nat)
    requires Inv(calls, s) && r < |s.procs| && i < |s.procs|
    requires s.procs[r].call < |calls| && s.procs[r].stage == Collect
    requires Contributes(calls[s.procs[r].call], i)
    ensures
      var call := calls[s.procs[r].call];
      var key := CurrentKey(call, s.procs[r], i);
      key in s.store && Decode(s.store[key]) == call.data[i]
  {
    hide Encode, Key, Outcome;
    var c := s.procs[r].call;
    assert BarrierSafe(calls, s.procs[r], s.procs[i]);
    assert ProcInv(calls, s.procs[i], i);
    EnteredMeansReached(calls, s.procs[i], i, c);
    assert ProcInv(calls, s.procs[r], r);
    assert CurrentKey(calls[c], s.procs[r], i) == KeyOf(calls, c, i);
    assert KeyInv(calls, s.store, s.procs[i], i, c);
    DecodeEncode(calls[c].data[i]);
  }

  /** An allgather reads one rank's block. */
  lemma GetPreserves(calls: seq<Call>, s: State, r: nat)
    requires Inv(calls, s) && r < |s.procs| && s.procs[r].call < |calls| && s.procs[r].stage == Collect
    requires calls[s.procs[r].call].kind == Gather && s.procs[r].got < |s.procs|
    ensures Inv(calls, Step(calls, s, r))
  {
    hide Encode, Decode, Key, KeyOf, CurrentKey, Barriers, CountOf, Outcome;
    var p := s.procs[r];
    var next := DoCollect(calls[p.call], s, r);
    assert ProcInv(calls, p, r) && PendingInv(calls, p, r);
    Readable(calls, s, r, p.got);
    forall c | 0 <= c < |calls| ensures KeyInv(calls, s.store, next, r, c) {
      assert KeyInv(calls, s.store, p, r, c);
    }
    forall q | 0 <= q < |s.procs| ensures BarrierSafe(calls, next, s.procs[q]) {
      assert BarrierSafe(calls, p, s.procs[q]);
    }
    LocalChange(calls, s, r, next);
  }

  /** An allgather has read all blocks and returns. */
  lemma GatheredPreserves(calls: seq<Call>, s: State, r: nat)
    requires Inv(calls, s) && r < |s.procs| && s.procs[r].call < |calls| && s.procs[r].stage == Collect
    requires calls[s.procs[r].call].kind == Gather && s.procs[r].got >= |s.procs|
    ensures Inv(calls, Step(calls, s, r))
  {
    hide Encode, Decode, Key, KeyOf, CurrentKey;
    var p := s.procs[r];
    var next := DoCollect(calls[p.call], s, r);
    assert ProcInv(calls, p, r) && PendingInv(calls, p, r);
    forall c | 0 <= c < |calls| ensures KeyInv(calls, s.store, next, r, c) {
      assert KeyInv(calls, s.store, p, r, c);
    }
    forall q | 0 <= q < |s.procs| ensures BarrierSafe(calls, next, s.procs[q]) {
      assert BarrierSafe(calls, p, s.procs[q]);
    }
    LocalChange(calls, s, r, next);
  }

  /** A broadcast has rank 0's bytes, read or its own. */
  lemma CastPreserves(calls: seq<Call>, s: State, r: nat)
    requires Inv(calls, s) && r < |s.procs| && s.procs[r].call < |calls| && s.procs[r].stage == Collect
    requires calls[s.procs[r].call].kind == Cast
    ensures Inv(calls, Step(calls, s, r))
  {
    hide Encode, Decode, Key, KeyOf, CurrentKey, Barriers, CountOf, Outcome;
    var p := s.procs[r];
    var next := DoCollect(calls[p.call], s, r);
    assert ProcInv(calls, p, r) && PendingInv(calls, p, r);
    Readable(calls, s, r, 0);
    forall c | 0 <= c < |calls| ensures KeyInv(calls, s.store, next, r, c) {
      assert KeyInv(calls, s.store, p, r, c);
    }
    forall q | 0 <= q < |s.procs| ensures BarrierSafe(calls, next, s.procs[q]) {
      assert BarrierSafe(calls, p, s.procs[q]);
    }
    LocalChange(calls, s, r, next);
  }

  /** Every step of every rank keeps the invariant. */
  lemma StepPreserves(calls: seq<Call>, s: State, r: nat)
    requires Inv(calls, s) && r < |s.procs|
    ensures Inv(calls, Step(calls, s, r))
    ensures |Step(calls, s, r).procs| == |s.procs|
  {
    hide Inv, ProcInv;
    assert Program(calls, |s.procs|) by { InvProgram(calls, s); }
    var p := s.procs[r];
    if !p.failed && p.call < |calls| {
      match p.stage
      case Put => PutPreserves(calls, s, r);
      case Enter => EnterPreserves(calls, s, r);
      case Wait => WaitPreserves(calls, s, r);
      case Collect =>
        if calls[p.call].kind == Cast {
          CastPreserves(calls, s, r);
        } else if p.got < |s.procs| {
          GetPreserves(calls, s, r);
        } else {
          GatheredPreserves(calls, s, r);
        }
      case EnterAgain => EnterPreserves(calls, s, r);
      case WaitAgain => WaitAgainPreserves(calls, s, r);
    }
  }

  lemma InvProgram(calls: seq<Call>, s: State)
    requires Inv(calls, s)
    ensures Program(calls, |s.procs|)
  {}

  /** A run interleaves the ranks' steps with values becoming visible early. */
  datatype Action = Act(rank: nat, early: bool)

  function Next(calls: seq<Call>, s: State, a: Action): State
    requires Program(calls, |s.procs|) && a.rank < |s.procs|
  {
    if a.early then Publish(s, a.rank) else Step(calls, s, a.rank)
  }

  lemma NextPreserves(calls: seq<Call>, s: State, a: Action)
    requires Inv(calls, s) && a.rank < |s.procs|
    ensures Inv(calls, Next(calls, s, a)) && |Next(calls, s, a).procs| == |s.procs|
  {
    hide Inv, Step;
    InvProgram(calls, s);
    if a.early {
      PublishPreserves(calls, s, a.rank);
    } else {
      StepPreserves(calls, s, a.rank);
    }
  }

  ghost function Run(calls: seq<Call>, s: State, actions: seq<Action>): (t: State)
    requires Inv(calls, s)
    requires forall k :: 0 <= k < |actions| ==> actions[k].rank < |s.procs|
    ensures Inv(calls, t) && |t.procs| == |s.procs|
  {
    if |actions| == 0 then s
    else
      var n := |actions| - 1;
      var before := Run(calls, s, actions[..n]);
      NextPreserves(calls, before, actions[n]);
      Next(calls, before, actions[n])
  }

  ghost predicate Reaches(calls: seq<Call>, s: State, actions: seq<Action>, t: State) {
    && Program(calls, |s.procs|) && Initial(s)
    && (forall k :: 0 <= k < |actions| ==> actions[k].rank < |s.procs|)
    && (InitialInv(calls, s); t == Run(calls, s, actions))
  }

  /** Allgather and broadcast over every run: whatever a faster rank has already put for later calls, each completed
      allgather leaves the concatenation by rank, each completed broadcast leaves rank 0's bytes, and nothing fails. */
  lemma CollectivesDeliver(calls: seq<Call>, s: State, actions: seq<Action>, t: State, r: nat, c: nat)
    requires Reaches(calls, s, actions, t)
    requires r < |t.procs| && c < t.procs[r].call
    ensures !t.procs[r].failed
    ensures c < |calls| && |calls[c].data| == |t.procs| && c < |t.procs[r].results|
    ensures t.procs[r].results[c] ==
            if calls[c].kind == Gather then Concat(calls[c].data, |t.procs|) else calls[c].data[0]
  {
    InitialInv(calls, s);
    hide Run;
    assert ProcInv(calls, t.procs[r], r);
  }

  /** The results of one rank: one for each call it has completed, as the call promises. */
  ghost predicate Delivered(calls: seq<Call>, ranks: nat, results: seq<seq<Byte>>) {
    && |results| <= |calls|
    && forall c :: 0 <= c < |results| ==>
         && |calls[c].data| == ranks >= 1
         && results[c] == if calls[c].kind == Gather then Concat(calls[c].data, ranks) else calls[c].data[0]
  }

  lemma ResultsDelivered(calls: seq<Call>, s: State, actions: seq<Action>, t: State, r: nat)
    requires Reaches(calls, s, actions, t) && r < |t.procs|
    ensures Delivered(calls, |t.procs|, t.procs[r].results) && |t.procs[r].results| == t.procs[r].call
  {
    InitialInv(calls, s);
    assert ProcInv(calls, t.procs[r], r);
    hide Run, Inv, ProcInv, Concat;
    forall c | 0 <= c < |t.procs[r].results|
      ensures
        && |calls[c].data| == |t.procs|
        && t.procs[r].results[c] == if calls[c].kind == Gather then Concat(calls[c].data, |t.procs|) else calls[c].data[0]
    {
      CollectivesDeliver(calls, s, actions, t, r, c);
    }
  }

  /** Rank i's block of an allgather result, for blocks of len bytes. */
  lemma {:induction false} ConcatBlock(data: seq<seq<Byte>>, n: nat, len: nat, i: nat)
    requires i < n <= |data| && forall r :: 0 <= r < |data| ==> |data[r]| == len
    ensures |Concat(data, n)| == Times(n, len) && Times(i, len) + len <= Times(n, len)
    ensures Concat(data, n)[Times(i, len)..Times(i, len) + len] == data[i]
  {
    ConcatLength(data, n, len);
    ConcatLength(data, n - 1, len);
    assert Times(n, len) == Times(n - 1, len) + len;
    hide Times;
    if i < n - 1 {
      ConcatBlock(data, n - 1, len, i);
    }
  }

  lemma {:induction false} ConcatLength(data: seq<seq<Byte>>, n: nat, len: nat)
    requires n <= |data| && forall r :: 0 <= r < |data| ==> |data[r]| == len
    ensures |Concat(data, n)| == Times(n, len)
  {
    if n != 0 {
      ConcatLength(data, n - 1, len);
    }
  }

  /** A key about to be put is not in the store and not pending in any rank: every key is put at most once. */
  lemma KeyIsFresh(calls: seq<Call>, s: State, r: nat)
    requires Inv(calls, s) && r < |s.procs| && s.procs[r].call < |calls| && s.procs[r].stage == Put
    ensures
      var key := KeyOf(calls, s.procs[r].call, r);
      && Key(calls[s.procs[r].call].kind, CallCount(s.procs[r], calls[s.procs[r].call].kind), r) == key
      && key !in s.store
      && forall q :: 0 <= q < |s.procs| && s.procs[q].pending.Put1? ==> s.procs[q].pending.key != key
  {
    hide Key, Encode;
    var p := s.procs[r];
    assert ProcInv(calls, p, r);
    assert KeyInv(calls, s.store, p, r, p.call);
    forall q | 0 <= q < |s.procs| && s.procs[q].pending.Put1?
      ensures s.procs[q].pending.key != KeyOf(calls, p.call, r)
    {
      assert PendingInv(calls, s.procs[q], q);
      if KeyOf(calls, s.procs[q].call, q) == KeyOf(calls, p.call, r) {
        KeyOfInjective(calls, s.procs[q].call, q, p.call, r);
        assert false;
      }
    }
  }

  /** All ranks that have finished have passed the same number of barriers, whatever their roles in broadcasts. */
  lemma SameBarriers(calls: seq<Call>, s: State, r: nat, q: nat)
    requires Inv(calls, s) && r < |s.procs| && q < |s.procs|
    requires s.procs[r].call == s.procs[q].call && s.procs[r].stage == s.procs[q].stage
    ensures s.procs[r].entered == s.procs[q].entered
  {
    assert ProcInv(calls, s.procs[r], r) && ProcInv(calls, s.procs[q], q);
  }

  /** What the second barrier of a broadcast is for: when one rank has left the call, every rank holds rank 0's bytes. */
  lemma BroadcastReachedAll(calls: seq<Call>, s: State, r: nat, q: nat, c: nat)
    requires Inv(calls, s) && r < |s.procs| && q < |s.procs|
    requires c < |calls| && calls[c].kind == Cast && s.procs[r].call > c
    ensures |calls[c].data| == |s.procs| && s.procs[q].call <= |calls|
    ensures
      || (s.procs[q].call > c && c < |s.procs[q].results| && s.procs[q].results[c] == calls[c].data[0])
      || (s.procs[q].call == c && s.procs[q].stage == WaitAgain && s.procs[q].target == calls[c].data[0])
  {
    var p, o := s.procs[r], s.procs[q];
    assert ProcInv(calls, p, r) && ProcInv(calls, o, q);
    assert BarrierSafe(calls, p, o);
    hide CountOf, KeyInv;
    BarriersGrow(calls, c, p.call);
    if o.call <= c {
      BarriersGrow(calls, o.call, c);
    }
  }

  /** What the barrier of a gather is for: when one rank has left the call, every rank has contributed to it. */
  lemma GatherReachedAll(calls: seq<Call>, s: State, r: nat, q: nat, c: nat)
    requires Inv(calls, s) && r < |s.procs| && q < |s.procs|
    requires c < |calls| && calls[c].kind == Gather && s.procs[r].call > c
    ensures HasPut(calls, s.procs[q], q, c)
  {
    var p, o := s.procs[r], s.procs[q];
    assert ProcInv(calls, p, r) && ProcInv(calls, o, q);
    assert BarrierSafe(calls, p, o);
    hide CountOf, KeyInv;
    BarriersGrow(calls, c, p.call);
    EnteredMeansReached(calls, o, q, c);
  }

  predicate Enabled(calls: seq<Call>, s: State, r: nat)
    requires r < |s.procs|
  {
    && !s.procs[r].failed && s.procs[r].call < |calls|
    && (s.procs[r].stage == Wait || s.procs[r].stage == WaitAgain ==> BarrierOpen(s, r))
  }

  lemma LeastEntered(s: State) returns (m: nat)
    requires |s.procs| >= 1
    ensures m < |s.procs| && BarrierOpen(s, m)
  {
    m := 0;
    for n := 1 to |s.procs|
      invariant m < n && forall q :: 0 <= q < n ==> s.procs[q].entered >= s.procs[m].entered
    {
      if s.procs[n].entered < s.procs[m].entered {
        m := n;
      }
    }
  }

  /** No deadlock: while some rank has calls left, some rank can step. */
  lemma SomeRankEnabled(calls: seq<Call>, s: State, u: nat)
    requires Inv(calls, s) && u < |s.procs| && s.procs[u].call < |calls|
    ensures exists r: nat :: r < |s.procs| && Enabled(calls, s, r)
  {
    hide CountOf, KeyInv, Outcome;
    var m := LeastEntered(s);
    var p, q := s.procs[m], s.procs[u];
    assert ProcInv(calls, p, m) && ProcInv(calls, q, u);
    if p.call < |calls| {
      assert Enabled(calls, s, m);
    } else {
      BarriersGrow(calls, q.call, |calls|);
      assert q.entered <= p.entered;
      assert Enabled(calls, s, u);
    }
  }

  function StageIndex(stage: Stage): nat {
    match stage
    case Put => 0
    case Enter => 1
    case Wait => 2
    case Collect => 3
    case EnterAgain => 4
    case WaitAgain => 5
  }

  /** How far a rank has come, for n ranks. */
  function Position(p: Proc, n: nat): nat {
    Times(p.call, n + 7) + StageIndex(p.stage) + p.got
  }

  /** Progress: every step of an enabled rank moves it forward and leaves the other ranks where they are. */
  lemma StepAdvances(calls: seq<Call>, s: State, r: nat)
    requires Inv(calls, s) && r < |s.procs| && Enabled(calls, s, r)
    ensures
      var t := Step(calls, s, r);
      && |t.procs| == |s.procs|
      && Position(t.procs[r], |s.procs|) > Position(s.procs[r], |s.procs|)
      && forall q :: 0 <= q < |s.procs| && q != r ==> t.procs[q] == s.procs[q]
  {
    hide CountOf, KeyInv, Outcome, Key, Encode, Decode, Barriers;
    var p := s.procs[r];
    assert ProcInv(calls, p, r);
    if p.stage == Collect {
      if calls[p.call].kind == Gather && p.got < |s.procs| {
        Readable(calls, s, r, p.got);
      } else if calls[p.call].kind == Cast {
        Readable(calls, s, r, 0);
      }
    } else if p.stage == Put {
      KeyIsFresh(calls, s, r);
      assert PendingInv(calls, p, r);
    }
  }

  /** The measure of a rank: making a pending value visible is progress too. */
  function Score(p: Proc, n: nat): nat {
    2 * Position(p, n) + if p.pending.Nothing? then 1 else 0
  }

  function Scores(s: State): (m: seq<nat>)
    ensures |m| == |s.procs| && forall r :: 0 <= r < |s.procs| ==> m[r] == Score(s.procs[r], |s.procs|)
  {
    seq(|s.procs|, r requires 0 <= r < |s.procs| => Score(s.procs[r], |s.procs|))
  }

  function MostScore(count: nat, n: nat): nat {
    2 * Times(count, n + 7) + 1
  }

  lemma StepScores(calls: seq<Call>, s: State, r: nat)
    requires Inv(calls, s) && r < |s.procs| && Program(calls, |s.procs|)
    ensures !Enabled(calls, s, r) ==> Step(calls, s, r) == s
    ensures Enabled(calls, s, r) ==>
              && |Step(calls, s, r).procs| == |s.procs|
              && Score(Step(calls, s, r).procs[r], |s.procs|) > Score(s.procs[r], |s.procs|)
  {
    hide Key, Encode, Decode, Position, Inv;
    if Enabled(calls, s, r) {
      StepAdvances(calls, s, r);
    }
  }

  /** An action that changes anything raises the score of its rank and leaves the others alone. */
  lemma NextScores(calls: seq<Call>, s: State, a: Action)
    requires Inv(calls, s) && a.rank < |s.procs| && Program(calls, |s.procs|) && Next(calls, s, a) != s
    ensures
      var t := Next(calls, s, a);
      && |t.procs| == |s.procs|
      && Score(t.procs[a.rank], |s.procs|) > Score(s.procs[a.rank], |s.procs|)
      && forall q :: 0 <= q < |s.procs| && q != a.rank ==> t.procs[q] == s.procs[q]
  {
    if !a.early {
      StepScores(calls, s, a.rank);
      hide Inv, Step;
      StepAdvances(calls, s, a.rank);
    }
  }

  lemma NextRaises(calls: seq<Call>, s: State, a: Action)
    requires Inv(calls, s) && a.rank < |s.procs| && Program(calls, |s.procs|) && Next(calls, s, a) != s
    ensures Sum(Scores(Next(calls, s, a))) > Sum(Scores(s))
  {
    NextScores(calls, s, a);
    hide Next, Inv, Score;
    var t := Next(calls, s, a);
    assert Scores(t) == Scores(s)[a.rank := Scores(t)[a.rank]];
    SumUpdate(Scores(s), a.rank, Scores(t)[a.rank]);
  }

  lemma ScoreBounded(calls: seq<Call>, p: Proc, r: nat, n: nat)
    requires ProcInv(calls, p, r) && Program(calls, n)
    ensures Score(p, n) <= MostScore(|calls|, n)
  {
    hide CountOf, Barriers, Outcome, Concat;
    if p.call < |calls| {
      assert |calls[p.call].data| == n;
      TimesGrow(n + 7, p.call, |calls|);
    }
  }

  lemma ScoresBounded(calls: seq<Call>, s: State)
    requires Inv(calls, s)
    ensures Sum(Scores(s)) <= Times(|s.procs|, MostScore(|calls|, |s.procs|))
  {
    forall r | 0 <= r < |s.procs| ensures Scores(s)[r] <= MostScore(|calls|, |s.procs|) {
      assert ProcInv(calls, s.procs[r], r);
      ScoreBounded(calls, s.procs[r], r, |s.procs|);
    }
    SumBound(Scores(s), MostScore(|calls|, |s.procs|));
  }

  predicate AllCompleted(calls: seq<Call>, s: State) {
    forall r :: 0 <= r < |s.procs| ==> s.procs[r].call >= |calls|
  }

  /** The calls of n ranks as a system in which every rank must be scheduled; values may become visible at any time. */
  ghost function Job(calls: seq<Call>, n: nat): Fairness.System<State, Action> {
    Fairness.System(
      (s: State, a: Action) => if Program(calls, |s.procs|) && a.rank < |s.procs| then Next(calls, s, a) else s,
      (s: State) => Inv(calls, s) && |s.procs| == n,
      (s: State) => Sum(Scores(s)),
      Times(n, MostScore(|calls|, n)),
      (a: Action) => a.rank < n && !a.early,
      (s: State) => AllCompleted(calls, s))
  }

  lemma CompletedStays(calls: seq<Call>, s: State, a: Action)
    requires Program(calls, |s.procs|) && a.rank < |s.procs| && AllCompleted(calls, s)
    ensures AllCompleted(calls, Next(calls, s, a))
  {
    hide DoPut, DoCollect;
    assert s.procs[a.rank].call >= |calls|;
  }

  lemma JobProgress(calls: seq<Call>, n: nat)
    ensures Fairness.Progressive(Job(calls, n)) && Fairness.Live(Job(calls, n))
  {
    hide Inv, Next, Scores, AllCompleted, Enabled, MostScore;
    var y := Job(calls, n);
    forall s: State, a: Action | y.inv(s)
      ensures y.inv(y.next(s, a)) && (y.next(s, a) != s ==> y.measure(y.next(s, a)) > y.measure(s))
      ensures y.done(s) ==> y.done(y.next(s, a))
    {
      InvProgram(calls, s);
      if a.rank < n {
        NextPreserves(calls, s, a);
        if Next(calls, s, a) != s {
          NextRaises(calls, s, a);
        }
        if y.done(s) {
          CompletedStays(calls, s, a);
        }
      }
    }
    forall s: State | y.inv(s) ensures y.measure(s) <= y.bound {
      ScoresBounded(calls, s);
    }
    forall s: State | y.inv(s) && !y.done(s) ensures exists a :: y.must(a) && y.next(s, a) != s {
      InvProgram(calls, s);
      var r := SomeRankSteps(calls, s);
      assert y.must(Act(r, false)) && y.next(s, Act(r, false)) != s;
    }
  }

  lemma SomeRankSteps(calls: seq<Call>, s: State) returns (r: nat)
    requires Inv(calls, s) && !AllCompleted(calls, s)
    ensures r < |s.procs| && Program(calls, |s.procs|) && Next(calls, s, Act(r, false)) != s
  {
    InvProgram(calls, s);
    hide Inv, Step, Enabled;
    var u: nat :| u < |s.procs| && s.procs[u].call < |calls|;
    SomeRankEnabled(calls, s, u);
    r :| r < |s.procs| && Enabled(calls, s, r);
    StepScores(calls, s, r);
  }

  lemma {:induction false} RunIsRun(calls: seq<Call>, s: State, actions: seq<Action>)
    requires Inv(calls, s)
    requires forall k :: 0 <= k < |actions| ==> actions[k].rank < |s.procs|
    ensures Run(calls, s, actions) == Fairness.Run(Job(calls, |s.procs|), s, actions)
  {
    hide Inv, Next;
    if |actions| > 0 {
      RunIsRun(calls, s, actions[..|actions| - 1]);
      InvProgram(calls, Run(calls, s, actions[..|actions| - 1]));
    }
  }

  /** Termination: in any run the number of actions that change anything is bounded by the calls and the ranks. */
  lemma RunEnds(calls: seq<Call>, s: State, actions: seq<Action>, t: State)
    requires Reaches(calls, s, actions, t)
    ensures t == Fairness.Run(Job(calls, |s.procs|), s, actions)
    ensures Fairness.Effective(Job(calls, |s.procs|), s, actions) <= Times(|s.procs|, MostScore(|calls|, |s.procs|))
  {
    InitialInv(calls, s);
    RunIsRun(calls, s, actions);
    hide Inv, Run, MostScore;
    JobProgress(calls, |s.procs|);
    Fairness.EffectiveBounded(Job(calls, |s.procs|), s, actions);
  }

  /** The schedule never starves one of n ranks, and is long enough for `count` calls. */
  ghost predicate FairJob(count: nat, n: nat, blocks: seq<seq<Action>>) {
    && (forall b, r: nat :: 0 <= b < |blocks| && r < n ==> Act(r, false) in blocks[b])
    && |blocks| > Times(n, MostScore(count, n))
  }

  /** Taking turns is such a schedule. */
  lemma TurnsAreFair(count: nat, n: nat)
    ensures exists blocks :: FairJob(count, n, blocks)
  {
    hide Times, MostScore;
    var block := seq(n, r requires 0 <= r => Act(r, false));
    forall r: nat | r < n ensures Act(r, false) in block {
      assert block[r] == Act(r, false);
    }
    var blocks := seq(Times(n, MostScore(count, n)) + 1, _ => block);
    assert FairJob(count, n, blocks);
  }

  /** Progress: when no rank is starved, every rank completes all its calls. */
  lemma FairRunCompletes(calls: seq<Call>, s: State, blocks: seq<seq<Action>>, actions: seq<Action>, t: State)
    requires Reaches(calls, s, actions, t) && actions == Fairness.Flatten(blocks)
    requires FairJob(|calls|, |s.procs|, blocks)
    ensures |t.procs| == |s.procs| && forall r :: 0 <= r < |t.procs| ==> t.procs[r].call == |calls|
  {
    InitialInv(calls, s);
    RunIsRun(calls, s, actions);
    JobProgress(calls, |s.procs|);
    var y := Job(calls, |s.procs|);
    hide Run, MostScore, Inv;
    forall b, a: Action | 0 <= b < |blocks| && y.must(a) ensures a in blocks[b] {
      assert a == Act(a.rank, false);
    }
    Fairness.FairRunEnds(y, s, blocks);
    forall r | 0 <= r < |t.procs| ensures t.procs[r].call == |calls| {
      ResultsDelivered(calls, s, actions, t, r);
    }
  }
}
