/** `CT_ALLREDUCE_FUNC`: every rank gathers all values into its own buffer and folds what it reads there. */
module Reduction {
  import opened Codec
  import opened Keys
  import opened Multiples
  import opened Totals
  import opened Collectives
  import opened RankOrder

  /** The value in block i of a rank's buffer. */
  function ReadBlock<T>(dec: seq<Byte> -> T, buffer: seq<Byte>, i: nat, len: nat): T
    requires Times(i, len) + len <= |buffer|
  {
    dec(buffer[Times(i, len)..Times(i, len) + len])
  }

  /** The fold of the first n blocks of a rank's buffer, read one after the other. */
  function Reduce<T>(op: (T, T) -> T, dec: seq<Byte> -> T, buffer: seq<Byte>, n: nat, len: nat): T
    requires 1 <= n && Times(n, len) <= |buffer|
  {
    if n == 1 then ReadBlock(dec, buffer, 0, len)
    else op(Reduce(op, dec, buffer, n - 1, len), ReadBlock(dec, buffer, n - 1, len))
  }

  /** The loop after the gather, in one rank's memory. */
  method Allreduce<T>(op: (T, T) -> T, dec: seq<Byte> -> T, buffer: seq<Byte>, n: nat, len: nat) returns (ret: T)
    requires 1 <= n && Times(n, len) <= |buffer|
    ensures ret == Reduce(op, dec, buffer, n, len)
  {
    TimesGrow(len, 1, n);
    assert Times(1, len) == Times(0, len) + len;
    ret := ReadBlock(dec, buffer, 0, len);
    for i := 1 to n
      invariant Times(i, len) <= |buffer| && ret == Reduce(op, dec, buffer, i, len)
    {
      TimesGrow(len, i, n);
      ret := op(ret, ReadBlock(dec, buffer, i, len));
    }
  }

  /** Each rank passes its value in len bytes. */
  ghost predicate Represents<T(!new)>(dec: seq<Byte> -> T, vals: seq<T>, data: seq<seq<Byte>>, len: nat) {
    && |data| == |vals| >= 1
    && forall r :: 0 <= r < |data| ==> |data[r]| == len && dec(data[r]) == vals[r]
  }

  /** A buffer that holds the ranks' blocks in order reduces to the fold of the ranks' values. */
  lemma {:induction false} ReduceConcat<T(!new)>(op: (T, T) -> T, dec: seq<Byte> -> T, vals: seq<T>,
                                           data: seq<seq<Byte>>, len: nat, n: nat)
    requires Represents(dec, vals, data, len) && 1 <= n <= |data|
    ensures |Concat(data, |data|)| == Times(|data|, len) >= Times(n, len)
    ensures Reduce(op, dec, Concat(data, |data|), n, len) == Fold(op, vals, n)
  {
    ConcatBlock(data, |data|, len, n - 1);
    TimesGrow(len, n, |data|);
    hide Concat, Times;
    if n > 1 {
      ReduceConcat(op, dec, vals, data, len, n - 1);
    }
  }

  /**
   * Reduction on every rank: in every run of any sequence of collectives, each rank that has completed a gather of the
   * values, and folds its own buffer, gets the fold of all ranks' values in rank order.
   */
  lemma EveryRankReduces<T(!new)>(op: (T, T) -> T, dec: seq<Byte> -> T, vals: seq<T>, len: nat,
                            calls: seq<Call>, s: State, actions: seq<Action>, t: State, r: nat, c: nat)
    requires Reaches(calls, s, actions, t) && r < |t.procs| && c < t.procs[r].call
    requires c < |calls| && calls[c].kind == Gather && Represents(dec, vals, calls[c].data, len)
    ensures |t.procs| == |vals| && c < |t.procs[r].results|
    ensures |t.procs[r].results[c]| == Times(|vals|, len)
    ensures Reduce(op, dec, t.procs[r].results[c], |vals|, len) == Fold(op, vals, |vals|)
  {
    hide Reaches, Concat, Reduce;
    CollectivesDeliver(calls, s, actions, t, r, c);
    ReduceConcat(op, dec, vals, calls[c].data, len, |vals|);
  }

  /** The same through `allgather`, whatever order the underlying gather uses. */
  method GatherAndReduce<T(!new)>(op: (T, T) -> T, dec: seq<Byte> -> T, ghost vals: seq<T>, g: Gatherer,
                            order: seq<nat>, data: seq<seq<Byte>>, len: nat) returns (ret: T)
    requires Permutation(order, |data|) && g.Valid(order) && Represents(dec, vals, data, len)
    modifies g
    ensures g.Valid(order) && ret == Fold(op, vals, |vals|)
  {
    var out := new Byte[Times(|data|, len)](i => 0);
    g.Allgather(order, data, len, out);
    ReduceConcat(op, dec, vals, data, len, |data|);
    ret := Allreduce(op, dec, out[..], |data|, len);
  }

  function ByteValue(b: Byte): (v: nat)
    ensures v < 256
  {
    b as int
  }

  function ToByte(v: nat): (b: Byte)
    requires v < 256
    ensures ByteValue(b) == v
  {
    if v == 0 then 0 else ToByte(v - 1) + 1
  }

  /** A non-negative C integer in memory, least significant byte first. */
  function FromBytes(b: seq<Byte>): int {
    if |b| == 0 then 0 else ByteValue(b[0]) + 256 * FromBytes(b[1..])
  }

  function ToBytes(v: nat, len: nat): (b: seq<Byte>)
    ensures |b| == len
  {
    if len == 0 then [] else [ToByte(v % 256)] + ToBytes(v / 256, len - 1)
  }

  function Power256(k: nat): (p: nat)
    ensures p >= 1
  {
    if k == 0 then 1 else 256 * Power256(k - 1)
  }

  lemma DigitSplit(v: nat, p: nat)
    requires v < 256 * p
    ensures v / 256 < p && v == v % 256 + 256 * (v / 256)
  {}

  lemma {:induction false} BytesRoundTrip(v: nat, len: nat)
    requires v < Power256(len)
    ensures FromBytes(ToBytes(v, len)) == v
  {
    if len > 0 {
      DigitSplit(v, Power256(len - 1));
      hide ToByte, ByteValue, Power256;
      BytesRoundTrip(v / 256, len - 1);
      assert ToBytes(v, len)[1..] == ToBytes(v / 256, len - 1);
    }
  }

  /** What the ranks pass to a reduction of len-byte integers. */
  function IntCall(vals: seq<nat>, len: nat): Call {
    Call(Gather, seq(|vals|, r requires 0 <= r < |vals| => ToBytes(vals[r], len)))
  }

  lemma IntsRepresented(vals: seq<nat>, len: nat)
    requires |vals| >= 1 && forall r :: 0 <= r < |vals| ==> vals[r] < Power256(len)
    ensures Represents(FromBytes, Ints(vals), IntCall(vals, len).data, len)
  {
    forall r | 0 <= r < |vals| ensures FromBytes(ToBytes(vals[r], len)) == vals[r] {
      BytesRoundTrip(vals[r], len);
    }
  }

  function Ints(vals: seq<nat>): (l: seq<int>)
    ensures |l| == |vals| && forall r :: 0 <= r < |vals| ==> l[r] == vals[r]
  {
    seq(|vals|, r requires 0 <= r < |vals| => vals[r])
  }

  /** The fold with `Add` is the sum. */
  lemma {:induction false} FoldAdds(vals: seq<nat>, n: nat)
    requires 1 <= n <= |vals|
    ensures Fold(Add, Ints(vals), n) == Sum(vals[..n])
  {
    assert vals[..n][..n - 1] == vals[..n - 1];
    if n > 1 {
      FoldAdds(vals, n - 1);
    } else {
      assert Sum(vals[..1]) == Sum(vals[..0]) + vals[0];
    }
  }

  /** The sum a rank computes from its own buffer. */
  function SumOf(buffer: seq<Byte>, n: nat, len: nat): int
    requires 1 <= n && Times(n, len) <= |buffer|
  {
    Reduce(Add, FromBytes, buffer, n, len)
  }

  /**
   * On every rank and in every run the sum is the sum of all contributions, and positive exactly when one of them
   * is.
   */
  lemma EveryRankSums(vals: seq<nat>, most: nat, len: nat,
                      calls: seq<Call>, s: State, actions: seq<Action>, t: State, r: nat, c: nat)
    requires Reaches(calls, s, actions, t) && r < |t.procs| && c < t.procs[r].call
    requires c < |calls| && calls[c] == IntCall(vals, len) && |vals| >= 1
    requires forall i :: 0 <= i < |vals| ==> vals[i] <= most < Power256(len)
    ensures |t.procs| == |vals| && c < |t.procs[r].results| && |t.procs[r].results[c]| == Times(|vals|, len)
    ensures SumOf(t.procs[r].results[c], |vals|, len) == Fold(Add, Ints(vals), |vals|) == Sum(vals)
    ensures 0 <= SumOf(t.procs[r].results[c], |vals|, len) <= |vals| * most
    ensures SumOf(t.procs[r].results[c], |vals|, len) > 0 <==> exists i :: 0 <= i < |vals| && vals[i] > 0
  {
    IntsRepresented(vals, len);
    hide Reaches, Reduce, Represents, FromBytes, ToBytes, Power256;
    EveryRankReduces(Add, FromBytes, Ints(vals), len, calls, s, actions, t, r, c);
    SumPositive(Ints(vals), |vals|, most);
    FoldAdds(vals, |vals|);
    assert vals[..|vals|] == vals;
  }

  /** The test of `recv_abort` on one rank. */
  predicate Aborts(buffer: seq<Byte>, n: nat)
    requires 1 <= n && Times(n, 4) <= |buffer|
  {
    SumOf(buffer, n, 4) > 0
  }

  /**
   * All ranks take the same side of the `recv_abort` test: in every run, each rank that has completed the reduction of
   * the ranks' flags aborts if and only if some rank failed to allocate, and no rank's int overflows.
   */
  lemma AbortAgreed(sendAbort: seq<nat>, calls: seq<Call>, s: State, actions: seq<Action>, t: State,
                    q: nat, r: nat, c: nat)
    requires Reaches(calls, s, actions, t) && q < |t.procs| && r < |t.procs|
    requires c < t.procs[q].call && c < t.procs[r].call
    requires c < |calls| && calls[c] == IntCall(sendAbort, 4) && 1 <= |sendAbort| < 0x8000_0000
    requires forall i :: 0 <= i < |sendAbort| ==> sendAbort[i] == 0 || sendAbort[i] == 1
    ensures |t.procs| == |sendAbort| && c < |t.procs[q].results| && c < |t.procs[r].results|
    ensures |t.procs[q].results[c]| == |t.procs[r].results[c]| == Times(|sendAbort|, 4)
    ensures Aborts(t.procs[r].results[c], |sendAbort|) <==> exists i :: 0 <= i < |sendAbort| && sendAbort[i] == 1
    ensures Aborts(t.procs[q].results[c], |sendAbort|) <==> Aborts(t.procs[r].results[c], |sendAbort|)
    ensures SumOf(t.procs[r].results[c], |sendAbort|, 4) < 0x8000_0000
  {
    assert Power256(4) > 1;
    hide Reaches, Reduce, Power256;
    EveryRankSums(sendAbort, 1, 4, calls, s, actions, t, q, c);
    EveryRankSums(sendAbort, 1, 4, calls, s, actions, t, r, c);
  }
}
