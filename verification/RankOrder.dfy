/** `allgather`, which restores rank order after a gather that may permute the ranks, and the fold of a reduction. */
module RankOrder {
  import opened Codec
  import opened Collectives
  import opened Multiples

  /** The fixed order in which the underlying gather lists the ranks: each rank exactly once. */
  ghost predicate Permutation(order: seq<nat>, n: nat) {
    && |order| == n
    && (forall i :: 0 <= i < n ==> order[i] < n)
    && (forall i, j :: 0 <= i < j < n ==> order[i] != order[j])
    && (forall r: nat :: r < n ==> r in order)
  }

  /** What the underlying gather returns for what the ranks pass. */
  function Listed<T>(order: seq<nat>, data: seq<T>): (l: seq<T>)
    requires forall i :: 0 <= i < |order| ==> order[i] < |data|
    ensures |l| == |order| && forall i :: 0 <= i < |order| ==> l[i] == data[order[i]]
  {
    seq(|order|, i requires 0 <= i < |order| => data[order[i]])
  }

  /** What the ranks pass to the first gather: their own numbers. */
  function RankNumbers(n: nat): (l: seq<nat>)
    ensures |l| == n && forall r :: 0 <= r < n ==> l[r] == r
  {
    seq(n, r => r)
  }

  /** The fallback gather lists the ranks in order, which is one of the orders allowed. */
  lemma FallbackOrder<T>(data: seq<T>)
    ensures Permutation(RankNumbers(|data|), |data|)
    ensures Listed(RankNumbers(|data|), data) == data
  {
    forall r: nat | r < |data| ensures r in RankNumbers(|data|) {
      assert RankNumbers(|data|)[r] == r;
    }
  }

  ghost predicate Block(buffer: seq<Byte>, r: nat, len: nat, block: seq<Byte>) {
    && |block| == len
    && Times(r, len) + len <= |buffer|
    && buffer[Times(r, len)..Times(r, len) + len] == block
  }

  /** A buffer is determined by its blocks. */
  lemma {:induction false} BlocksDetermine(buffer: seq<Byte>, data: seq<seq<Byte>>, n: nat, len: nat)
    requires n <= |data| && |buffer| == Times(n, len)
    requires forall r: nat :: r < n ==> Block(buffer, r, len, data[r])
    ensures buffer == Concat(data, n)
    decreases n
  {
    if n != 0 {
      assert Times(n, len) == Times(n - 1, len) + len;
      hide Times;
      var front := buffer[..Times(n - 1, len)];
      forall r: nat | r < n - 1 ensures Block(front, r, len, data[r]) {
        assert Block(buffer, r, len, data[r]);
        TimesGrow(len, r, n - 1);
        assert front[Times(r, len)..Times(r, len) + len] == buffer[Times(r, len)..Times(r, len) + len];
      }
      BlocksDetermine(front, data, n - 1, len);
      assert Block(buffer, n - 1, len, data[n - 1]);
      assert buffer == front + data[n - 1];
    }
  }

  /** `memcpy` into a buffer. */
  method CopyInto(buffer: array<Byte>, at: nat, src: seq<Byte>)
    requires at + |src| <= buffer.Length
    modifies buffer
    ensures buffer[..] == old(buffer[..at]) + src + old(buffer[at + |src|..])
  {
    for k := 0 to |src|
      invariant forall j :: 0 <= j < k ==> buffer[at + j] == src[j]
      invariant forall j :: 0 <= j < buffer.Length && !(at <= j < at + k) ==> buffer[j] == old(buffer[j])
    {
      buffer[at + k] := src[k];
    }
  }

  /** Replacing part of a sequence leaves the rest in place. */
  lemma SpliceKeeps(before: seq<Byte>, after: seq<Byte>, at: nat, src: seq<Byte>, k: nat)
    requires at + |src| <= |before| && after == before[..at] + src + before[at + |src|..]
    requires k < |before| && !(at <= k < at + |src|)
    ensures |after| == |before| && after[k] == before[k]
  {}

  lemma SlicesAgree(a: seq<Byte>, b: seq<Byte>, lo: nat, hi: nat)
    requires lo <= hi <= |a| == |b| && forall k :: lo <= k < hi ==> a[k] == b[k]
    ensures a[lo..hi] == b[lo..hi]
  {}

  lemma CopyKeepsBlock(before: seq<Byte>, after: seq<Byte>, q: nat, r: nat, len: nat, src: seq<Byte>, block: seq<Byte>)
    requires q != r && |src| == len && Times(q, len) + len <= |before|
    requires after == before[..Times(q, len)] + src + before[Times(q, len) + len..]
    requires Block(before, r, len, block)
    ensures Block(after, r, len, block)
  {
    hide Times;
    if q < r {
      TimesGrow(len, q, r);
    } else {
      TimesGrow(len, r, q);
    }
    var at := Times(r, len);
    forall k | at <= k < at + len ensures after[k] == before[k] {
      SpliceKeeps(before, after, Times(q, len), src, k);
    }
    SlicesAgree(after, before, at, at + len);
  }

  /** The first i blocks that the underlying gather listed are in place. */
  ghost predicate Placed(buffer: seq<Byte>, order: seq<nat>, data: seq<seq<Byte>>, i: nat, len: nat)
    requires i <= |order| && forall j :: 0 <= j < |order| ==> order[j] < |data|
  {
    forall j :: 0 <= j < i ==> Block(buffer, order[j], len, data[order[j]])
  }

  lemma PlaceNext(before: seq<Byte>, after: seq<Byte>, order: seq<nat>, data: seq<seq<Byte>>, i: nat, len: nat)
    requires Permutation(order, |data|) && i < |order| && |data[order[i]]| == len
    requires Placed(before, order, data, i, len) && Times(order[i], len) + len <= |before|
    requires after == before[..Times(order[i], len)] + data[order[i]] + before[Times(order[i], len) + len..]
    ensures Placed(after, order, data, i + 1, len)
  {
    hide Block, Times;
    var r := order[i];
    forall j | 0 <= j < i ensures Block(after, order[j], len, data[order[j]]) {
      CopyKeepsBlock(before, after, r, order[j], len, data[r], data[order[j]]);
    }
    BlockCopied(before, after, r, len, data[r]);
  }

  lemma BlockCopied(before: seq<Byte>, after: seq<Byte>, r: nat, len: nat, src: seq<Byte>)
    requires |src| == len && Times(r, len) + len <= |before|
    requires after == before[..Times(r, len)] + src + before[Times(r, len) + len..]
    ensures Block(after, r, len, src)
  {
    hide Times;
    assert after[Times(r, len)..Times(r, len) + len] == src;
  }

  /** When all listed blocks are in place the buffer is the concatenation in rank order. */
  lemma AllPlaced(buffer: seq<Byte>, order: seq<nat>, data: seq<seq<Byte>>, len: nat)
    requires Permutation(order, |data|) && Placed(buffer, order, data, |data|, len)
    requires |buffer| == Times(|data|, len)
    ensures buffer == Concat(data, |data|)
  {
    hide Block, Times, Concat;
    forall r: nat | r < |data| ensures Block(buffer, r, len, data[r]) {
      assert r in order;
    }
    BlocksDetermine(buffer, data, |data|, len);
  }

  /** The static variables of `allgather`. */
  class Gatherer {
    var alreadyCalled: bool
    var ivec: seq<nat>
    var jobSize: nat

    /** After the first call the recorded positions are the order of the underlying gather. */
    ghost predicate Valid(order: seq<nat>)
      reads this
    {
      alreadyCalled ==> jobSize == |order| && ivec == order
    }

    constructor ()
      ensures !alreadyCalled
    {
      alreadyCalled := false;
      ivec := [];
      jobSize := 0;
    }

    /** Whatever the order of the underlying gather, rank r's block ends at position r. */
    method Allgather(order: seq<nat>, data: seq<seq<Byte>>, len: nat, out: array<Byte>)
      requires Permutation(order, |data|) && Valid(order)
      requires forall r :: 0 <= r < |data| ==> |data[r]| == len
      requires out.Length == Times(|data|, len)
      modifies this, out
      ensures alreadyCalled && Valid(order)
      ensures out[..] == Concat(data, |data|)
    {
      hide Times, Concat, Block, Placed;
      if !alreadyCalled {
        jobSize := |data|;
        ivec := Listed(order, RankNumbers(|data|));
        assert ivec == order;
        alreadyCalled := true;
      }
      var tmp := Listed(order, data);
      NonePlaced(out[..], order, data, len);
      for i := 0 to jobSize
        invariant alreadyCalled && Valid(order) && jobSize == |data|
        invariant Placed(out[..], order, data, i, len)
      {
        ghost var before := out[..];
        var r := ivec[i];
        TimesGrow(len, r, |data|);
        CopyInto(out, Times(r, len), tmp[i]);
        PlaceNext(before, out[..], order, data, i, len);
      }
      AllPlaced(out[..], order, data, len);
    }
  }

  lemma NonePlaced(buffer: seq<Byte>, order: seq<nat>, data: seq<seq<Byte>>, len: nat)
    requires forall j :: 0 <= j < |order| ==> order[j] < |data|
    ensures Placed(buffer, order, data, 0, len)
  {}

  function Fold<T>(op: (T, T) -> T, vals: seq<T>, n: nat): T
    requires 1 <= n <= |vals|
  {
    if n == 1 then vals[0] else op(Fold(op, vals, n - 1), vals[n - 1])
  }

  /** The fold takes the values in rank order: folding one-element lists by concatenation lists all values. */
  lemma {:induction false} FoldInOrder<T>(vals: seq<T>, n: nat)
    requires 1 <= n <= |vals|
    ensures Fold((a: seq<T>, b: seq<T>) => a + b, seq(|vals|, i requires 0 <= i < |vals| => [vals[i]]), n) == vals[..n]
  {
    if n > 1 {
      FoldInOrder(vals, n - 1);
    }
  }

  function Add(a: int, b: int): int {
    a + b
  }

  /**
   * A sum of non-negative contributions is positive exactly when one of them is, and is at most n times the
   * largest.
   */
  lemma {:induction false} SumPositive(vals: seq<int>, n: nat, most: nat)
    requires 1 <= n <= |vals| && forall i :: 0 <= i < |vals| ==> 0 <= vals[i] <= most
    ensures 0 <= Fold(Add, vals, n) <= n * most
    ensures Fold(Add, vals, n) > 0 <==> exists i :: 0 <= i < n && vals[i] > 0
  {
    if n > 1 {
      SumPositive(vals, n - 1, most);
      assert n * most == (n - 1) * most + most;
      if vals[n - 1] > 0 {
        assert Fold(Add, vals, n) > 0;
      }
    } else {
      assert Fold(Add, vals, 1) == vals[0];
    }
  }
}
