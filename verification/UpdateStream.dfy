/** The updates of RandomAccess as a stream of values, serial and split over the ranks. */
module UpdateStream {
  import opened PowersOfTwo
  import opened Words
  import opened WordNumbers
  import opened Lfsr
  import opened TableLayout

  lemma ToNatCons(b: bool, rest: seq<bool>)
    ensures ToNat([b] + rest) == (if b then 1 else 0) + 2 * ToNat(rest)
  {
    assert ([b] + rest)[1..] == rest;
  }

  lemma ThreeBits(a: bool, b: bool, c: bool)
    ensures ToNat([a, b, c]) == (if a then 1 else 0) + (if b then 2 else 0) + (if c then 4 else 0)
  {
    ToNatCons(c, []);
    ToNatCons(b, [c]);
    ToNatCons(a, [b, c]);
    assert [c] + [] == [c] && [b] + [c] == [b, c] && [a] + [b, c] == [a, b, c];
  }

  /** The stream starts with the number 1. */
  lemma FirstNumber()
    ensures ToNat(Value(0)) == 1
  {
    ToNatZeros(63);
    ToNatCons(true, seq(63, i => false));
    assert Unit(0) == [true] + seq(63, i => false);
  }

  /** The C shift doubles the 63 low bits and drops the top one. */
  lemma LeftNumber(w: Word)
    ensures ToNat(w[..63]) < Pow2(63)
    ensures ToNat(w) == ToNat(w[..63]) + if w[63] then Pow2(63) else 0
    ensures ToNat(Left(w)) == 2 * ToNat(w[..63]) && !Left(w)[0]
  {
    var body := w[..63];
    assert w == body + [w[63]] && Left(w) == [false] + body;
    hide Left, Pow2;
    ToNatSplit(body, [w[63]]);
    ToNatCons(w[63], []);
    assert [w[63]] + [] == [w[63]];
    ToNatBound(body);
    ToNatCons(false, body);
  }

  lemma FlipShape(a: Word)
    ensures a == [a[0], a[1], a[2]] + a[3..]
    ensures Xor(a, Poly()) == [!a[0], !a[1], !a[2]] + a[3..]
  {}

  lemma LowHigh(a: bool, b: bool, c: bool, high: seq<bool>)
    ensures ToNat([a, b, c] + high) == ToNat([a, b, c]) + 8 * ToNat(high)
    ensures ToNat([a, b, c]) == (if a then 1 else 0) + (if b then 2 else 0) + (if c then 4 else 0)
  {
    ToNatSplit([a, b, c], high);
    Pow2Three();
    hide Pow2;
    ThreeBits(a, b, c);
  }

  lemma Pow2Three()
    ensures Pow2(3) == 8
  {}

  /** Exclusive or with 7 turns the last three bits, of value l, into 7 - l. */
  lemma FlipLowBits(a: Word)
    ensures ToNat(Xor(a, Poly())) == ToNat(a) - ToNat(a) % 8 + (7 - ToNat(a) % 8)
  {
    FlipShape(a);
    hide Xor, Poly, ToNat;
    LowHigh(a[0], a[1], a[2], a[3..]);
    LowHigh(!a[0], !a[1], !a[2], a[3..]);
    DivUnique(ToNat(a), 8, ToNat(a[3..]), ToNat([a[0], a[1], a[2]]));
  }

  lemma Pow2Next(k: nat)
    ensures Pow2(k + 1) == 2 * Pow2(k)
  {}

  /**
   * A step in numbers: doubling modulo 2^64 and, when the top bit was set, exclusive or with 7, which turns the last
   * three bits of the even number e into 7 - e % 8.
   */
  lemma StepNumber(w: Word)
    ensures ToNat(w) < Pow2(64) && (w[63] <==> ToNat(w) >= Pow2(63))
    ensures !w[63] ==> ToNat(Shift(w)) == 2 * ToNat(w)
    ensures w[63] ==>
              var e := 2 * ToNat(w) - Pow2(64);
              e >= 0 && ToNat(Shift(w)) == e - e % 8 + (7 - e % 8)
  {
    hide ToNat, Pow2, Xor, Left, Poly;
    Pow2Next(63);
    LeftNumber(w);
    if w[63] {
      FlipLowBits(Left(w));
    } else {
      XorZero(Left(w));
    }
  }

  /** What update k does to global entry g: stream value k if it is addressed to g. */
  function Hit(size: nat, k: nat, g: nat): Word
    requires size > 0
  {
    if Masked(Value(k), size) == g then Value(k) else Zero()
  }

  /** The combined effect on entry g of the updates a+1 .. a+n. */
  function Updates(size: nat, a: nat, n: nat, g: nat): Word
    requires size > 0
  {
    if n == 0 then Zero() else Xor(Updates(size, a, n - 1, g), Hit(size, a + n, g))
  }

  lemma {:induction false} UpdatesSplit(size: nat, a: nat, m: nat, n: nat, g: nat)
    requires size > 0
    ensures Updates(size, a, m + n, g) == Xor(Updates(size, a, m, g), Updates(size, a + m, n, g))
  {
    hide Xor, Hit;
    if n == 0 {
      XorZero(Updates(size, a, m, g));
    } else {
      UpdatesSplit(size, a, m, n - 1, g);
      XorAssociates(Updates(size, a, m, g), Updates(size, a + m, n - 1, g), Hit(size, a + m + n, g));
    }
  }

  /** The table after n serial updates T[a_k & (size-1)] ^= a_k, from T[g] = g. */
  function SerialTable(size: nat, n: nat): (t: seq<Word>)
    requires size > 0
    ensures |t| == size
  {
    if n == 0 then seq(size, g requires 0 <= g < size => FromNat(g))
    else
      var t := SerialTable(size, n - 1);
      var at := Masked(Value(n), size);
      if at < size then t[at := Xor(t[at], Value(n))] else t
  }

  lemma {:induction false} SerialEntry(size: nat, n: nat, g: nat)
    requires g < size
    ensures SerialTable(size, n)[g] == Xor(FromNat(g), Updates(size, 0, n, g))
  {
    hide Xor, Masked, Iterate, FromNat, Zero;
    if n == 0 {
      XorZero(FromNat(g));
    } else {
      SerialEntry(size, n - 1, g);
      XorZero(Updates(size, 0, n - 1, g));
      XorAssociates(FromNat(g), Updates(size, 0, n - 1, g), Value(n));
    }
  }

  lemma MaskedInRange(w: Word, k: nat)
    requires k <= 64
    ensures Masked(w, Pow2(k)) < Pow2(k)
  {
    MaskIsMod(w, k);
  }

  /** The serial benchmark: 4 * size updates in place. */
  method SerialRandomAccess(logSize: nat) returns (table: array<Word>)
    requires logSize <= 61
    ensures fresh(table) && table[..] == SerialTable(Pow2(logSize), 4 * Pow2(logSize))
  {
    hide Xor, Masked, Shift, FromNat;
    var size := Pow2(logSize);
    table := new Word[size];
    for g := 0 to size
      invariant forall j :: 0 <= j < g ==> table[j] == FromNat(j)
    {
      table[g] := FromNat(g);
    }
    var ran: Word := Unit(0);
    assert table[..] == SerialTable(size, 0);
    for k := 0 to 4 * size
      invariant ran == Value(k)
      invariant table[..] == SerialTable(size, k)
    {
      ran := Shift(ran);
      MaskedInRange(ran, logSize);
      var at := Masked(ran, size);
      table[at] := Xor(table[at], ran);
    }
  }

  /** The combined effect on entry g of the first done[q] updates of each rank q < p. */
  function RankUpdates(L: Layout, done: seq<nat>, p: nat, g: nat): Word
    requires L.Valid() && p <= |done|
  {
    if p == 0 then Zero()
    else Xor(RankUpdates(L, done, p - 1, g), Updates(L.size, 4 * L.Start(p - 1), done[p - 1], g))
  }

  /** Ranks that have not started contribute nothing. */
  lemma {:induction false} RankUpdatesNone(L: Layout, done: seq<nat>, p: nat, g: nat)
    requires L.Valid() && p <= |done|
    requires forall q :: 0 <= q < |done| ==> done[q] == 0
    ensures RankUpdates(L, done, p, g) == Zero()
  {
    if p != 0 {
      RankUpdatesNone(L, done, p - 1, g);
      XorZero(Zero());
    }
  }

  /** One more update of rank r adds exactly that update, wherever the other ranks are. */
  lemma {:induction false} RankUpdatesStep(L: Layout, done: seq<nat>, r: nat, p: nat, g: nat)
    requires L.Valid() && r < |done| && p <= |done|
    ensures
      var next := done[r := done[r] + 1];
      RankUpdates(L, next, p, g) ==
      if r < p then Xor(RankUpdates(L, done, p, g), Hit(L.size, 4 * L.Start(r) + done[r] + 1, g))
      else RankUpdates(L, done, p, g)
  {
    hide Xor, Hit;
    if p != 0 {
      RankUpdatesStep(L, done, r, p - 1, g);
      var before := RankUpdates(L, done, p - 1, g);
      var hit := Hit(L.size, 4 * L.Start(r) + done[r] + 1, g);
      if r == p - 1 {
        XorAssociates(before, Updates(L.size, 4 * L.Start(r), done[r], g), hit);
      } else if r < p - 1 {
        var u := Updates(L.size, 4 * L.Start(p - 1), done[p - 1], g);
        XorAssociates(before, hit, u);
        XorCommutes(hit, u);
        XorAssociates(before, u, hit);
      }
    }
  }

  /** The ranks' complete streams, in rank order, are the serial stream: no update is lost or repeated. */
  lemma {:induction false} RankUpdatesAll(L: Layout, done: seq<nat>, p: nat, g: nat)
    requires L.Valid() && p <= |done| == L.ranks
    requires forall q :: 0 <= q < L.ranks ==> done[q] == 4 * L.LocalSize(q)
    ensures RankUpdates(L, done, p, g) == Updates(L.size, 0, 4 * L.Start(p), g)
  {
    hide Xor, Hit;
    if p == 0 {
      L.StartEnds();
    } else {
      RankUpdatesAll(L, done, p - 1, g);
      L.StartNext(p - 1);
      UpdatesSplit(L.size, 0, 4 * L.Start(p - 1), 4 * L.LocalSize(p - 1), g);
    }
  }

  /** The values a rank applies in one pass of `update_table`. */
  function RankStream(L: Layout, rank: nat): seq<Word>
    requires L.Valid()
  {
    seq<Word>(4 * L.LocalSize(rank), i requires 0 <= i => Value(4 * L.Start(rank) + i + 1))
  }

  function AllStreams(L: Layout, p: nat): seq<Word>
    requires L.Valid()
  {
    if p == 0 then [] else AllStreams(L, p - 1) + RankStream(L, p - 1)
  }

  /** Stream partition: the ranks' streams in rank order are values 1 .. 4*size. */
  lemma {:induction false} StreamPartition(L: Layout, p: nat)
    requires L.Valid() && p <= L.ranks
    ensures |AllStreams(L, p)| == 4 * L.Start(p)
    ensures forall i :: 0 <= i < 4 * L.Start(p) ==> AllStreams(L, p)[i] == Value(i + 1)
    ensures p == L.ranks ==> |AllStreams(L, p)| == 4 * L.size
  {
    hide Iterate;
    if p == 0 {
      L.StartEnds();
    } else {
      StreamPartition(L, p - 1);
      L.StartNext(p - 1);
      L.StartEnds();
    }
  }
}
