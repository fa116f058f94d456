/** How `random_access` sizes the global table and spreads it over the ranks. */
module TableLayout {
  import opened PowersOfTwo

  const TWO31: int := 0x8000_0000
  const TWO32: int := 0x1_0000_0000
  const TWO64: int := 0x1_0000_0000_0000_0000

  /** Conversion to a 32-bit signed int. */
  function ToInt32(x: int): (r: int)
    ensures -TWO31 <= r < TWO31
    ensures r == x <==> -TWO31 <= x < TWO31
  {
    (x + TWO31) % TWO32 - TWO31
  }

  /** Conversion to a 64-bit unsigned int. */
  function ToUint64(x: int): (r: int)
    ensures 0 <= r < TWO64
  {
    x % TWO64
  }

  /**
   * The size of the table for `mem` bytes on each of `ranks` ranks, 200000 by default: the halving loop finds the largest
   * power of two of 8-byte words that all ranks hold together, or 1.
   */
  method ComputeTableSize(mem: nat, ranks: nat) returns (logSize: nat, size: nat)
    ensures size == Pow2(logSize)
    ensures logSize > 0 ==> 8 * size <= (if mem != 0 then mem else 200000) * ranks
    ensures (if mem != 0 then mem else 200000) * ranks < 8 * (2 * size)
  {
    hide Scale;
    var bytes := (if mem != 0 then mem else 200000) * ranks;
    var totalWords := bytes as real / 8.0;
    var total := totalWords * 0.5;
    logSize, size := 0, 1;
    ScaleTwo(totalWords);
    while total >= 1.0
      invariant size == Pow2(logSize)
      invariant totalWords == Scale(total, (2 * size) as real)
      invariant logSize > 0 ==> size as real <= totalWords
      decreases total.Floor
    {
      ScaleHalved(total, (2 * size) as real);
      total := total * 0.5;
      logSize := logSize + 1;
      size := 2 * size;
    }
    ScaleBelow(total, (2 * size) as real);
  }

  /** A table of `size` words in blocks: the first Remainder() ranks hold one word more than the others. */
  datatype Layout = Layout(size: nat, ranks: nat) {
    ghost predicate Valid() {
      && 1 <= ranks < TWO31
      && 1 <= size < TWO64
    }

    function MinLocal(): nat
      requires Valid()
    {
      size / ranks
    }

    function Remainder(): (r: nat)
      requires Valid()
      ensures r < ranks && size == MinLocal() * ranks + r
    {
      assert size == ranks * (size / ranks) + size % ranks;
      size - MinLocal() * ranks
    }

    function Top(): nat
      requires Valid()
    {
      (MinLocal() + 1) * Remainder()
    }

    function LocalSize(rank: nat): nat
      requires Valid()
    {
      if rank < Remainder() then MinLocal() + 1 else MinLocal()
    }

    /** The first global index of a rank's block. */
    function Start(rank: nat): nat
      requires Valid()
    {
      if rank < Remainder() then (MinLocal() + 1) * rank else MinLocal() * rank + Remainder()
    }

    /** A rank's block follows the entries of the ranks before it: an equal share each, and one more for the first ones. */
    lemma StartShares(rank: nat)
      requires Valid() && rank <= ranks
      ensures Start(rank) == rank * (size / ranks) + if rank < size % ranks then rank else size % ranks
      ensures rank < ranks ==> LocalSize(rank) == size / ranks + if rank < size % ranks then 1 else 0
    {
      DivUnique(size, ranks, MinLocal(), Remainder());
    }

    lemma StartNext(rank: nat)
      requires Valid() && rank < ranks
      ensures Start(rank + 1) == Start(rank) + LocalSize(rank)
    {
      var m, rem := MinLocal(), Remainder();
      hide MinLocal, Remainder;
      MulNext(m, rank);
      MulNext(m + 1, rank);
      if rank + 1 == rem {
        assert (m + 1) * rem == m * rem + rem;
      }
    }

    lemma StartEnds()
      requires Valid()
      ensures Start(0) == 0 && Start(ranks) == size
    {}

    lemma {:induction false} StartMonotone(a: nat, b: nat)
      requires Valid() && a <= b <= ranks
      ensures Start(a) <= Start(b)
    {
      if a < b {
        hide Start, LocalSize;
        StartMonotone(a, b - 1);
        StartNext(b - 1);
      }
    }

    /** Every local index of a rank is a global index of the table. */
    lemma LocalInTable(rank: nat, i: nat)
      requires Valid() && rank < ranks && i < LocalSize(rank)
      ensures Start(rank) + i < size
    {
      StartNext(rank);
      StartMonotone(rank + 1, ranks);
      StartEnds();
    }

    /** The rank and local index that `update_table` computes for a global offset, with its C integer types. */
    function Place(offset: nat): (p: (int, int))
      requires Valid() && offset < size
    {
      if offset < Top() then
        var pe := ToInt32(offset / (MinLocal() + 1));
        var start := ToInt32(ToUint64((MinLocal() + 1) * pe));
        (pe, ToInt32(ToUint64(offset - start)))
      else
        BottomBranch(MinLocal(), Remainder(), ranks, offset);
        var pe := ToInt32(ToUint64(offset - Remainder()) / MinLocal());
        var start := ToInt32(ToUint64(MinLocal() * pe + Remainder()));
        (pe, ToInt32(ToUint64(offset - start)))
    }

    /** The block of `rank` holds the global offset. */
    predicate Holds(rank: int, offset: nat)
      requires Valid()
    {
      0 <= rank < ranks && Start(rank) <= offset < Start(rank) + LocalSize(rank)
    }

    /** The computed rank holds the offset, and the computed index is the offset's position in its block. */
    predicate PlacedRight(offset: nat)
      requires Valid() && offset < size
    {
      Holds(Place(offset).0, offset) && Place(offset).1 == offset - Start(Place(offset).0)
    }

    lemma TopStart(rank: nat)
      requires Valid() && rank < Remainder()
      ensures Start(rank) == (MinLocal() + 1) * rank && LocalSize(rank) == MinLocal() + 1
    {}

    lemma BottomStart(rank: nat)
      requires Valid() && Remainder() <= rank
      ensures Start(rank) == MinLocal() * rank + Remainder() && LocalSize(rank) == MinLocal()
    {}

    /** The computed rank holds the offset. */
    lemma PlaceTop(offset: nat)
      requires Valid() && offset < size && offset < Top()
      ensures Holds(Place(offset).0, offset)
      ensures Place(offset).1 == ToInt32(ToUint64(offset - ToInt32(ToUint64(Start(Place(offset).0)))))
    {
      hide ToUint64, ToInt32, MinLocal, Remainder;
      var m := MinLocal();
      TopBranch(m, Remainder(), offset);
      var pe := offset / (m + 1);
      TopStart(pe);
      assert Place(offset).0 == pe;
      hide Start, LocalSize, Top;
    }

    lemma PlaceBottom(offset: nat)
      requires Valid() && offset < size && offset >= Top()
      ensures Holds(Place(offset).0, offset)
      ensures Place(offset).1 == ToInt32(ToUint64(offset - ToInt32(ToUint64(Start(Place(offset).0)))))
    {
      var m, rem := MinLocal(), Remainder();
      assert offset >= (m + 1) * rem && offset < m * ranks + rem;
      hide ToInt32, ToUint64, MinLocal, Remainder, Top;
      BottomBranch(m, rem, ranks, offset);
      SmallUint64(offset - rem);
      var pe := (offset - rem) / m;
      BottomStart(pe);
      hide Start, LocalSize;
      assert Place(offset).0 == ToInt32(pe) == pe;
    }

    /** The C code finds the rank that holds the offset, and the local index exactly when that index fits in an int. */
    lemma PlaceCorrect(offset: nat)
      requires Valid() && offset < size
      ensures Holds(Place(offset).0, offset)
      ensures PlacedRight(offset) <==> offset - Start(Place(offset).0) < TWO31
    {
      if offset < Top() {
        PlaceTop(offset);
      } else {
        PlaceBottom(offset);
      }
      TruncatedDifference(offset, Start(Place(offset).0));
    }

    /** Every placement is right exactly when the largest block has at most 2^31 entries. */
    lemma PlacementExact()
      requires Valid()
      ensures (forall offset: nat :: offset < size ==> PlacedRight(offset)) <==> LocalSize(0) <= 0x8000_0000
    {
      hide LocalSize, Place, Start;
      if LocalSize(0) <= TWO31 {
        forall offset: nat | offset < size ensures PlacedRight(offset) {
          PlaceCorrect(offset);
          LocalSizeLargest(Place(offset).0);
        }
      } else {
        PlaceTooFar();
      }
    }

    lemma LocalSizeLargest(rank: nat)
      requires Valid()
      ensures LocalSize(rank) <= LocalSize(0)
    {}

    /** With a larger block, offset 2^31 is misplaced. */
    lemma PlaceTooFar()
      requires Valid() && LocalSize(0) > TWO31
      ensures TWO31 < size && !PlacedRight(TWO31)
    {
      hide Place, LocalSize;
      StartEnds();
      hide Start;
      LocalInTable(0, TWO31);
      PlaceCorrect(TWO31);
      if PlacedRight(TWO31) {
        HolderUnique(TWO31, 0, Place(TWO31).0);
        assert false;
      }
    }

    /** Blocks do not overlap. */
    lemma HolderUnique(offset: nat, a: nat, b: nat)
      requires Valid() && Holds(a, offset) && Holds(b, offset)
      ensures a == b
    {
      StartNext(a);
      StartNext(b);
      if a < b {
        StartMonotone(a + 1, b);
      } else if b < a {
        StartMonotone(b + 1, a);
      }
    }

    /** Placement and global numbering are inverse: local entry i of a rank is found at (rank, i). */
    lemma PlaceOfLocal(rank: nat, i: nat)
      requires Valid() && rank < ranks && i < LocalSize(rank) && i < TWO31
      ensures Start(rank) + i < size
      ensures Place(Start(rank) + i) == (rank as int, i as int)
    {
      hide Place, Start, LocalSize;
      LocalInTable(rank, i);
      PlaceCorrect(Start(rank) + i);
      HolderUnique(Start(rank) + i, rank, Place(Start(rank) + i).0);
    }
  }

  lemma MulNext(d: int, x: int)
    ensures d * (x + 1) == d * x + d
  {}

  lemma MulMonotone(d: int, x: int, y: int)
    requires d >= 0 && x <= y
    ensures d * x <= d * y
  {}

  /** The first ranks hold m + 1 entries each. */
  lemma TopBranch(m: nat, rem: nat, offset: nat)
    requires offset < (m + 1) * rem
    ensures offset / (m + 1) < rem
    ensures (m + 1) * (offset / (m + 1)) <= offset < (m + 1) * (offset / (m + 1)) + m + 1
  {}

  /** The other ranks hold m entries each; the division by m happens only when m > 0. */
  lemma BottomBranch(m: nat, rem: nat, p: nat, offset: nat)
    requires (m + 1) * rem <= offset < m * p + rem
    ensures m > 0 && rem <= offset
    ensures rem <= (offset - rem) / m < p
    ensures m * ((offset - rem) / m) + rem <= offset < m * ((offset - rem) / m) + rem + m
  {
    assert (m + 1) * rem == m * rem + rem;
    MulMonotone(rem, 0, m);
    ZeroTimes(m, p);
    var d := offset - rem;
    var q := d / m;
    assert d == m * q + d % m;
    if q < rem {
      MulMonotone(m, q + 1, rem);
      assert false;
    }
    if q >= p {
      MulMonotone(m, p, q);
      assert false;
    }
  }

  lemma ZeroTimes(m: int, p: int)
    ensures m == 0 ==> m * p == 0
  {}

  /** Truncating the start to 32 bits before subtracting does not change the low 32 bits of the difference. */
  lemma TruncatedDifference(offset: nat, start: nat)
    requires start <= offset < TWO64
    ensures ToInt32(ToUint64(offset - ToInt32(ToUint64(start)))) == ToInt32(offset - start)
  {
    var s := ToInt32(start);
    var k := (start + TWO31) / TWO32;
    assert start - s == TWO32 * k;
    var d := offset - s;
    var j := d / TWO64;
    assert ToUint64(d) == d - TWO64 * j;
    assert ToUint64(d) == (offset - start) + TWO32 * (k - TWO32 * j);
    Int32Periodic(offset - start, k - TWO32 * j);
  }

  lemma SmallUint64(x: nat)
    requires x < TWO64
    ensures ToUint64(x) == x
  {}

  lemma Int32Periodic(x: int, k: int)
    ensures ToInt32(x + TWO32 * k) == ToInt32(x)
  {}

  function Scale(t: real, k: real): real {
    t * k
  }

  lemma ScaleTwo(t: real)
    ensures Scale(t * 0.5, 2.0) == t
  {}

  lemma ScaleBelow(t: real, k: real)
    requires t < 1.0 && k > 0.0
    ensures Scale(t, k) < k
  {}

  lemma ScaleHalved(t: real, k: real)
    requires t >= 1.0 && k > 0.0
    ensures Scale(t * 0.5, 2.0 * k) == Scale(t, k) >= k
  {}
}
