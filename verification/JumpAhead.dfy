/** `generate_initial_xor_val`: the stream value at a distance, in logarithmic time. */
module JumpAhead {
  import opened Words
  import opened Lfsr
  import opened PowersOfTwo
  import BitVectors

  /** A reduced seed has no bit above bit 62, where the search for its highest bit begins. */
  lemma SeedFits(seed: nat)
    requires seed <= PERIOD
    ensures ShiftRight(seed, 63) == 0
  {
    Pow2Values();
    ShiftRightBound(seed, 63, 63);
  }

  /** Dropping a period does not change the value. */
  lemma PeriodRepeats(n: nat)
    ensures Value(n + PERIOD) == Value(n)
  {
    hide Iterate;
    BitVectors.PeriodReturnsToOne();
    IterateAdd(n, PERIOD, Unit(0));
    IterateAdd(n, 0, Unit(0));
  }

  /** Square-and-multiply: for every 64-bit seed the result is the generator stepped seed times from 1. */
  method GenerateInitialXorVal(seed0: nat) returns (ret: Word)
    requires seed0 < 0x1_0000_0000_0000_0000
    ensures ret == Value(seed0)
  {
    hide Shift, Xor;
    var seed := seed0;
    while seed > PERIOD
      invariant 0 <= seed
      invariant Value(seed) == Value(seed0)
    {
      PeriodRepeats(seed - PERIOD);
      seed := seed - PERIOD;
    }
    if seed == 0 {
      return Unit(0);
    }

    var m2 := new Word[64];
    var temp: Word := Unit(0);
    for k := 0 to 64
      invariant temp == Value(2 * k)
      invariant forall j :: 0 <= j < k ==> m2[j] == Value(2 * j)
    {
      m2[k] := temp;
      temp := Shift(temp);
      temp := Shift(temp);
      assert Value(2 * k + 2) == Shift(Value(2 * k + 1)) == Shift(Shift(Value(2 * k)));
    }

    SeedFits(seed);
    var i := 62;
    while i >= 0 && ShiftRight(seed, i) % 2 == 0
      invariant -1 <= i <= 62
      invariant ShiftRight(seed, i + 1) == 0
    {
      i := i - 1;
    }
    assert ShiftRight(seed, 0) == seed;
    assert ShiftRight(seed, i + 1) == ShiftRight(seed, i) / 2;

    ret := Shift(Unit(0));
    while i > 0
      invariant 0 <= i <= 62
      invariant ret == Value(ShiftRight(seed, i))
      invariant forall j :: 0 <= j < 64 ==> m2[j] == Value(2 * j)
    {
      ghost var n := ShiftRight(seed, i);
      temp := Zero();
      for j := 0 to 64
        invariant temp == Combine(ret, j, Powers(2, 0))
      {
        if ret[j] {
          temp := Xor(temp, m2[j]);
        }
      }
      SquareIsCombine(ret);
      SquareValue(n);
      ret := temp;
      i := i - 1;
      assert n == ShiftRight(seed, i) / 2;
      if ShiftRight(seed, i) % 2 == 1 {
        ret := Shift(ret);
      }
    }
  }
}
