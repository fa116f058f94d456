/** Machine arithmetic for the words of `Lfsr`, used to evaluate the stream at its period. */
module BitVectors {
  import opened Words
  import opened Lfsr

  /** The shift count j as a machine word. */
  function Index(j: nat): (k: bv8)
    requires j < 64
    ensures k < 64 && k as int == j
  {
    if j == 0 then 0 else Index(j - 1) + 1
  }

  predicate HasBit(b: bv64, j: bv8)
    requires j < 64
  {
    (b >> j) & 1 == 1
  }

  /** The bits of a machine word. */
  function Bits(b: bv64): Word {
    seq(64, j requires 0 <= j < 64 => HasBit(b, Index(j)))
  }

  /** What a step feeds back when bit 63 is set. */
  function CarryBv(b: bv64): bv64 {
    if b >= 0x8000000000000000 then 7 else 0
  }

  function XorBv(a: bv64, b: bv64): bv64 {
    a ^ b
  }

  function LeftBv(b: bv64): bv64 {
    b << 1
  }

  function LowBv(b: bv64): bv64 {
    b & 0xFFFFFFFF
  }

  function HighBv(b: bv64): bv64 {
    b >> 32
  }

  /** `Shift` on machine words. */
  function ShiftBv(b: bv64): bv64 {
    XorBv(LeftBv(b), CarryBv(b))
  }

  /** `Spread` of the low half, in five doublings. */
  function SpreadBv(b: bv64): bv64 {
    var s1 := (b | (b << 16)) & 0x0000FFFF0000FFFF;
    var s2 := (s1 | (s1 << 8)) & 0x00FF00FF00FF00FF;
    var s3 := (s2 | (s2 << 4)) & 0x0F0F0F0F0F0F0F0F;
    var s4 := (s3 | (s3 << 2)) & 0x3333333333333333;
    (s4 | (s4 << 1)) & 0x5555555555555555
  }

  function FoldBv(b: bv64): bv64 {
    XorBv(b, XorBv(ShiftBv(b), ShiftBv(ShiftBv(b))))
  }

  function SquareBv(b: bv64): bv64 {
    XorBv(SpreadBv(LowBv(b)), FoldBv(SpreadBv(HighBv(b))))
  }

  lemma IndexDouble(j: nat)
    requires j < 32
    ensures Index(2 * j) == Index(j) << 1
  {}

  lemma IndexHigh(j: nat)
    requires j < 32
    ensures Index(j) < 32
    ensures Index(j + 32) == Index(j) + 32
  {}

  lemma XorBit(a: bv64, b: bv64, j: bv8)
    requires j < 64
    ensures HasBit(a ^ b, j) == (HasBit(a, j) != HasBit(b, j))
  {}

  lemma LeftBit(b: bv64, j: bv8)
    requires j < 63
    ensures HasBit(LeftBv(b), j + 1) == HasBit(b, j)
    ensures !HasBit(LeftBv(b), 0)
  {}

  lemma SpreadBit(b: bv64, j: bv8)
    requires j < 32 && b < 0x100000000
    ensures HasBit(SpreadBv(b), j << 1) == HasBit(b, j)
    ensures !HasBit(SpreadBv(b), (j << 1) + 1)
  {}

  lemma HalfBit(b: bv64, j: bv8)
    requires j < 32
    ensures HasBit(LowBv(b), j) == HasBit(b, j)
    ensures HasBit(HighBv(b), j) == HasBit(b, j + 32)
  {}

  lemma HalfRange(b: bv64)
    ensures LowBv(b) < 0x100000000 && HighBv(b) < 0x100000000
  {}

  lemma XorBits(a: bv64, b: bv64)
    ensures Bits(XorBv(a, b)) == Xor(Bits(a), Bits(b))
  {
    hide HasBit;
    forall j | 0 <= j < 64 ensures Bits(XorBv(a, b))[j] == Xor(Bits(a), Bits(b))[j] {
      XorBit(a, b, Index(j));
    }
  }

  lemma LeftBits(b: bv64)
    ensures Bits(LeftBv(b)) == Left(Bits(b))
  {
    hide HasBit, XorBv, LeftBv, LowBv, HighBv;
    forall j | 0 <= j < 64 ensures Bits(LeftBv(b))[j] == Left(Bits(b))[j] {
      LeftBit(b, 0);
      if j > 0 {
        LeftBit(b, Index(j - 1));
      }
    }
  }

  lemma CarryBits(b: bv64)
    ensures Bits(CarryBv(b)) == if Bits(b)[63] then Poly() else Zero()
  {}

  lemma ShiftBvBits(b: bv64)
    ensures Bits(ShiftBv(b)) == Shift(Bits(b))
  {
    hide CarryBv, XorBv, LeftBv, Bits, Left, Xor;
    LeftBits(b);
    CarryBits(b);
    XorBits(LeftBv(b), CarryBv(b));
  }


  lemma SpreadBitPair(b: bv64, j: nat)
    requires b < 0x100000000 && j < 32
    ensures Bits(SpreadBv(b))[2 * j] == Bits(b)[j]
    ensures !Bits(SpreadBv(b))[2 * j + 1]
  {
    hide HasBit, SpreadBv;
    IndexDouble(j);
    IndexHigh(j);
    SpreadBit(b, Index(j));
  }

  lemma SpreadBits(b: bv64)
    requires b < 0x100000000
    ensures Bits(SpreadBv(b)) == Spread(Bits(b)[..32])
  {
    hide Bits, SpreadBv;
    var s := Bits(SpreadBv(b));
    forall i | 0 <= i < 64 ensures s[i] == Spread(Bits(b)[..32])[i] {
      SpreadBitPair(b, i / 2);
      assert i == 2 * (i / 2) || i == 2 * (i / 2) + 1;
    }
  }

  lemma HalfBits(b: bv64)
    ensures Bits(LowBv(b))[..32] == Bits(b)[..32]
    ensures Bits(HighBv(b))[..32] == Bits(b)[32..]
  {
    hide HasBit, XorBv, LeftBv, LowBv, HighBv;
    forall j | 0 <= j < 32 ensures Bits(LowBv(b))[..32][j] == Bits(b)[..32][j] {
      IndexHigh(j);
      HalfBit(b, Index(j));
    }
    forall j | 0 <= j < 32 ensures Bits(HighBv(b))[..32][j] == Bits(b)[32..][j] {
      IndexHigh(j);
      HalfBit(b, Index(j));
    }
  }

  lemma FoldBits(b: bv64)
    ensures Bits(FoldBv(b)) == Fold(Bits(b))
  {
    hide Bits, ShiftBv, Shift, Xor, XorBv;
    var s, t := ShiftBv(b), ShiftBv(ShiftBv(b));
    ShiftBvBits(b);
    ShiftBvBits(s);
    XorBits(s, t);
    XorBits(b, XorBv(s, t));
  }

  lemma SquareBits(b: bv64)
    ensures Bits(SquareBv(b)) == Square(Bits(b))
  {
    hide Bits, SpreadBv, FoldBv, Fold, Xor, Spread, XorBv, LowBv, HighBv;
    var lo, hi := LowBv(b), HighBv(b);
    HalfRange(b);
    HalfBits(b);
    SpreadBits(lo);
    SpreadBits(hi);
    FoldBits(SpreadBv(hi));
    XorBits(SpreadBv(lo), FoldBv(SpreadBv(hi)));
  }

  /** If `a` holds value n of the stream, the value 8n + 1 is one step after three squarings. */
  lemma OctupleStep(n: nat, a: bv64, next: bv64)
    requires Bits(a) == Value(n)
    requires next == ShiftBv(SquareBv(SquareBv(SquareBv(a))))
    ensures Bits(next) == Value(8 * n + 1)
  {
    hide Bits, SquareBv, ShiftBv, Square, Shift;
    SquareBits(a);
    SquareValue(n);
    SquareBits(SquareBv(a));
    SquareValue(2 * n);
    SquareBits(SquareBv(SquareBv(a)));
    SquareValue(4 * n);
    ShiftBvBits(SquareBv(SquareBv(SquareBv(a))));
    assert Value(8 * n + 1) == Shift(Value(8 * n));
  }

  lemma Chain1()
    requires Bits(0x0000000000000002) == Value(1)
    ensures Bits(0xF2F2F2F20000F200) == Value(37449)
  {
    hide Value, Bits;
    OctupleStep(1, 0x0000000000000002, 0x0000000000000200);
    OctupleStep(9, 0x0000000000000200, 0x0000000000000E00);
    OctupleStep(73, 0x0000000000000E00, 0x000000000E0E0E00);
    OctupleStep(585, 0x000000000E0E0E00, 0x00000000F2F2F200);
    OctupleStep(4681, 0x00000000F2F2F200, 0xF2F2F2F20000F200);
  }

  lemma Chain2()
    requires Bits(0xF2F2F2F20000F200) == Value(37449)
    ensures Bits(0xF5F5F5F5F50AFA07) == Value(1227133513)
  {
    hide Value, Bits;
    OctupleStep(37449, 0xF2F2F2F20000F200, 0x010101FE00FFFCFD);
    OctupleStep(299593, 0x010101FE00FFFCFD, 0x060606060606F5F4);
    OctupleStep(2396745, 0x060606060606F5F4, 0x0C0C0C0CFFFF0C0E);
    OctupleStep(19173961, 0x0C0C0C0CFFFF0C0E, 0xFCFCFC03FF00FEFC);
    OctupleStep(153391689, 0xFCFCFC03FF00FEFC, 0xF5F5F5F5F50AFA07);
  }

  lemma Chain3()
    requires Bits(0xF5F5F5F5F50AFA07) == Value(1227133513)
    ensures Bits(0xF1F1F1F1000000F1) == Value(40210710958665)
  {
    hide Value, Bits;
    OctupleStep(1227133513, 0xF5F5F5F5F50AFA07, 0xD7D7D728DB24DBD9);
    OctupleStep(9817068105, 0xD7D7D728DB24DBD9, 0xF50AF50A0505F5FB);
    OctupleStep(78536544841, 0xF50AF50A0505F5FB, 0x8181817E7F807D83);
    OctupleStep(628292358729, 0x8181817E7F807D83, 0xF8F8F8F8F8F809FB);
    OctupleStep(5026338869833, 0xF8F8F8F8F8F809FB, 0xF1F1F1F1000000F1);
  }

  lemma Chain4()
    requires Bits(0xF1F1F1F1000000F1) == Value(40210710958665)
    ensures Bits(0x0000000000000001) == Value(1317624576693539401)
  {
    hide Value, Bits;
    OctupleStep(40210710958665, 0xF1F1F1F1000000F1, 0x0D0D0DF20000FD0F);
    OctupleStep(321685687669321, 0x0D0D0DF20000FD0F, 0x2E2E2ED123DCDDD0);
    OctupleStep(2573485501354569, 0x2E2E2ED123DCDDD0, 0x06F906F90B0B06F4);
    OctupleStep(20587884010836553, 0x06F906F90B0B06F4, 0x8080808081818082);
    OctupleStep(164703072086692425, 0x8080808081818082, 0x0000000000000001);
  }

  lemma OneBits()
    ensures Bits(1) == Unit(0)
  {}

  lemma FirstValues()
    ensures Value(0) == Unit(0) && Value(1) == Shift(Unit(0))
  {}

  lemma ShiftOne()
    ensures ShiftBv(1) == 2
  {}

  /** PERIOD = 1 + 8 + ... + 8^20 steps lead from 1 back to 1. */
  lemma PeriodReturnsToOne()
    ensures Value(PERIOD) == Value(0)
  {
    hide Bits, Iterate, Shift, ShiftBv;
    OneBits();
    FirstValues();
    ShiftBvBits(1);
    ShiftOne();
    Chain1();
    Chain2();
    Chain3();
    Chain4();
  }
}
