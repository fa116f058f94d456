/**
 * The random number generator: a word is a polynomial over GF(2) of degree below 64, and a step multiplies by x
 * modulo x^64 + x^2 + x + 1.
 */
module Lfsr {
  import opened Words

  const PERIOD: nat := 1317624576693539401

  /** The polynomial x^j. */
  function Unit(j: nat): Word
    requires j < 64
  {
    seq(64, i => i == j)
  }

  /** The feedback polynomial x^2 + x + 1. */
  function Poly(): Word {
    seq(64, i => i < 3)
  }

  /** The C shift `w << 1`. */
  function Left(w: Word): Word {
    seq(64, i requires 0 <= i < 64 => i > 0 && w[i - 1])
  }

  /** One step of the generator. */
  function Shift(w: Word): Word {
    Xor(Left(w), if w[63] then Poly() else Zero())
  }

  function Iterate(n: nat, w: Word): Word {
    if n == 0 then w else Shift(Iterate(n - 1, w))
  }

  /** The n-th value of the stream that starts with 1. */
  function Value(n: nat): Word {
    Iterate(n, Unit(0))
  }

  lemma ShiftBits(w: Word)
    ensures forall i :: 0 <= i < 64 ==> Shift(w)[i] == ((i > 0 && w[i - 1]) != (w[63] && i < 3))
  {}

  lemma ShiftLinear(a: Word, b: Word)
    ensures Shift(Xor(a, b)) == Xor(Shift(a), Shift(b))
  {}

  lemma IterateAdd(m: nat, n: nat, w: Word)
    ensures Iterate(m + n, w) == Iterate(m, Iterate(n, w))
  {}

  lemma {:induction false} IterateLinear(n: nat, a: Word, b: Word)
    ensures Iterate(n, Xor(a, b)) == Xor(Iterate(n, a), Iterate(n, b))
  {
    if n != 0 {
      hide Shift, Xor;
      IterateLinear(n - 1, a, b);
      ShiftLinear(Iterate(n - 1, a), Iterate(n - 1, b));
    }
  }

  function Triple(n: nat): Word {
    Xor(Value(n), Xor(Value(n + 1), Value(n + 2)))
  }

  lemma {:induction false} ValueUnit(j: nat)
    requires j < 64
    ensures Value(j) == Unit(j)
  {
    if j != 0 {
      ValueUnit(j - 1);
      ShiftBits(Unit(j - 1));
      assert Shift(Unit(j - 1)) == Unit(j);
    }
  }

  lemma PolyIsTriple()
    ensures Poly() == Triple(0)
  {}

  /** x^64 = x^2 + x + 1. */
  lemma Value64()
    ensures Value(64) == Triple(0)
  {
    assert Value(64) == Shift(Value(63));
    hide Iterate;
    ValueUnit(63);
    ShiftBits(Unit(63));
    assert Shift(Unit(63)) == Poly();
    PolyIsTriple();
  }

  /** x^(64+n) = x^(n+2) + x^(n+1) + x^n. */
  lemma Wrap(n: nat)
    ensures Value(64 + n) == Triple(n)
  {
    Value64();
    IterateAdd(n, 64, Unit(0));
    IterateLinear(n, Value(0), Xor(Value(1), Value(2)));
    IterateLinear(n, Value(1), Value(2));
    IterateAdd(n, 0, Unit(0));
    IterateAdd(n, 1, Unit(0));
    IterateAdd(n, 2, Unit(0));
  }

  lemma XorTelescopes(a: Word, b: Word, c: Word, d: Word, e: Word)
    ensures Xor(Xor(a, Xor(b, c)), Xor(Xor(b, Xor(c, d)), Xor(c, Xor(d, e)))) == Xor(a, Xor(c, e))
  {}

  /** x^128 = x^4 + x^2 + 1: the value the table-building loop leaves behind. */
  lemma Value128()
    ensures Value(128) == Xor(Value(0), Xor(Value(2), Value(4)))
  {
    hide Iterate, Xor;
    Wrap(64);
    Wrap(0);
    Wrap(1);
    Wrap(2);
    XorTelescopes(Value(0), Value(1), Value(2), Value(3), Value(4));
  }

  /** Interleaves 32 bits with zeros. */
  function Spread(h: seq<bool>): Word
    requires |h| == 32
  {
    seq(64, i requires 0 <= i < 64 => i % 2 == 0 && h[i / 2])
  }

  /** s (x^2 + x + 1). */
  function Fold(s: Word): Word {
    Xor(s, Xor(Shift(s), Shift(Shift(s))))
  }

  /** The square of a polynomial over GF(2), reduced by x^64 = x^2 + x + 1. */
  function Square(w: Word): Word {
    Xor(Spread(w[..32]), Fold(Spread(w[32..])))
  }

  lemma FoldLinear(a: Word, b: Word)
    ensures Fold(Xor(a, b)) == Xor(Fold(a), Fold(b))
  {
    ShiftLinear(a, b);
    ShiftLinear(Shift(a), Shift(b));
    XorRegroup(Shift(a), Shift(b), Shift(Shift(a)), Shift(Shift(b)));
    XorRegroup(a, b, Xor(Shift(a), Shift(Shift(a))), Xor(Shift(b), Shift(Shift(b))));
  }

  /** Squaring is linear over XOR. */
  lemma SquareLinear(a: Word, b: Word)
    ensures Square(Xor(a, b)) == Xor(Square(a), Square(b))
  {
    assert Spread(Xor(a, b)[..32]) == Xor(Spread(a[..32]), Spread(b[..32]));
    assert Spread(Xor(a, b)[32..]) == Xor(Spread(a[32..]), Spread(b[32..]));
    FoldLinear(Spread(a[32..]), Spread(b[32..]));
    XorRegroup(Spread(a[..32]), Spread(b[..32]), Fold(Spread(a[32..])), Fold(Spread(b[32..])));
  }

  lemma FoldZero()
    ensures Shift(Zero()) == Zero() && Fold(Zero()) == Zero()
  {}

  lemma SquareZero()
    ensures Square(Zero()) == Zero()
  {
    assert Spread(Zero()[..32]) == Zero() == Spread(Zero()[32..]);
    FoldZero();
    XorZero(Zero());
  }

  lemma SquareUnitLow(j: nat)
    requires j < 32
    ensures Square(Value(j)) == Value(2 * j)
  {
    ValueUnit(j);
    ValueUnit(2 * j);
    assert Spread(Unit(j)[..32]) == Unit(2 * j);
    assert Spread(Unit(j)[32..]) == Zero();
    FoldZero();
    XorZero(Unit(2 * j));
  }

  lemma FoldValue(m: nat)
    ensures Fold(Value(m)) == Value(64 + m)
  {
    Wrap(m);
  }

  lemma SquareUnitHigh(j: nat)
    requires 32 <= j < 64
    ensures Square(Value(j)) == Value(2 * j)
  {
    hide Iterate, Xor, Fold;
    var m := 2 * j - 64;
    ValueUnit(j);
    ValueUnit(m);
    assert Spread(Unit(j)[..32]) == Zero();
    assert Spread(Unit(j)[32..]) == Unit(m);
    FoldValue(m);
    XorZero(Fold(Value(m)));
  }

  lemma Square64()
    ensures Square(Value(64)) == Value(128)
  {
    hide Square, Xor, Iterate;
    Value64();
    SquareLinear(Value(0), Xor(Value(1), Value(2)));
    SquareLinear(Value(1), Value(2));
    SquareUnitLow(0);
    SquareUnitLow(1);
    SquareUnitLow(2);
    Value128();
  }

  /** The sum of vs[j] over the set bits j < n of w. */
  function Combine(w: Word, n: nat, vs: seq<Word>): Word
    requires n <= 64 == |vs|
  {
    if n == 0 then Zero()
    else
      var rest := Combine(w, n - 1, vs);
      if w[n - 1] then Xor(rest, vs[n - 1]) else rest
  }

  /** The powers x^(k*j + c) for j = 0..63. */
  function Powers(k: nat, c: nat): (p: seq<Word>)
    ensures |p| == 64
  {
    seq(64, j requires 0 <= j < 64 => Value(k * j + c))
  }

  /** The first n bits of w, with the others cleared. */
  function LowBits(w: Word, n: nat): Word {
    seq(64, i requires 0 <= i < 64 => i < n && w[i])
  }

  lemma LowBitsNext(w: Word, n: nat)
    requires n < 64
    ensures LowBits(w, n + 1) == if w[n] then Xor(LowBits(w, n), Unit(n)) else LowBits(w, n)
  {}

  lemma {:induction false} CombineUnits(w: Word, n: nat)
    requires n <= 64
    ensures Combine(w, n, Powers(1, 0)) == LowBits(w, n)
  {
    if n == 0 {
      assert LowBits(w, 0) == Zero();
    } else {
      hide Xor, Iterate, LowBits, Unit;
      CombineUnits(w, n - 1);
      ValueUnit(n - 1);
      LowBitsNext(w, n - 1);
    }
  }

  lemma {:induction false} CombineShift(w: Word, n: nat, vs: seq<Word>, us: seq<Word>)
    requires n <= 64 == |vs| == |us|
    requires forall j :: 0 <= j < 64 ==> us[j] == Shift(vs[j])
    ensures Shift(Combine(w, n, vs)) == Combine(w, n, us)
  {
    if n == 0 {
      FoldZero();
    } else {
      CombineShift(w, n - 1, vs, us);
      ShiftLinear(Combine(w, n - 1, vs), vs[n - 1]);
    }
  }

  lemma {:induction false} CombineSquare(w: Word, n: nat, vs: seq<Word>, us: seq<Word>)
    requires n <= 64 == |vs| == |us|
    requires forall j :: 0 <= j < 64 ==> us[j] == Square(vs[j])
    ensures Square(Combine(w, n, vs)) == Combine(w, n, us)
  {
    if n == 0 {
      SquareZero();
    } else {
      CombineSquare(w, n - 1, vs, us);
      SquareLinear(Combine(w, n - 1, vs), vs[n - 1]);
    }
  }

  lemma SquareSmall(j: nat)
    requires j <= 64
    ensures Square(Value(j)) == Value(2 * j)
  {
    hide Square, Iterate;
    if j < 32 {
      SquareUnitLow(j);
    } else if j < 64 {
      SquareUnitHigh(j);
    } else {
      Square64();
    }
  }

  lemma LowBitsAll(w: Word)
    ensures LowBits(w, 64) == w
  {}

  lemma PowerAt(k: nat, c: nat, j: nat)
    requires j < 64
    ensures Powers(k, c)[j] == Value(k * j + c)
  {}

  /** XOR of the even powers selected by the bits of w is the square of w. */
  lemma SquareIsCombine(w: Word)
    ensures Combine(w, 64, Powers(1, 0)) == w
    ensures Square(w) == Combine(w, 64, Powers(2, 0))
  {
    hide LowBits, Combine, Square, Value, Powers;
    CombineUnits(w, 64);
    LowBitsAll(w);
    forall j | 0 <= j < 64 ensures Powers(2, 0)[j] == Square(Powers(1, 0)[j]) {
      PowerAt(1, 0, j);
      PowerAt(2, 0, j);
      SquareSmall(j);
    }
    CombineSquare(w, 64, Powers(1, 0), Powers(2, 0));
  }

  lemma NextPowers(k: nat, c: nat)
    ensures forall j :: 0 <= j < 64 ==> Powers(k, c + 1)[j] == Shift(Powers(k, c)[j])
  {
    hide Shift;
  }

  /** Squaring turns one step into two. */
  lemma SquareShift(w: Word)
    ensures Square(Shift(w)) == Shift(Shift(Square(w)))
  {
    hide Square, Shift, Combine, Value, Powers;
    SquareIsCombine(w);
    NextPowers(1, 0);
    CombineShift(w, 64, Powers(1, 0), Powers(1, 1));
    forall j | 0 <= j < 64 ensures Powers(2, 2)[j] == Square(Powers(1, 1)[j]) {
      PowerAt(1, 1, j);
      PowerAt(2, 2, j);
      SquareSmall(j + 1);
    }
    CombineSquare(w, 64, Powers(1, 1), Powers(2, 2));
    NextPowers(2, 0);
    CombineShift(w, 64, Powers(2, 0), Powers(2, 1));
    NextPowers(2, 1);
    CombineShift(w, 64, Powers(2, 1), Powers(2, 2));
  }

  /** Squaring doubles the number of steps. */
  lemma {:induction false} SquareValue(n: nat)
    ensures Square(Value(n)) == Value(2 * n)
  {
    hide Square, Shift;
    if n == 0 {
      SquareSmall(0);
    } else {
      SquareValue(n - 1);
      SquareShift(Value(n - 1));
      assert Value(2 * n) == Shift(Value(2 * n - 1)) == Shift(Shift(Value(2 * n - 2)));
    }
  }
}
