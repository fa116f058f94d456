/** 64-bit unsigned words as sequences of bits, least significant bit first. */
module Words {
  type Word = w: seq<bool> | |w| == 64 witness seq(64, i => false)

  function Zero(): Word {
    seq(64, i => false)
  }

  function Xor(a: Word, b: Word): (r: Word)
    ensures forall i :: 0 <= i < 64 ==> r[i] == (a[i] != b[i])
  {
    seq(64, i requires 0 <= i < 64 => a[i] != b[i])
  }

  lemma XorZero(a: Word)
    ensures Xor(a, Zero()) == a == Xor(Zero(), a)
  {}

  lemma XorSelf(a: Word)
    ensures Xor(a, a) == Zero()
  {}

  lemma XorCommutes(a: Word, b: Word)
    ensures Xor(a, b) == Xor(b, a)
  {}

  lemma XorAssociates(a: Word, b: Word, c: Word)
    ensures Xor(Xor(a, b), c) == Xor(a, Xor(b, c))
  {}

  /** Sums can be regrouped. */
  lemma XorRegroup(a: Word, b: Word, c: Word, d: Word)
    ensures Xor(Xor(a, b), Xor(c, d)) == Xor(Xor(a, c), Xor(b, d))
  {}
}

/** Numbers as words. */
module WordNumbers {
  import opened PowersOfTwo
  import opened Words

  function FromNat(n: nat): (w: Word)
    ensures forall j :: 0 <= j < 64 ==> w[j] == (ShiftRight(n, j) % 2 == 1)
  {
    seq(64, j requires 0 <= j < 64 => ShiftRight(n, j) % 2 == 1)
  }

  /** The number whose binary digits are `bits`, least significant first. */
  function ToNat(bits: seq<bool>): nat {
    if |bits| == 0 then 0 else (if bits[0] then 1 else 0) + 2 * ToNat(bits[1..])
  }

  function And(a: Word, b: Word): Word {
    seq(64, j requires 0 <= j < 64 => a[j] && b[j])
  }

  /** The expression `ran & (table_size - 1)` of `update_table`. */
  function Masked(w: Word, tableSize: nat): nat
    requires tableSize > 0
  {
    ToNat(And(w, FromNat(tableSize - 1)))
  }

  lemma {:induction false} MaskBits(k: nat, j: nat)
    ensures (ShiftRight(Pow2(k) - 1, j) % 2 == 1) == (j < k)
  {
    if k == 0 {
      ShiftRightZero(j);
    } else {
      HalveMask(k);
      if j > 0 {
        MaskBits(k - 1, j - 1);
        ShiftRightSucc(Pow2(k) - 1, j - 1);
      }
    }
  }

  /** A mask of k bits is odd, and its half is the mask of k - 1 bits. */
  lemma HalveMask(k: nat)
    requires k > 0
    ensures (Pow2(k) - 1) % 2 == 1 && (Pow2(k) - 1) / 2 == Pow2(k - 1) - 1
  {
    var p := Pow2(k - 1);
    assert Pow2(k) == 2 * p;
    hide Pow2;
    DivUnique(2 * p - 1, 2, p - 1, 1);
  }

  lemma {:induction false} ShiftRightZero(j: nat)
    ensures ShiftRight(0, j) == 0
  {
    if j != 0 {
      ShiftRightZero(j - 1);
    }
  }

  lemma {:induction false} ShiftRightSucc(n: nat, j: nat)
    ensures ShiftRight(n, j + 1) == ShiftRight(n / 2, j)
  {
    if j != 0 {
      ShiftRightSucc(n, j - 1);
    }
  }

  lemma {:induction false} ToNatBound(bits: seq<bool>)
    ensures ToNat(bits) < Pow2(|bits|)
  {
    if |bits| != 0 {
      ToNatBound(bits[1..]);
    }
  }

  lemma {:induction false} ToNatZeros(n: nat)
    ensures ToNat(seq(n, i => false)) == 0
  {
    if n != 0 {
      ToNatZeros(n - 1);
      assert seq(n, i => false)[1..] == seq(n - 1, i => false);
    }
  }

  /** A number is its high part shifted left plus its low part. */
  lemma {:induction false} ToNatSplit(low: seq<bool>, high: seq<bool>)
    ensures ToNat(low + high) == ToNat(low) + Pow2(|low|) * ToNat(high)
  {
    if |low| == 0 {
      assert low + high == high;
    } else {
      ToNatSplit(low[1..], high);
      assert (low + high)[1..] == low[1..] + high;
      Regroup(Pow2(|low| - 1), ToNat(high));
    }
  }

  lemma Regroup(p: nat, h: nat)
    ensures 2 * (p * h) == (2 * p) * h
  {}

  /** Masking with a power of two less one is the remainder modulo that power. */
  lemma MaskIsMod(w: Word, k: nat)
    requires k <= 64
    ensures Masked(w, Pow2(k)) == ToNat(w) % Pow2(k)
  {
    var low, high, zeros := w[..k], w[k..], seq(64 - k, i => false);
    var masked := And(w, FromNat(Pow2(k) - 1));
    forall j | 0 <= j < 64 ensures masked[j] == (low + zeros)[j] {
      MaskBits(k, j);
    }
    assert masked == low + zeros;
    assert w == low + high;
    hide Pow2, ToNat, And, FromNat;
    ToNatSplit(low, zeros);
    ToNatZeros(64 - k);
    ToNatSplit(low, high);
    ToNatBound(low);
    DivUnique(ToNat(w), Pow2(k), ToNat(high), ToNat(low));
  }

  /** The k lowest binary digits of n. */
  function Digits(n: nat, k: nat): seq<bool> {
    seq(k, j requires 0 <= j < k => ShiftRight(n, j) % 2 == 1)
  }

  lemma {:induction false} DigitsValue(n: nat, k: nat)
    requires n < Pow2(k)
    ensures ToNat(Digits(n, k)) == n
  {
    if k > 0 {
      forall j | 0 <= j < k - 1 ensures Digits(n, k)[1..][j] == Digits(n / 2, k - 1)[j] {
        ShiftRightSucc(n, j);
      }
      assert Digits(n, k)[1..] == Digits(n / 2, k - 1);
      DigitsValue(n / 2, k - 1);
    }
  }

  /** A table index survives being stored as a 64-bit word. */
  lemma FromNatValue(n: nat)
    requires n < Pow2(64)
    ensures ToNat(FromNat(n)) == n
  {
    assert FromNat(n) == Digits(n, 64);
    DigitsValue(n, 64);
  }
}
