/** Powers of two and shifts of natural numbers. */
module PowersOfTwo {
  function Pow2(n: nat): (p: nat)
    ensures p > 0
  {
    if n == 0 then 1 else 2 * Pow2(n - 1)
  }

  /** n shifted right by i bits. */
  function ShiftRight(n: nat, i: nat): nat {
    if i == 0 then n else ShiftRight(n, i - 1) / 2
  }

  lemma {:induction false} ShiftRightBound(n: nat, i: nat, k: nat)
    requires i <= k && n < Pow2(k)
    ensures ShiftRight(n, i) < Pow2(k - i)
  {
    if i != 0 {
      ShiftRightBound(n, i - 1, k);
    }
  }

  lemma {:induction false} Pow2Sum(a: nat, b: nat)
    ensures Pow2(a + b) == Pow2(a) * Pow2(b)
  {
    if a != 0 {
      Pow2Sum(a - 1, b);
    }
  }

  lemma {:induction false} Pow2Monotone(a: nat, b: nat)
    requires a <= b
    ensures Pow2(a) <= Pow2(b)
  {
    if a < b {
      Pow2Monotone(a, b - 1);
    }
  }

  lemma Pow2Values()
    ensures Pow2(8) == 0x100
    ensures Pow2(16) == 0x1_0000
    ensures Pow2(32) == 0x1_0000_0000
    ensures Pow2(64) == 0x1_0000_0000_0000_0000
    ensures Pow2(63) == 0x8000_0000_0000_0000
  {
    assert Pow2(8) == 0x100;
    Pow2Sum(8, 8);
    Pow2Sum(16, 16);
    Pow2Sum(32, 32);
  }

  /** Division is determined by its defining equation. */
  lemma DivUnique(n: int, d: int, q: int, r: int)
    requires d > 0 && n == d * q + r && 0 <= r < d
    ensures n / d == q && n % d == r
  {
    var e := n / d - q;
    assert d * e == r - n % d by {
      assert d * e == d * (n / d) - d * q;
      assert n == d * (n / d) + n % d;
    }
    NoMultipleBetween(d, e);
  }

  lemma NoMultipleBetween(d: int, e: int)
    requires d > 0 && -d < d * e < d
    ensures e == 0
  {}
}
