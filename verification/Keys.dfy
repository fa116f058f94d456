/** The key strings under which collectives store their contributions. */
module Keys {
  datatype Kind = Gather | Cast

  function Digit(d: nat): (c: char)
    requires d < 10
    ensures c != '_'
  {
    '0' + d as char
  }

  /** The "%d" conversion of a non-negative int. */
  function Decimal(n: nat): (s: string)
    ensures |s| >= 1
    ensures forall i :: 0 <= i < |s| ==> s[i] != '_'
  {
    if n < 10 then [Digit(n)] else Decimal(n / 10) + [Digit(n % 10)]
  }

  lemma {:induction false} DecimalInjective(a: nat, b: nat)
    requires Decimal(a) == Decimal(b)
    ensures a == b
  {
    if a >= 10 && b >= 10 {
      var s, t := Decimal(a), Decimal(b);
      assert Decimal(a / 10) == s[..|s| - 1] == t[..|t| - 1] == Decimal(b / 10);
      DecimalInjective(a / 10, b / 10);
      assert s[|s| - 1] == t[|t| - 1];
    } else {
      assert |Decimal(a)| == |Decimal(b)|;
      assert Decimal(a)[|Decimal(a)| - 1] == Decimal(b)[|Decimal(b)| - 1];
    }
  }

  /** "allg%d" or "bcst%d". */
  function CallName(kind: Kind, count: nat): string {
    (if kind == Gather then "allg" else "bcst") + Decimal(count)
  }

  /** "%s_rank%d". */
  function Key(kind: Kind, count: nat, rank: nat): string {
    CallName(kind, count) + "_rank" + Decimal(rank)
  }

  /** Strings whose first part has no separator split at the separator in one way only. */
  lemma SplitUnique(a: string, b: string, c: string, d: string)
    requires forall i :: 0 <= i < |a| ==> a[i] != '_'
    requires forall i :: 0 <= i < |c| ==> c[i] != '_'
    requires a + "_rank" + b == c + "_rank" + d
    ensures a == c && b == d
  {
    var s, t := a + "_rank" + b, c + "_rank" + d;
    assert s[|a|] == '_' && t[|c|] == '_';
    assert a == s[..|a|] == t[..|c|] == c;
    assert b == s[|a| + 5..] == t[|c| + 5..] == d;
  }

  lemma NameHasNoSeparator(kind: Kind, count: nat)
    ensures forall i :: 0 <= i < |CallName(kind, count)| ==> CallName(kind, count)[i] != '_'
  {}

  lemma NameInjective(k1: Kind, c1: nat, k2: Kind, c2: nat)
    requires CallName(k1, c1) == CallName(k2, c2)
    ensures k1 == k2 && c1 == c2
  {
    var n1, n2 := CallName(k1, c1), CallName(k2, c2);
    assert n1[0] == n2[0];
    assert Decimal(c1) == n1[4..] == n2[4..] == Decimal(c2);
    DecimalInjective(c1, c2);
  }

  /** Keys name their kind, call and rank: no two contributions share a key. */
  lemma KeyInjective(k1: Kind, c1: nat, r1: nat, k2: Kind, c2: nat, r2: nat)
    requires Key(k1, c1, r1) == Key(k2, c2, r2)
    ensures k1 == k2 && c1 == c2 && r1 == r2
  {
    hide CallName, Decimal;
    NameHasNoSeparator(k1, c1);
    NameHasNoSeparator(k2, c2);
    SplitUnique(CallName(k1, c1), Decimal(r1), CallName(k2, c2), Decimal(r2));
    NameInjective(k1, c1, k2, c2);
    DecimalInjective(r1, r2);
  }

  function Pow10(d: nat): (p: nat)
    ensures p > 0
  {
    if d == 0 then 1 else 10 * Pow10(d - 1)
  }

  lemma {:induction false} DecimalLength(n: nat, d: nat)
    requires d >= 1 && n < Pow10(d)
    ensures |Decimal(n)| <= d
  {
    if n >= 10 {
      DecimalLength(n / 10, d - 1);
    }
  }

  /** For int-sized counters and ranks neither `snprintf` truncates: both buffers hold 64 bytes. */
  lemma KeyFits(kind: Kind, count: nat, rank: nat)
    requires count < 0x8000_0000 && rank < 0x8000_0000
    ensures |CallName(kind, count)| < 64 && |Key(kind, count, rank)| < 64
  {
    assert Pow10(5) == 100000;
    assert Pow10(10) == 100000 * Pow10(5);
    DecimalLength(count, 10);
    DecimalLength(rank, 10);
  }

  /** The number a string of decimal digits denotes. */
  function Number(s: string): nat
    requires forall i :: 0 <= i < |s| ==> '0' <= s[i] <= '9'
  {
    if |s| == 0 then 0 else 10 * Number(s[..|s| - 1]) + (s[|s| - 1] as int - '0' as int)
  }

  /** `Decimal` writes digits only, without a leading zero, and they denote the number. */
  lemma {:induction false} DecimalReads(n: nat)
    ensures forall i :: 0 <= i < |Decimal(n)| ==> '0' <= Decimal(n)[i] <= '9'
    ensures Number(Decimal(n)) == n
    ensures n > 0 ==> Decimal(n)[0] != '0'
  {
    if n >= 10 {
      DecimalReads(n / 10);
      assert Decimal(n)[..|Decimal(n)| - 1] == Decimal(n / 10);
    }
  }

  /** The parts of a key: the name of the operation, the number of the call, and the number of the rank. */
  lemma KeyReads(kind: Kind, count: nat, rank: nat)
    ensures
      var key := Key(kind, count, rank);
      exists c: string, r: string ::
        && key == (if kind == Gather then "allg" else "bcst") + c + "_rank" + r
        && (forall i :: 0 <= i < |c| ==> '0' <= c[i] <= '9') && Number(c) == count
        && (forall i :: 0 <= i < |r| ==> '0' <= r[i] <= '9') && Number(r) == rank
  {
    DecimalReads(count);
    DecimalReads(rank);
    hide Decimal, Number;
    var c, r := Decimal(count), Decimal(rank);
    assert Key(kind, count, rank) == (if kind == Gather then "allg" else "bcst") + c + "_rank" + r;
  }
}
