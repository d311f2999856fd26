/**
 Decimal numerals as `%d` prints them and `strtol` reads them.
 */
module Decimal {

  type digits = s: string | forall i :: 0 <= i < |s| ==> IsDigit(s[i])

  predicate IsDigit(c: char) {
    '0' <= c <= '9'
  }

  function DigitChar(d: nat): (c: char)
    requires d < 10
    ensures IsDigit(c) && DigitValue(c) == d
  {
    '0' + d as char
  }

  function DigitValue(c: char): (d: nat)
    requires IsDigit(c)
    ensures d < 10
  {
    c as int - '0' as int
  }

  /** The numeral of `n`, without leading zeros. */
  function Print(n: nat): (s: digits)
    ensures |s| > 0
    ensures |s| > 1 ==> s[0] != '0'
  {
    if n < 10 then [DigitChar(n)] else Print(n / 10) + [DigitChar(n % 10)]
  }

  /** The number that a string of digits denotes. */
  function Value(s: digits): nat {
    if s == [] then 0 else Value(s[..|s| - 1]) * 10 + DigitValue(s[|s| - 1])
  }

  lemma {:induction false} ValueOfPrint(n: nat)
    ensures Value(Print(n)) == n
  {
    if n >= 10 {
      ValueOfPrint(n / 10);
      assert Print(n)[..|Print(n)| - 1] == Print(n / 10);
    } else {
      assert Value([]) == 0;
    }
  }

  function Pow10(k: nat): (p: nat)
    ensures p > 0
  {
    if k == 0 then 1 else 10 * Pow10(k - 1)
  }

  /** A number below 10^k prints in at most `k` digits. */
  lemma {:induction false} PrintLength(n: nat, k: nat)
    requires k > 0 && n < Pow10(k)
    ensures |Print(n)| <= k
  {
    if n >= 10 {
      assert k > 1 by {
        assert Pow10(1) == 10 * Pow10(0);
      }
      PrintLength(n / 10, k - 1);
    }
  }

  /** 64-bit numbers print in at most 20 digits. */
  lemma Print64(n: nat)
    requires n < 0x1_0000_0000_0000_0000
    ensures |Print(n)| <= 20
  {
    Pow10Of20();
    PrintLength(n, 20);
  }

  lemma Print4(n: nat)
    requires n < 10000
    ensures |Print(n)| <= 4
  {
    assert Pow10(2) == 100;
    assert Pow10(4) == 100 * Pow10(2);
    PrintLength(n, 4);
  }

  lemma Pow10Of20()
    ensures Pow10(20) == 100000000000000000000
  {
    assert Pow10(5) == 100000;
    assert Pow10(10) == 100000 * Pow10(5);
    assert Pow10(15) == 100000 * Pow10(10);
    assert Pow10(20) == 100000 * Pow10(15);
  }
}
