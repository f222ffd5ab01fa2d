/** Decimal rendering of naturals, as std::to_string and Rust's formatting produce it. */
module Decimals {

  function Digit(n: nat): char
    requires n < 10
  {
    "0123456789"[n]
  }

  function Decimal(n: nat): (r: string)
    ensures |r| > 0
    ensures forall i :: 0 <= i < |r| ==> '0' <= r[i] <= '9'
  {
    if n < 10 then [Digit(n)] else Decimal(n / 10) + [Digit(n % 10)]
  }

  /** The number a digit string denotes. */
  function Parse(s: string): nat {
    if s == [] then 0
    else
      var d := s[|s| - 1];
      10 * Parse(s[..|s| - 1]) + (if '0' <= d <= '9' then (d - '0') as nat else 0)
  }

  lemma {:induction false} DigitParses(n: nat)
    requires n < 10
    ensures '0' <= Digit(n) <= '9' && (Digit(n) - '0') as nat == n
  {
  }

  lemma {:induction false} ParseDecimal(n: nat)
    ensures Parse(Decimal(n)) == n
  {
    if n < 10 {
      DigitParses(n);
      assert [Digit(n)][..0] == [];
    } else {
      var front := Decimal(n / 10);
      ParseDecimal(n / 10);
      DigitParses(n % 10);
      assert Decimal(n)[..|Decimal(n)| - 1] == front;
    }
  }

  /** Different numbers have different renderings. */
  lemma {:induction false} DecimalInjective(m: nat, n: nat)
    requires Decimal(m) == Decimal(n)
    ensures m == n
  {
    ParseDecimal(m);
    ParseDecimal(n);
  }

  function Pow10(k: nat): nat { if k == 0 then 1 else 10 * Pow10(k - 1) }

  lemma {:induction false} DecimalLength(n: nat, k: nat)
    requires k > 0 && n < Pow10(k)
    ensures |Decimal(n)| <= k
  {
    if n >= 10 {
      assert Pow10(k) == 10 * Pow10(k - 1);
      assert Pow10(1) == 10;
      DecimalLength(n / 10, k - 1);
    }
  }

  const UINT64_MAX: nat := 0xFFFF_FFFF_FFFF_FFFF

  lemma {:induction false} DecimalLength64(n: nat)
    requires n <= UINT64_MAX
    ensures |Decimal(n)| <= 20
  {
    assert Pow10(5) == 100_000;
    assert Pow10(10) == 10 * (10 * (10 * (10 * (10 * Pow10(5)))));
    assert Pow10(15) == 10 * (10 * (10 * (10 * (10 * Pow10(10)))));
    assert Pow10(20) == 10 * (10 * (10 * (10 * (10 * Pow10(15)))));
    DecimalLength(n, 20);
  }
}
