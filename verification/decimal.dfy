/**
  Decimal digits of a positive machine integer: the digit-counting loop shared by
  the frame-address formatter pair, and the text `sprintf("%d", n)` produces.
 */
module Decimal {

  /** A C `int`: the width of the formatter's `deviation` and of the frame cursor. */
  newtype Int32 = x: int | -0x8000_0000 <= x < 0x8000_0000

  /** How many times `n` can be divided by ten before it reaches zero. */
  function NumDigits(n: nat): nat
    decreases n
  {
    if n == 0 then 0 else 1 + NumDigits(n / 10)
  }

  function Pow10(k: nat): (r: nat)
    ensures r >= 1
  {
    if k == 0 then 1 else 10 * Pow10(k - 1)
  }

  /** The digit count is the `d` with 10^(d-1) <= n < 10^d: the length of n written in base ten. */
  lemma {:induction false} NumDigitsBounds(n: nat)
    requires n > 0
    ensures NumDigits(n) >= 1
    ensures Pow10(NumDigits(n) - 1) <= n < Pow10(NumDigits(n))
    decreases n
  {
    if n >= 10 {
      NumDigitsBounds(n / 10);
    }
  }

  predicate IsDigit(c: char)
  {
    '0' <= c <= '9'
  }

  function DigitChar(d: nat): (c: char)
    requires d < 10
    ensures IsDigit(c)
  {
    ('0' as int + d) as char
  }

  function DigitValue(c: char): (d: nat)
    requires IsDigit(c)
    ensures d < 10
  {
    c as int - '0' as int
  }

  /** The text `sprintf("%d", n)` writes for a positive `n`: its digits, most significant first. */
  function DecimalText(n: nat): (s: seq<char>)
    requires n > 0
    ensures |s| == NumDigits(n)
    ensures forall i :: 0 <= i < |s| ==> IsDigit(s[i])
    ensures s[0] != '0'
    decreases n
  {
    if n < 10 then [DigitChar(n)] else DecimalText(n / 10) + [DigitChar(n % 10)]
  }

  /** Reads a run of decimal digits back as the number they spell. */
  function ParseDecimal(s: seq<char>): nat
    requires forall i :: 0 <= i < |s| ==> IsDigit(s[i])
    decreases |s|
  {
    if |s| == 0 then 0 else 10 * ParseDecimal(s[..|s| - 1]) + DigitValue(s[|s| - 1])
  }

  /** Parsing the decimal text of a positive number gives that number back. */
  lemma {:induction false} ParseDecimalText(n: nat)
    requires n > 0
    ensures ParseDecimal(DecimalText(n)) == n
    decreases n
  {
    var s := DecimalText(n);
    if n >= 10 {
      ParseDecimalText(n / 10);
      assert s[..|s| - 1] == DecimalText(n / 10);
    }
  }

  /** Distinct positive numbers have distinct decimal texts. */
  lemma DecimalTextInjective(m: nat, n: nat)
    requires m > 0 && n > 0
    requires DecimalText(m) == DecimalText(n)
    ensures m == n
  {
    ParseDecimalText(m);
    ParseDecimalText(n);
  }
}
