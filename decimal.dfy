/**
 * Decimal rendering of natural numbers and left padding: the part of Rust's
 * formatting machinery that `format!("{:0>2}", track)` uses.
 */
module Decimal {

  predicate IsDigit(c: char) {
    '0' <= c <= '9'
  }

  predicate AllDigits(s: string) {
    forall i :: 0 <= i < |s| ==> IsDigit(s[i])
  }

  lemma NoSeparatorInDigits(s: string)
    requires AllDigits(s)
    ensures '/' !in s
  {
  }

  /** The value of one decimal digit character. */
  function DigitValue(c: char): (d: nat)
    requires IsDigit(c)
    ensures d < 10
  {
    c as int - '0' as int
  }

  /** The character of one decimal digit; the inverse of DigitValue. */
  function DigitChar(d: nat): (c: char)
    requires d < 10
    ensures IsDigit(c) && DigitValue(c) == d
  {
    ('0' as int + d) as char
  }

  /** `n` in decimal, most significant digit first, without leading zeros. */
  function NatToString(n: nat): string
    decreases n
  {
    if n < 10 then [DigitChar(n)] else NatToString(n / 10) + [DigitChar(n % 10)]
  }

  /** Reads a string of decimal digits back as a number (leading zeros allowed). */
  function ParseDecimal(s: string): nat
    requires AllDigits(s)
  {
    if s == [] then 0 else 10 * ParseDecimal(s[..|s| - 1]) + DigitValue(s[|s| - 1])
  }

  /** The number of decimal digits of `n` (zero has one digit). */
  function NumDigits(n: nat): nat
    decreases n
  {
    if n < 10 then 1 else 1 + NumDigits(n / 10)
  }

  function Pow10(k: nat): (p: nat)
    ensures p >= 1
  {
    if k == 0 then 1 else 10 * Pow10(k - 1)
  }

  /** NumDigits agrees with the usual definition: 10^(k-1) <= n < 10^k. */
  lemma {:induction false} NumDigitsBounds(n: nat)
    ensures NumDigits(n) >= 1
    ensures (NumDigits(n) == 1 && n < 10) || Pow10(NumDigits(n) - 1) <= n
    ensures n < Pow10(NumDigits(n))
  {
    if n >= 10 {
      NumDigitsBounds(n / 10);
    }
  }

  /** The rendering has NumDigits(n) characters, all digits, and no leading zero. */
  lemma {:induction false} NatToStringShape(n: nat)
    ensures |NatToString(n)| == NumDigits(n)
    ensures AllDigits(NatToString(n))
    ensures n >= 10 ==> NatToString(n)[0] != '0'
    decreases n
  {
    if n >= 10 {
      NatToStringShape(n / 10);
      if n / 10 < 10 {
        assert NatToString(n / 10) == [DigitChar(n / 10)];
      }
    }
  }

  /** Parsing the rendering gives the number back. */
  lemma {:induction false} ParseNatToString(n: nat)
    ensures AllDigits(NatToString(n))
    ensures ParseDecimal(NatToString(n)) == n
    decreases n
  {
    NatToStringShape(n);
    var s := NatToString(n);
    if n < 10 {
      assert s[..0] == [];
    } else {
      NatToStringShape(n / 10);
      ParseNatToString(n / 10);
      assert s[..|s| - 1] == NatToString(n / 10);
    }
  }

  /** A leading '0' does not change the parsed value. */
  lemma {:induction false} ParseLeadingZero(s: string)
    requires AllDigits(s)
    ensures AllDigits(['0'] + s)
    ensures ParseDecimal(['0'] + s) == ParseDecimal(s)
    decreases |s|
  {
    var t := ['0'] + s;
    if s == [] {
      assert t[..0] == [];
    } else {
      assert t[..|t| - 1] == ['0'] + s[..|s| - 1];
      ParseLeadingZero(s[..|s| - 1]);
    }
  }

  /**
   * `s` right-aligned in a field of `width` characters filled with `fill`
   * (Rust's `{:fill>width}`; a longer `s` is never truncated).
   */
  function PadLeft(s: string, width: nat, fill: char): (r: string)
    ensures |r| == if |s| < width then width else |s|
    ensures r[|r| - |s|..] == s
    ensures forall i :: 0 <= i < |r| - |s| ==> r[i] == fill
  {
    if |s| < width then seq(width - |s|, _ => fill) + s else s
  }
}
