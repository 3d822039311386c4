/**
 * Decimal rendering of non-negative integers, as Python's f-strings produce it:
 * `f"{n}"` (plain decimal) and `f"{n:02d}"` (zero-padded to two digits).
 * Both are proved to be read back by a decimal parser, hence injective.
 */
module Decimal {

  predicate IsDigit(c: char)
  {
    '0' <= c <= '9'
  }

  predicate AllDigits(s: string)
  {
    forall i :: 0 <= i < |s| ==> IsDigit(s[i])
  }

  function DigitChar(d: nat): (c: char)
    requires d < 10
    ensures IsDigit(c)
  {
    (('0' as int) + d) as char
  }

  function DigitValue(c: char): nat
    requires IsDigit(c)
  {
    (c as int) - ('0' as int)
  }

  /** `f"{n}"` for n >= 0: the shortest decimal numeral, no leading zero. */
  function NatToString(n: nat): (s: string)
    ensures |s| >= 1 && AllDigits(s)
    ensures |s| == 1 <==> n < 10
    ensures n >= 10 ==> s[0] != '0'
  {
    if n < 10 then [DigitChar(n)] else NatToString(n / 10) + [DigitChar(n % 10)]
  }

  /** `f"{n:02d}"` for n >= 0: zero-filled to width two, wider numbers unchanged. */
  function ZeroPad2(n: nat): (s: string)
    ensures |s| >= 2 && AllDigits(s)
    ensures n < 100 ==> |s| == 2
  {
    if n < 10 then "0" + NatToString(n) else NatToString(n)
  }

  /** Reads a non-empty numeral; the reference against which both renderings are checked. */
  function ParseDecimal(s: string): nat
    requires |s| >= 1 && AllDigits(s)
  {
    if |s| == 1 then DigitValue(s[0])
    else ParseDecimal(s[..|s| - 1]) * 10 + DigitValue(s[|s| - 1])
  }

  lemma {:induction false} ParseNatToString(n: nat)
    ensures ParseDecimal(NatToString(n)) == n
  {
    if n >= 10 {
      var s := NatToString(n);
      assert s[..|s| - 1] == NatToString(n / 10);
      ParseNatToString(n / 10);
    }
  }

  lemma NatToStringInjective(a: nat, b: nat)
    requires NatToString(a) == NatToString(b)
    ensures a == b
  {
    ParseNatToString(a);
    ParseNatToString(b);
  }

  /** `{run_id:02d}` reads back as the run id: the leading zero is harmless. */
  lemma ParseZeroPad2(n: nat)
    ensures ParseDecimal(ZeroPad2(n)) == n
  {
    var s := ZeroPad2(n);
    ParseNatToString(n);
    if n < 10 {
      assert s[..|s| - 1] == "0";
    } else if n < 100 {
      assert NatToString(n) == NatToString(n / 10) + [DigitChar(n % 10)];
    }
  }

  lemma ZeroPad2Injective(a: nat, b: nat)
    requires ZeroPad2(a) == ZeroPad2(b)
    ensures a == b
  {
    ParseZeroPad2(a);
    ParseZeroPad2(b);
  }
}
