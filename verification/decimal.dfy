/**
 * Decimal digit strings: `str(n)` / `n.toString()` for integers, zero padding as done by
 * Python's `{:02d}` format and JavaScript's `padStart(2, '0')`, and parsing back.
 */
module Decimal {
  import opened Text

  function DigitChar(d: nat): (c: char)
    requires d < 10
    ensures IsDigit(c) && c as int - '0' as int == d
  {
    ('0' as int + d) as char
  }

  predicate AllDigits(s: string) {
    forall i :: 0 <= i < |s| ==> IsDigit(s[i])
  }

  /** The shortest decimal numeral of `n`, as `str(n)` prints it. */
  function Digits(n: nat): (r: string)
    ensures |r| >= 1 && AllDigits(r)
    ensures n < 10 <==> |r| == 1
  {
    if n < 10 then [DigitChar(n)] else Digits(n / 10) + [DigitChar(n % 10)]
  }

  /** The number a digit string denotes; leading zeros are allowed. */
  function Value(s: string): nat
    requires AllDigits(s)
  {
    if s == [] then 0 else Value(s[..|s| - 1]) * 10 + (s[|s| - 1] as int - '0' as int)
  }

  /** Printing a number and reading it back gives the number. */
  lemma {:induction false} ValueOfDigits(n: nat)
    ensures Value(Digits(n)) == n
  {
    if n >= 10 {
      var d := Digits(n);
      assert d[..|d| - 1] == Digits(n / 10);
      ValueOfDigits(n / 10);
    }
  }

  function Zeros(k: nat): (r: string)
    ensures |r| == k && AllDigits(r)
    ensures forall i :: 0 <= i < k ==> r[i] == '0'
  {
    if k == 0 then "" else "0" + Zeros(k - 1)
  }

  /** Leading zeros do not change the value. */
  lemma {:induction false} ValueWithLeadingZeros(k: nat, s: string)
    requires AllDigits(s)
    ensures Value(Zeros(k) + s) == Value(s)
  {
    if s == [] {
      assert Zeros(k) + s == Zeros(k);
      ZerosValue(k);
    } else {
      var t := Zeros(k) + s;
      assert t[..|t| - 1] == Zeros(k) + s[..|s| - 1];
      ValueWithLeadingZeros(k, s[..|s| - 1]);
    }
  }

  lemma {:induction false} ZerosValue(k: nat)
    ensures Value(Zeros(k)) == 0
  {
    if k > 0 {
      var z := Zeros(k);
      assert z[..k - 1] == Zeros(k - 1);
      ZerosValue(k - 1);
    }
  }

  /** `s` left-padded with '0' to at least `width` characters (`padStart(width, '0')`). */
  function PadStart(s: string, width: nat): (r: string)
    ensures |r| == if |s| < width then width else |s|
    ensures AllDigits(s) ==> AllDigits(r)
  {
    if |s| < width then Zeros(width - |s|) + s else s
  }

  /** `str(n)` / `String(n)` for any integer. */
  function IntToString(n: int): (r: string)
    ensures |r| >= 1
  {
    if n < 0 then "-" + Digits(-n) else Digits(n)
  }

  /** Python's `format(n, '02d')`: a sign comes first and counts towards the width. */
  function Format02d(n: int): string {
    if n < 0 then IntToString(n) else PadStart(Digits(n), 2)
  }

  /** A non-negative field reads back as itself, and below 100 it takes exactly two characters. */
  lemma Format02dSpec(n: int)
    ensures n >= 0 ==> AllDigits(Format02d(n)) && Value(Format02d(n)) == n
    ensures 0 <= n < 100 ==> |Format02d(n)| == 2
    ensures n < 0 ==> Format02d(n)[0] == '-'
  {
    if n >= 0 {
      ValueOfDigits(n);
      if |Digits(n)| < 2 {
        ValueWithLeadingZeros(2 - |Digits(n)|, Digits(n));
      }
      if 10 <= n < 100 {
        DigitsTwo(n);
      }
    }
  }

  lemma {:induction false} DigitsTwo(n: nat)
    requires 10 <= n < 100
    ensures |Digits(n)| == 2
  {
    assert Digits(n / 10) == [DigitChar(n / 10)];
  }
}
