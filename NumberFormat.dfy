/** How .NET writes an integer as text: the plain decimal form of
    `int.ToString()` and the "D2" standard format, together with a reader
    for digit strings that serves as their inverse. */
module NumberFormat {

  predicate IsDigit(c: char) {
    '0' <= c <= '9'
  }

  predicate AllDigits(s: string) {
    forall i :: 0 <= i < |s| ==> IsDigit(s[i])
  }

  function DigitChar(d: int): (c: char)
    requires 0 <= d <= 9
    ensures IsDigit(c) && c as int - '0' as int == d
  {
    ('0' as int + d) as char
  }

  /** The number a string of decimal digits denotes, most significant first. */
  function DigitsValue(s: string): nat
    requires AllDigits(s)
  {
    if s == [] then 0 else DigitsValue(s[..|s| - 1]) * 10 + (s[|s| - 1] as int - '0' as int)
  }

  /** The decimal form of a non-negative number: at least one digit, no
      leading zero, and reading it back gives the number. */
  function Decimal(n: nat): (s: string)
    ensures |s| >= 1 && AllDigits(s)
    ensures DigitsValue(s) == n
    ensures |s| > 1 ==> s[0] != '0'
    ensures n < 10 <==> |s| == 1
  {
    if n < 10 then [DigitChar(n)]
    else
      var s := Decimal(n / 10) + [DigitChar(n % 10)];
      assert s[..|s| - 1] == Decimal(n / 10);
      s
  }

  /** Two numbers with the same decimal form are equal. */
  lemma DecimalInjective(m: nat, n: nat)
    requires Decimal(m) == Decimal(n)
    ensures m == n
  {
    assert DigitsValue(Decimal(m)) == m;
  }

  /** The "D2" format of an `int`: the minus sign for a negative number,
      then its magnitude in decimal, zero-padded on the left to at least
      two digits. */
  function FormatD2(n: int): (s: string)
    ensures n >= 0 ==> AllDigits(s) && DigitsValue(s) == n
    ensures n < 0 ==> |s| >= 1 && s[0] == '-' && AllDigits(s[1..]) && DigitsValue(s[1..]) == -n
    ensures n >= 0 ==> |s| >= 2
    ensures n < 0 ==> |s| >= 3
    ensures 0 <= n <= 99 <==> |s| == 2 && AllDigits(s)
    ensures n >= 0 && |s| > 2 ==> s[0] != '0'
    ensures n < 0 && |s| > 3 ==> s[1] != '0'
  {
    if n < 0 then "-" + PadTwo(Decimal(-n)) else PadTwo(Decimal(n))
  }

  /** Left-pads a non-empty digit string with one zero when it is a single digit. */
  function PadTwo(s: string): (r: string)
    requires |s| >= 1 && AllDigits(s)
    ensures AllDigits(r) && DigitsValue(r) == DigitsValue(s)
    ensures |r| == if |s| < 2 then 2 else |s|
  {
    if |s| < 2 then
      var r := "0" + s;
      assert r[..|r| - 1] == "0";
      assert DigitsValue("0") == 0 by { assert "0"[..0] == []; }
      r
    else s
  }
}
