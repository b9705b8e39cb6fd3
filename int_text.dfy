/** Python's `str(int)` and the reading of a decimal query parameter back
    into an integer. */
module IntText {
  import opened Wrappers

  predicate IsDigit(c: char) {
    '0' <= c <= '9'
  }

  predicate AllDigits(s: string) {
    forall k :: 0 <= k < |s| ==> IsDigit(s[k])
  }

  function DigitChar(d: nat): (c: char)
    requires d < 10
    ensures IsDigit(c) && DigitValue(c) == d
  {
    ('0' as int + d) as char
  }

  function DigitValue(c: char): (d: nat)
    requires IsDigit(c)
    ensures d < 10
  {
    c as int - '0' as int
  }

  /** Decimal digits of a natural number, most significant first. */
  function NatToDecimal(n: nat): string
    decreases n
  {
    if n < 10 then [DigitChar(n)] else NatToDecimal(n / 10) + [DigitChar(n % 10)]
  }

  /** `str(i)` for a Python `int`: a minus sign for negative values, then
      the digits of the magnitude. */
  function IntToDecimal(i: int): string {
    if i < 0 then "-" + NatToDecimal(-i) else NatToDecimal(i)
  }

  /** The value of a string of decimal digits. */
  function DigitsValue(s: string): nat
    requires AllDigits(s)
  {
    if |s| == 0 then 0 else DigitsValue(s[..|s| - 1]) * 10 + DigitValue(s[|s| - 1])
  }

  /** Reads an optional minus sign followed by at least one decimal digit;
      anything else is not an integer. */
  function ParseInt(s: string): Option<int> {
    if |s| > 0 && s[0] == '-' then
      if |s| > 1 && AllDigits(s[1..]) then Some(-(DigitsValue(s[1..]) as int)) else None
    else if |s| > 0 && AllDigits(s) then Some(DigitsValue(s))
    else None
  }

  /** The strings `str(int)` can produce: no leading zeros and no `-0`. */
  predicate IsCanonicalDigits(d: string) {
    |d| > 0 && AllDigits(d) && (|d| > 1 ==> d[0] != '0')
  }

  predicate IsCanonicalDecimal(s: string) {
    if |s| > 0 && s[0] == '-' then IsCanonicalDigits(s[1..]) && s[1..] != "0"
    else IsCanonicalDigits(s)
  }

  lemma {:induction false} NatToDecimalCanonical(n: nat)
    ensures IsCanonicalDigits(NatToDecimal(n))
    ensures NatToDecimal(n)[0] == '0' <==> n == 0
    ensures DigitsValue(NatToDecimal(n)) == n
    decreases n
  {
    if n >= 10 {
      NatToDecimalCanonical(n / 10);
      var s := NatToDecimal(n);
      assert s[..|s| - 1] == NatToDecimal(n / 10);
    }
  }

  /** Every decimal rendering reads back as the integer it came from. */
  lemma IntToDecimalRoundTrip(i: int)
    ensures IsCanonicalDecimal(IntToDecimal(i))
    ensures ParseInt(IntToDecimal(i)) == Some(i)
  {
    if i < 0 {
      NatToDecimalCanonical(-i);
      var s := IntToDecimal(i);
      assert s[1..] == NatToDecimal(-i);
    } else {
      NatToDecimalCanonical(i);
    }
  }

  lemma {:induction false} DigitsValuePositive(d: string)
    requires IsCanonicalDigits(d) && d[0] != '0'
    ensures DigitsValue(d) >= 1
    decreases |d|
  {
    if |d| > 1 {
      var p := d[..|d| - 1];
      assert p[0] == d[0];
      DigitsValuePositive(p);
    }
  }

  lemma {:induction false} DigitsRoundTrip(d: string)
    requires IsCanonicalDigits(d)
    ensures NatToDecimal(DigitsValue(d)) == d
    decreases |d|
  {
    var v := DigitsValue(d);
    var last := DigitValue(d[|d| - 1]);
    if |d| == 1 {
      assert [DigitChar(v)] == d;
    } else {
      var p := d[..|d| - 1];
      assert p[0] == d[0];
      DigitsValuePositive(p);
      DigitsRoundTrip(p);
      assert v / 10 == DigitsValue(p) && v % 10 == last;
      assert DigitChar(last) == d[|d| - 1];
      assert d == p + [d[|d| - 1]];
    }
  }

  /** Every string `str(int)` can produce is the rendering of the integer
      it reads as, so rendering and reading are inverse bijections. */
  lemma DecimalRoundTrip(s: string)
    requires IsCanonicalDecimal(s)
    ensures ParseInt(s).Some? && IntToDecimal(ParseInt(s).value) == s
  {
    if |s| > 0 && s[0] == '-' {
      var d := s[1..];
      DigitsRoundTrip(d);
      assert |d| == 1 ==> d == [d[0]];
      DigitsValuePositive(d);
      assert s == "-" + d;
    } else {
      DigitsRoundTrip(s);
    }
  }
}
