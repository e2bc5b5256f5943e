/**
 * Decimal numerals: ASCII digit strings, their values, the decimal rendering of
 * integers, and Python's `int(s)` on a string.
 */
module Numerals {
  import opened Common
  import opened Text

  predicate IsDigit(c: char)
  {
    '0' <= c <= '9'
  }

  /** Every character is a decimal digit (checked from the last one back). */
  predicate AllDigits(s: string)
    decreases |s|
  {
    s == [] || (IsDigit(s[|s| - 1]) && AllDigits(s[..|s| - 1]))
  }

  lemma {:induction false} AllDigitsAt(s: string)
    ensures AllDigits(s) <==> forall i | 0 <= i < |s| :: IsDigit(s[i])
    decreases |s|
  {
    if s != [] {
      AllDigitsAt(s[..|s| - 1]);
    }
  }

  function DigitValue(c: char): nat
    requires IsDigit(c)
  {
    c as int - '0' as int
  }

  function DigitChar(d: nat): (c: char)
    requires d < 10
    ensures IsDigit(c) && DigitValue(c) == d
  {
    ('0' as int + d) as char
  }

  /** The value of a string of decimal digits, most significant first. */
  function DigitsValue(s: string): nat
    requires AllDigits(s)
    decreases |s|
  {
    if s == [] then 0 else DigitsValue(s[..|s| - 1]) * 10 + DigitValue(s[|s| - 1])
  }

  /** The decimal rendering of a natural number: digits only, no leading zero. */
  function NatToString(n: nat): (r: string)
    ensures r != [] && AllDigits(r)
    ensures |r| > 1 ==> r[0] != '0'
    decreases n
  {
    if n < 10 then
      assert [DigitChar(n)][..0] == [];
      [DigitChar(n)]
    else
      var r := NatToString(n / 10) + [DigitChar(n % 10)];
      assert r[..|r| - 1] == NatToString(n / 10);
      r
  }

  /** The decimal rendering of an integer, with a leading minus sign when negative. */
  function IntToString(i: int): string
  {
    if i < 0 then "-" + NatToString(-i) else NatToString(i)
  }

  /** Reading back a rendered natural number gives the number. */
  lemma {:induction false} NatToStringValue(n: nat)
    ensures DigitsValue(NatToString(n)) == n
    decreases n
  {
    var s := NatToString(n);
    if n >= 10 {
      NatToStringValue(n / 10);
      assert s[..|s| - 1] == NatToString(n / 10);
    } else {
      assert s[..|s| - 1] == [];
    }
  }

  /** An optional sign followed by one or more decimal digits; None for anything else. */
  function ParseDecimal(t: string): Option<int>
  {
    var body := if t != [] && (t[0] == '-' || t[0] == '+') then t[1..] else t;
    if body == [] || !AllDigits(body) then None
    else
      var v: int := DigitsValue(body);
      Some(if t[0] == '-' then -v else v)
  }

  /**
   * Python's `int(s)` on a string: surrounding whitespace is ignored, then an
   * optional sign and one or more decimal digits; anything else raises
   * ValueError, modelled as None.
   */
  function ParsePythonInt(s: string): Option<int>
  {
    ParseDecimal(Strip(s))
  }

  /** On a token with no whitespace, `int()` reads the token as it is. */
  lemma ParsePythonIntOfToken(t: string)
    requires forall c | c in t :: !IsSpace(c)
    ensures ParsePythonInt(t) == ParseDecimal(t)
  {
    if t != [] {
      assert t[0] in t && t[|t| - 1] in t;
      StripUnpadded(t);
    }
  }

  /** The rendering of an integer starts with a digit or '-' and ends with a digit. */
  lemma IntToStringEnds(n: int)
    ensures IntToString(n) != []
    ensures IntToString(n)[0] == '-' || IsDigit(IntToString(n)[0])
    ensures IsDigit(IntToString(n)[|IntToString(n)| - 1])
  {
    var digits := NatToString(if n < 0 then -n else n);
    AllDigitsAt(digits);
    assert IsDigit(digits[0]) && IsDigit(digits[|digits| - 1]);
    if n < 0 {
      assert IntToString(n) == "-" + digits;
    }
  }

  /** ParseDecimal reads a digit string as its value. */
  lemma ParseDecimalOfDigits(d: string)
    requires d != [] && AllDigits(d) && IsDigit(d[0])
    ensures ParseDecimal(d) == Some(DigitsValue(d))
  {
    assert d[0] != '-' && d[0] != '+';
  }

  /** ParseDecimal reads a digit string after '-' as its negated value. */
  lemma ParseDecimalOfNegatedDigits(d: string)
    requires d != [] && AllDigits(d)
    ensures ParseDecimal("-" + d) == Some(-(DigitsValue(d) as int))
  {
    var t := "-" + d;
    assert t[0] == '-';
    assert t[1..] == d;
  }

  /** ParseDecimal reads back the rendering of every integer. */
  lemma ParseDecimalOfIntToString(n: int)
    ensures ParseDecimal(IntToString(n)) == Some(n)
  {
    var m := if n < 0 then -n else n;
    var digits := NatToString(m);
    NatToStringValue(m);
    AllDigitsAt(digits);
    if n < 0 {
      ParseDecimalOfNegatedDigits(digits);
    } else {
      ParseDecimalOfDigits(digits);
    }
  }

  /** `int(str(n)) == n` for every integer. */
  lemma IntToStringParses(n: int)
    ensures ParsePythonInt(IntToString(n)) == Some(n)
  {
    IntToStringEnds(n);
    StripUnpadded(IntToString(n));
    ParseDecimalOfIntToString(n);
  }
}
