/**
 * Decimal numerals as the Python program reads and writes them: `int(text)`, `float(text)`
 * reduced to its whole part, `str(n)` and the zero-padded `{:03}` format.
 */
module Numerals {
  import opened Wrappers
  import opened Tokens

  predicate IsDigit(c: char) { '0' <= c <= '9' }

  predicate AllDigits(s: string) {
    forall i :: 0 <= i < |s| ==> IsDigit(s[i])
  }

  function DigitValue(c: char): nat
    requires IsDigit(c)
  {
    (c as int) - ('0' as int)
  }

  function DigitChar(d: nat): (c: char)
    requires d < 10
    ensures IsDigit(c) && DigitValue(c) == d
  {
    (('0' as int) + d) as char
  }

  /** The value of a decimal numeral, most significant digit first. */
  function DigitsValue(s: string): nat
    requires AllDigits(s)
    decreases |s|
  {
    if s == [] then 0 else DigitsValue(s[..|s| - 1]) * 10 + DigitValue(s[|s| - 1])
  }

  /** `str(n)` for a natural number: digits only, no leading zero, and it reads back as `n`. */
  function NatToString(n: nat): (s: string)
    ensures |s| >= 1 && AllDigits(s)
    ensures |s| > 1 ==> s[0] != '0'
    ensures DigitsValue(s) == n
    decreases n
  {
    if n < 10 then [DigitChar(n)]
    else
      var prefix := NatToString(n / 10);
      var s := prefix + [DigitChar(n % 10)];
      assert s[..|s| - 1] == prefix;
      s
  }

  /** `str(n)`: a single token holding neither a space nor a `/`. */
  function IntToString(n: int): (s: string)
    ensures IsToken(s) && ' ' !in s && '/' !in s && '.' !in s
    ensures s[0] == '-' || IsDigit(s[0])
    ensures IsDigit(s[|s| - 1])
  {
    if n < 0 then "-" + NatToString(-n) else NatToString(n)
  }

  function TrimStart(s: string): (t: string)
    ensures t == [] || !IsSpace(t[0])
    ensures Blank(s) ==> t == []
    decreases |s|
  {
    if s != [] && IsSpace(s[0]) then TrimStart(s[1..]) else s
  }

  function TrimEnd(s: string): (t: string)
    ensures t == [] || !IsSpace(t[|t| - 1])
    decreases |s|
  {
    if s != [] && IsSpace(s[|s| - 1]) then TrimEnd(s[..|s| - 1]) else s
  }

  /** `text.strip()`: leading and trailing whitespace removed. */
  function Strip(s: string): (t: string)
    ensures Blank(s) ==> t == []
  {
    TrimEnd(TrimStart(s))
  }

  lemma StripUnpadded(s: string)
    requires s != [] && !IsSpace(s[0]) && !IsSpace(s[|s| - 1])
    ensures Strip(s) == s
  {
  }

  /**
   * Python's `int(text)` on base-10 text: optional blanks around an optional sign and a
   * run of digits; `None` where Python raises `ValueError`.
   */
  function ParseInt(s: string): (r: Option<int>)
    ensures Blank(s) ==> r.None?
  {
    var t := Strip(s);
    if t != [] && (t[0] == '-' || t[0] == '+') then
      var digits := t[1..];
      if digits != [] && AllDigits(digits) then
        Some(if t[0] == '-' then -(DigitsValue(digits) as int) else DigitsValue(digits) as int)
      else None
    else if t != [] && AllDigits(t) then Some(DigitsValue(t))
    else None
  }

  /** `int(str(n)) == n`. */
  lemma ParseIntShow(n: int)
    ensures ParseInt(IntToString(n)) == Some(n)
  {
    var s := IntToString(n);
    StripUnpadded(s);
    if n < 0 {
      assert s[1..] == NatToString(-n);
    }
  }

  /**
   * Python's `float(text)` on plain decimal text (`"65"`, `"120.50"`, `".5"`), reduced to its
   * whole part, as the front end's `int(...)` truncates it.
   */
  function ParseReading(s: string): (r: Option<int>)
    ensures Blank(s) ==> r.None?
  {
    var t := Strip(s);
    var negative := t != [] && t[0] == '-';
    var body := if t != [] && (t[0] == '-' || t[0] == '+') then t[1..] else t;
    var parts := Split(body, '.');
    if |parts| > 2 then None
    else
      var whole := parts[0];
      var fraction := if |parts| == 2 then parts[1] else "";
      if AllDigits(whole) && AllDigits(fraction) && |whole| + |fraction| >= 1 then
        Some(if negative then -(DigitsValue(whole) as int) else DigitsValue(whole) as int)
      else None
  }

  /** A reading written as `str(n)`, with or without a fractional part, reads back as `n`. */
  lemma ParseReadingShow(n: nat, fraction: string)
    requires AllDigits(fraction)
    ensures ParseReading(NatToString(n)) == Some(n)
    ensures ParseReading(NatToString(n) + "." + fraction) == Some(n)
  {
    var whole := NatToString(n);
    StripUnpadded(whole);
    SplitNoSeparator(whole, '.');
    ParseUnsignedReading(whole, whole, "");
    var s := whole + "." + fraction;
    assert !IsSpace(s[|s| - 1]) by {
      if fraction != [] { assert s[|s| - 1] == fraction[|fraction| - 1]; }
    }
    StripUnpadded(s);
    assert '.' !in fraction by {
      forall i | 0 <= i < |fraction| ensures fraction[i] != '.' {
        assert IsDigit(fraction[i]);
      }
    }
    SplitJoin([whole, fraction], '.');
    assert Join([whole, fraction], '.') == s;
    assert s[0] == whole[0];
    ParseUnsignedReading(s, whole, fraction);
  }

  /** Unpadded, unsigned text that splits at the point into digits, and digits after it, reads as the whole part. */
  lemma ParseUnsignedReading(s: string, whole: string, fraction: string)
    requires Strip(s) == s && s != [] && IsDigit(s[0])
    requires Split(s, '.') == [whole] || Split(s, '.') == [whole, fraction]
    requires AllDigits(whole) && |whole| >= 1 && AllDigits(fraction)
    ensures ParseReading(s) == Some(DigitsValue(whole) as int)
  {
  }

  lemma {:induction false} LeadingZero(s: string)
    requires AllDigits(s)
    ensures AllDigits("0" + s) && DigitsValue("0" + s) == DigitsValue(s)
  {
    if s != [] {
      var z := "0" + s;
      assert z[..|z| - 1] == "0" + s[..|s| - 1];
      LeadingZero(s[..|s| - 1]);
    }
  }

  /** Left-pads a numeral with zeros up to `width` characters; its value does not change. */
  function ZeroPad(s: string, width: nat): (p: string)
    requires AllDigits(s)
    ensures |p| >= width && |p| >= |s|
    ensures AllDigits(p) && DigitsValue(p) == DigitsValue(s)
    decreases width - |s|
  {
    if |s| >= width then s else LeadingZero(s); ZeroPad("0" + s, width)
  }

  /** `"{:03}".format(n)`: at least three characters, zero-padded after any minus sign. */
  function Padded3(n: int): (p: string)
    ensures |p| >= 3
    ensures n >= 0 ==> AllDigits(p) && DigitsValue(p) == n
  {
    if n < 0 then "-" + ZeroPad(NatToString(-n), 2) else ZeroPad(NatToString(n), 3)
  }

  /** The padded form is three characters or more and still reads back as `n`. */
  lemma Padded3Show(n: int)
    ensures |Padded3(n)| >= 3
    ensures ParseInt(Padded3(n)) == Some(n)
  {
    var p := Padded3(n);
    var digits := if n < 0 then p[1..] else p;
    assert AllDigits(digits) && |digits| >= 1;
    assert IsDigit(digits[0]) && IsDigit(digits[|digits| - 1]);
    StripUnpadded(p);
  }
}
