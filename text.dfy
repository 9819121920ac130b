/**
 * The string operations the services use: ToLowerInvariant, Contains,
 * case-insensitive equality, the decimal rendering of an int (ToString) and
 * int.TryParse. Case mapping is modelled for ASCII letters only.
 */
module Text {
  import opened Wrappers

  /** A C# `int`. */
  type Int32 = x: int | -0x8000_0000 <= x < 0x8000_0000

  function LowerChar(c: char): char {
    if 'A' <= c <= 'Z' then (c as int + 32) as char else c
  }

  function ToLower(s: string): (r: string)
    ensures |r| == |s|
    ensures forall i :: 0 <= i < |s| ==> r[i] == LowerChar(s[i])
  {
    seq(|s|, i requires 0 <= i < |s| => LowerChar(s[i]))
  }

  predicate IsPrefix(prefix: string, s: string) {
    |prefix| <= |s| && s[..|prefix|] == prefix
  }

  /** `sub` occurs in `s` at some position (String.Contains, ordinal). */
  predicate Contains(s: string, sub: string) {
    IsPrefix(sub, s) || (|s| > 0 && Contains(s[1..], sub))
  }

  /** String.Equals with StringComparison.OrdinalIgnoreCase. */
  predicate EqualsIgnoreCase(a: string, b: string) {
    ToLower(a) == ToLower(b)
  }

  predicate IsDigit(c: char) {
    '0' <= c <= '9'
  }

  predicate AllDigits(s: string) {
    forall i :: 0 <= i < |s| ==> IsDigit(s[i])
  }

  function DigitChar(d: nat): (c: char)
    requires d < 10
    ensures IsDigit(c) && c as int - '0' as int == d
  {
    ('0' as int + d) as char
  }

  /** The decimal digits of `n`, most significant first, without leading zeros. */
  function NatToString(n: nat): (r: string)
    ensures |r| > 0 && AllDigits(r)
  {
    if n < 10 then [DigitChar(n)] else NatToString(n / 10) + [DigitChar(n % 10)]
  }

  /** Int32.ToString() in the invariant culture. */
  function IntToString(n: int): (r: string)
    ensures |r| > 0
    ensures n >= 0 ==> AllDigits(r)
    ensures n < 0 ==> r[0] == '-' && AllDigits(r[1..])
  {
    if n < 0 then "-" + NatToString(-n) else NatToString(n)
  }

  /** The value of a string of decimal digits. */
  function DigitsValue(s: string): nat
    requires AllDigits(s)
  {
    if |s| == 0 then 0 else DigitsValue(s[..|s| - 1]) * 10 + (s[|s| - 1] as int - '0' as int)
  }

  /** White space that int.TryParse skips around the number: U+0009 to U+000D and U+0020. */
  predicate IsWhite(c: char) {
    c == ' ' || '\t' <= c <= '\r'
  }

  function TrimStart(s: string): (r: string)
    ensures |r| <= |s|
  {
    if |s| > 0 && IsWhite(s[0]) then TrimStart(s[1..]) else s
  }

  function TrimEnd(s: string): (r: string)
    ensures |r| <= |s|
  {
    if |s| > 0 && IsWhite(s[|s| - 1]) then TrimEnd(s[..|s| - 1]) else s
  }

  /**
   * int.TryParse with the default NumberStyles.Integer: optional surrounding
   * white space, an optional sign, at least one decimal digit, and a value
   * that fits an Int32. Any other string is not a number.
   */
  function ParseInt32(s: string): Option<Int32> {
    var t := TrimEnd(TrimStart(s));
    if |t| == 0 then None
    else
      var negative := t[0] == '-';
      var digits := if t[0] == '-' || t[0] == '+' then t[1..] else t;
      if |digits| == 0 || !AllDigits(digits) then None
      else
        var v: int := if negative then -(DigitsValue(digits) as int) else DigitsValue(digits);
        if -0x8000_0000 <= v < 0x8000_0000 then Some(v) else None
  }

  lemma {:induction false} DigitsValueOfNatToString(n: nat)
    ensures DigitsValue(NatToString(n)) == n
  {
    if n >= 10 {
      var s := NatToString(n);
      assert s[..|s| - 1] == NatToString(n / 10);
      DigitsValueOfNatToString(n / 10);
    }
  }

  lemma TrimKeepsUnpadded(s: string)
    requires |s| > 0 && !IsWhite(s[0]) && !IsWhite(s[|s| - 1])
    ensures TrimEnd(TrimStart(s)) == s
  {
  }

  lemma ParseDigits(s: string)
    requires |s| > 0 && AllDigits(s) && DigitsValue(s) < 0x8000_0000
    ensures ParseInt32(s) == Some(DigitsValue(s))
  {
    TrimKeepsUnpadded(s);
  }

  lemma ParseNegative(s: string)
    requires |s| > 1 && s[0] == '-' && AllDigits(s[1..]) && DigitsValue(s[1..]) <= 0x8000_0000
    ensures ParseInt32(s) == Some(-(DigitsValue(s[1..]) as int))
  {
    TrimKeepsUnpadded(s);
  }

  /** Parsing the decimal rendering of an int gives that int back. */
  lemma ParseRendersRoundTrip(n: Int32)
    ensures ParseInt32(IntToString(n)) == Some(n)
  {
    if n < 0 {
      var m: nat := -(n as int);
      var d := NatToString(m);
      DigitsValueOfNatToString(m);
      assert ("-" + d)[1..] == d;
      ParseNegative("-" + d);
    } else {
      DigitsValueOfNatToString(n);
      ParseDigits(NatToString(n));
    }
  }

  /** Rendering is one-to-one: two ints with the same decimal rendering are equal. */
  lemma RenderingInjective(a: Int32, b: Int32)
    requires IntToString(a) == IntToString(b)
    ensures a == b
  {
    ParseRendersRoundTrip(a);
    ParseRendersRoundTrip(b);
  }
}
