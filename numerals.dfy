/**
 * A model of `int.Parse(string)` with the default number style of .NET
 * (leading and trailing white space, an optional leading sign, decimal digits)
 * and of the 32-bit range of a C# `int`.
 */
module Numerals {
  import opened Wrappers

  /** The values of a C# `int`. */
  type Int32 = x: int | -0x8000_0000 <= x < 0x8000_0000

  /** The white space the default number style skips: U+0009 to U+000D and U+0020. */
  predicate IsWhiteSpace(c: char) {
    c == ' ' || ('\t' <= c <= '\r')
  }

  predicate AllWhiteSpace(s: string) {
    forall i :: 0 <= i < |s| ==> IsWhiteSpace(s[i])
  }

  predicate IsDigit(c: char) {
    '0' <= c <= '9'
  }

  predicate AllDigits(s: string) {
    forall i :: 0 <= i < |s| ==> IsDigit(s[i])
  }

  /** `s` without its leading white space. */
  function TrimStart(s: string): (t: string)
    ensures |t| <= |s| && t == s[|s| - |t|..]
    ensures AllWhiteSpace(s[..|s| - |t|])
    ensures t != [] ==> !IsWhiteSpace(t[0])
  {
    if s != [] && IsWhiteSpace(s[0]) then TrimStart(s[1..]) else s
  }

  /** `s` without its trailing white space. */
  function TrimEnd(s: string): (t: string)
    ensures |t| <= |s| && t == s[..|t|]
    ensures AllWhiteSpace(s[|t|..])
    ensures t != [] ==> !IsWhiteSpace(t[|t| - 1])
  {
    if s != [] && IsWhiteSpace(s[|s| - 1]) then TrimEnd(s[..|s| - 1]) else s
  }

  function DigitValue(c: char): nat
    requires IsDigit(c)
  {
    c as int - '0' as int
  }

  /** The value of a string of decimal digits, most significant first. */
  function DigitsValue(s: string): nat
    requires AllDigits(s)
  {
    if s == [] then 0 else DigitsValue(s[..|s| - 1]) * 10 + DigitValue(s[|s| - 1])
  }

  /** The text after an optional leading sign. */
  function Unsigned(t: string): string {
    if t != [] && (t[0] == '-' || t[0] == '+') then t[1..] else t
  }

  /** An optional sign followed by at least one decimal digit. */
  predicate IsNumeral(t: string) {
    var digits := Unsigned(t);
    digits != [] && AllDigits(digits)
  }

  /** The integer a numeral denotes. */
  function NumeralValue(t: string): int
    requires IsNumeral(t)
  {
    var magnitude: int := DigitsValue(Unsigned(t));
    if t[0] == '-' then -magnitude else magnitude
  }

  /**
   * `int.Parse(s)`: `None` stands for the `FormatException` (not a numeral)
   * and the `OverflowException` (outside the range of `int`) it throws.
   */
  function ParseInt32(s: string): (r: Option<Int32>)
    ensures var t := TrimEnd(TrimStart(s));
      r.Some? <==> IsNumeral(t) && -0x8000_0000 <= NumeralValue(t) < 0x8000_0000
    ensures r.Some? ==> r.value == NumeralValue(TrimEnd(TrimStart(s)))
  {
    ParseSigned(TrimEnd(TrimStart(s)))
  }

  /** A numeral within the range of `int`, white space already removed. */
  function ParseSigned(t: string): Option<Int32> {
    if IsNumeral(t) && -0x8000_0000 <= NumeralValue(t) < 0x8000_0000 then Some(NumeralValue(t)) else None
  }

  function DigitChar(d: nat): (c: char)
    requires d < 10
    ensures IsDigit(c) && DigitValue(c) == d
  {
    ('0' as int + d) as char
  }

  /** The decimal digits of `n`, without leading zeros. */
  function NatToDigits(n: nat): (s: string)
    ensures s != [] && AllDigits(s) && DigitsValue(s) == n
    ensures s[0] != '0' || n == 0
  {
    if n < 10 then [DigitChar(n)]
    else
      var prefix := NatToDigits(n / 10);
      var s := prefix + [DigitChar(n % 10)];
      assert s[..|s| - 1] == prefix;
      s
  }

  /** The invariant-culture decimal text of `n`, as `n.ToString()` writes it. */
  function Format(n: int): (s: string)
    ensures s != [] && !IsWhiteSpace(s[0]) && !IsWhiteSpace(s[|s| - 1])
  {
    if n < 0 then "-" + NatToDigits(-n) else NatToDigits(n)
  }

  lemma {:induction false} TrimStartSkipsWhiteSpace(ws: string, s: string)
    requires AllWhiteSpace(ws)
    requires s != [] && !IsWhiteSpace(s[0])
    ensures TrimStart(ws + s) == s
  {
    if ws != [] {
      assert (ws + s)[1..] == ws[1..] + s;
      TrimStartSkipsWhiteSpace(ws[1..], s);
    }
  }

  lemma {:induction false} TrimEndSkipsWhiteSpace(s: string, ws: string)
    requires AllWhiteSpace(ws)
    requires s != [] && !IsWhiteSpace(s[|s| - 1])
    ensures TrimEnd(s + ws) == s
  {
    if ws != [] {
      assert (s + ws)[..|s + ws| - 1] == s + ws[..|ws| - 1];
      TrimEndSkipsWhiteSpace(s, ws[..|ws| - 1]);
    } else {
      assert s + ws == s;
    }
  }

  /**
   * Every `int` survives being written in decimal and read back, with any white
   * space around it.
   */
  lemma ParseFormatRoundTrip(before: string, n: Int32, after: string)
    requires AllWhiteSpace(before) && AllWhiteSpace(after)
    ensures ParseInt32(before + Format(n) + after) == Some(n)
  {
    var f := Format(n);
    assert before + f + after == before + (f + after);
    TrimStartSkipsWhiteSpace(before, f + after);
    TrimEndSkipsWhiteSpace(f, after);
    ParseSignedFormat(n);
  }

  lemma ParseSignedFormat(n: Int32)
    ensures ParseSigned(Format(n)) == Some(n)
  {
    var f := Format(n);
    if n < 0 {
      var digits := NatToDigits(-(n as int));
      assert f == ['-'] + digits && f[1..] == digits;
    } else {
      var digits := NatToDigits(n);
      assert f == digits;
      assert !(f[0] == '-' || f[0] == '+');
    }
  }

  /** Empty or blank text is not a numeral. */
  lemma ParseRejectsBlank(s: string)
    requires AllWhiteSpace(s)
    ensures TrimStart(s) == [] && ParseInt32(s) == None
  {
  }

  /** Text with no white space at either end is what `int.Parse` reads as it is. */
  lemma TrimUnpadded(t: string)
    requires t != [] && !IsWhiteSpace(t[0]) && !IsWhiteSpace(t[|t| - 1])
    ensures TrimEnd(TrimStart(t)) == t
  {
    TrimStartSkipsWhiteSpace("", t);
    assert "" + t == t;
    TrimEndSkipsWhiteSpace(t, "");
    assert t + "" == t;
  }

  /** A sign with no digits after it is not a numeral. */
  lemma ParseRejectsBareSign(sign: char)
    requires sign == '-' || sign == '+'
    ensures ParseInt32([sign]) == None
  {
    TrimUnpadded([sign]);
    ParseSignedBareSign(sign);
  }

  lemma ParseSignedBareSign(sign: char)
    requires sign == '-' || sign == '+'
    ensures ParseSigned([sign]) == None
  {
    assert [sign][1..] == [];
  }

  /**
   * After the optional leading sign every character must be a digit: a non-digit
   * anywhere past the first position of unpadded text makes it no numeral.
   */
  lemma ParseRejectsNonDigit(t: string, k: nat)
    requires t != [] && !IsWhiteSpace(t[0]) && !IsWhiteSpace(t[|t| - 1])
    requires 0 < k < |t| && !IsDigit(t[k])
    ensures ParseInt32(t) == None
  {
    TrimUnpadded(t);
    ParseSignedNonDigit(t, k);
  }

  lemma ParseSignedNonDigit(t: string, k: nat)
    requires 0 < k < |t| && !IsDigit(t[k])
    ensures ParseSigned(t) == None
  {
    if t[0] == '-' || t[0] == '+' {
      assert !IsDigit(t[1..][k - 1]);
    } else {
      assert !IsDigit(t[k]);
    }
  }

  function Pow10(k: nat): (p: nat)
    ensures p >= 1
  {
    if k == 0 then 1 else 10 * Pow10(k - 1)
  }

  /** A numeral without a leading zero is worth at least ten to the number of its digits less one. */
  lemma {:induction false} DigitsValueLowerBound(s: string)
    requires s != [] && AllDigits(s) && s[0] != '0'
    ensures DigitsValue(s) >= Pow10(|s| - 1)
  {
    if |s| > 1 {
      DigitsValueLowerBound(s[..|s| - 1]);
    }
  }

  /** Eleven or more digits after the sign, the first of them not 0, are worth at least ten billion. */
  lemma MagnitudeTooLarge(t: string)
    requires IsNumeral(t) && |Unsigned(t)| >= 11 && Unsigned(t)[0] != '0'
    ensures DigitsValue(Unsigned(t)) >= 10_000_000_000
  {
    var digits := Unsigned(t);
    DigitsValueLowerBound(digits);
    Pow10Monotone(10, |digits| - 1);
    assert Pow10(10) == 10_000_000_000;
  }

  /**
   * A numeral with eleven or more digits after its optional sign and no leading
   * zero is outside the range of `int` and is refused, with any white space around it.
   */
  lemma ParseRejectsOverflow(before: string, t: string, after: string)
    requires AllWhiteSpace(before) && AllWhiteSpace(after)
    requires IsNumeral(t) && |Unsigned(t)| >= 11 && Unsigned(t)[0] != '0'
    ensures ParseInt32(before + t + after) == None
  {
    assert !IsWhiteSpace(t[0]) && !IsWhiteSpace(t[|t| - 1]);
    assert before + t + after == before + (t + after);
    TrimStartSkipsWhiteSpace(before, t + after);
    TrimEndSkipsWhiteSpace(t, after);
    MagnitudeTooLarge(t);
  }

  lemma {:induction false} Pow10Monotone(j: nat, k: nat)
    requires j <= k
    ensures Pow10(j) <= Pow10(k)
  {
    if j < k {
      Pow10Monotone(j, k - 1);
    }
  }
}
