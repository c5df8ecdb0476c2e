/** `int.Parse(string)` of .NET with its default `NumberStyles.Integer`:
    optional leading and trailing white space, an optional sign, then one or
    more decimal digits, with the value inside the 32-bit signed range.
    `FormatInt` is the matching `Int32.ToString()`, used to state the round trip. */
module Numbers {
  import opened Wrappers
  import Text

  /** The two exceptions `int.Parse` throws on text it cannot convert. */
  datatype ParseError = BadFormat | Overflow

  const Int32Min: int := -0x8000_0000
  const Int32Max: int := 0x7FFF_FFFF

  /** The white space `NumberStyles.AllowLeadingWhite` and
      `AllowTrailingWhite` accept: U+0009 to U+000D and U+0020. */
  predicate IsParseWhite(c: char) {
    (0x09 <= c as int <= 0x0D) || c == ' '
  }

  predicate IsDigit(c: char) {
    '0' <= c <= '9'
  }

  function DigitValue(c: char): nat
    requires IsDigit(c)
  {
    c as int - '0' as int
  }

  function DigitChar(d: nat): (c: char)
    requires d < 10
    ensures IsDigit(c) && DigitValue(c) == d
  {
    ('0' as int + d) as char
  }

  /** Value of a string of decimal digits, most significant first. */
  function DigitsValue(digits: string): nat
    requires Text.All(digits, IsDigit)
  {
    if |digits| == 0 then 0
    else DigitsValue(digits[..|digits| - 1]) * 10 + DigitValue(digits[|digits| - 1])
  }

  /** `int.Parse`: fails with `BadFormat` unless the text, stripped of white
      space, is a sign followed by digits, and with `Overflow` when the value
      does not fit in 32 bits. */
  function ParseInt32(s: string): (r: Result<int, ParseError>)
    ensures r.Success? ==> Int32Min <= r.value <= Int32Max
    ensures Text.All(s, IsParseWhite) ==> r == Failure(BadFormat)
  {
    ParseNumber(Text.Strip(s, IsParseWhite))
  }

  /** The part of `int.Parse` after white space is stripped: an optional sign,
      then one or more digits. */
  function ParseNumber(t: string): (r: Result<int, ParseError>)
    ensures r.Success? ==> Int32Min <= r.value <= Int32Max
    ensures |t| == 0 ==> r == Failure(BadFormat)
  {
    var signed := |t| > 0 && (t[0] == '-' || t[0] == '+');
    var digits := if signed then t[1..] else t;
    if |digits| == 0 || !Text.All(digits, IsDigit) then Failure(BadFormat)
    else
      var magnitude: int := DigitsValue(digits);
      var v: int := if signed && t[0] == '-' then -magnitude else magnitude;
      if v < Int32Min || Int32Max < v then Failure(Overflow) else Success(v)
  }

  /** Decimal digits of a natural number, without leading zeros. */
  function FormatNat(n: nat): (s: string)
    ensures |s| > 0 && Text.All(s, IsDigit)
  {
    if n < 10 then [DigitChar(n)]
    else
      var s := FormatNat(n / 10) + [DigitChar(n % 10)];
      assert forall i :: 0 <= i < |s| - 1 ==> s[i] == FormatNat(n / 10)[i];
      s
  }

  /** `Int32.ToString()`: a minus sign for negative values, then the digits. */
  function FormatInt(n: int): string {
    if n < 0 then "-" + FormatNat(-n) else FormatNat(n)
  }

  lemma {:induction false} DigitsOfFormatNat(n: nat)
    ensures DigitsValue(FormatNat(n)) == n
  {
    if n >= 10 {
      var s := FormatNat(n);
      var prefix := FormatNat(n / 10);
      assert s[..|s| - 1] == prefix;
      DigitsOfFormatNat(n / 10);
    }
  }

  /** Parsing undoes formatting for every 32-bit value. */
  lemma ParseFormat(n: int)
    requires Int32Min <= n <= Int32Max
    ensures ParseInt32(FormatInt(n)) == Success(n)
  {
    var s := FormatInt(n);
    StripFormatted(n);
    ParseNumberFormatted(n);
  }

  lemma StripFormatted(n: int)
    ensures Text.Strip(FormatInt(n), IsParseWhite) == FormatInt(n)
  {
    var s := FormatInt(n);
    assert !IsParseWhite(s[0]) && !IsParseWhite(s[|s| - 1]);
    Text.StripPadded("", s, "", IsParseWhite);
    assert "" + s + "" == s;
  }

  lemma ParseNumberFormatted(n: int)
    requires Int32Min <= n <= Int32Max
    ensures ParseNumber(FormatInt(n)) == Success(n)
  {
    var m := if n < 0 then -n else n;
    DigitsOfFormatNat(m);
    if n < 0 {
      assert FormatInt(n)[1..] == FormatNat(m);
    }
  }

  /** White space around the number, such as the line feed a command prints
      after its output, is ignored. */
  lemma ParseIgnoresPadding(front: string, n: int, back: string)
    requires Int32Min <= n <= Int32Max
    requires Text.All(front, IsParseWhite) && Text.All(back, IsParseWhite)
    ensures ParseInt32(front + FormatInt(n) + back) == Success(n)
  {
    var s := FormatInt(n);
    assert !IsParseWhite(s[0]) && !IsParseWhite(s[|s| - 1]);
    Text.StripPadded(front, s, back, IsParseWhite);
    ParseNumberFormatted(n);
  }

  /** A number printed on a line of its own, as `sysctl -n` and `nproc` print
      it, parses back to that number. */
  lemma ParseLine(n: int)
    requires Int32Min <= n <= Int32Max
    ensures ParseInt32(FormatInt(n) + "\n") == Success(n)
  {
    var s := FormatInt(n);
    var line := s + "\n";
    assert line == "" + s + "\n";
    assert IsParseWhite("\n"[0]);
    ParseIgnoresPadding("", n, "\n");
  }

  /** Text that contains anything other than white space, signs and digits,
      such as a column header printed above the value, never parses. */
  lemma ParseRejectsForeignCharacter(s: string, i: nat)
    requires i < |s|
    requires !IsParseWhite(s[i]) && !IsDigit(s[i]) && s[i] != '-' && s[i] != '+'
    ensures ParseInt32(s) == Failure(BadFormat)
  {
    var t := Text.Strip(s, IsParseWhite);
    var a := Text.LeadingCount(s, IsParseWhite);
    Text.StripKeeps(s, IsParseWhite, i);
    assert t[i - a] == s[i];
    NumberRejects(t, i - a);
    assert ParseInt32(s) == ParseNumber(t);
  }

  lemma NumberRejects(t: string, i: nat)
    requires i < |t|
    requires !IsDigit(t[i]) && t[i] != '-' && t[i] != '+'
    ensures ParseNumber(t) == Failure(BadFormat)
  {
    var signed := |t| > 0 && (t[0] == '-' || t[0] == '+');
    var digits := if signed then t[1..] else t;
    if signed {
      assert digits[i - 1] == t[i];
    } else {
      assert digits[i] == t[i];
    }
  }
}
