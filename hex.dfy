/** The two hexadecimal conversions the range token relies on: reading a
    string of hex digits as a 32-bit signed integer (.NET's `Int32.Parse`
    with `NumberStyles.HexNumber`) and writing a non-negative integer in
    lower-case hex (`Int32.ToString("x")`). */
module Hex {

  predicate IsHexDigit(c: char) {
    ('0' <= c <= '9') || ('a' <= c <= 'f') || ('A' <= c <= 'F')
  }

  /** A non-empty run of hex digits, either case. */
  predicate IsHexString(s: string) {
    |s| > 0 && forall i :: 0 <= i < |s| ==> IsHexDigit(s[i])
  }

  function DigitValue(c: char): (d: nat)
    requires IsHexDigit(c)
    ensures d < 16
  {
    if '0' <= c <= '9' then (c - '0') as nat
    else if 'a' <= c <= 'f' then (c - 'a') as nat + 10
    else (c - 'A') as nat + 10
  }

  /** The lower-case digit for a value below sixteen. */
  function LowerDigit(d: nat): (c: char)
    requires d < 16
    ensures IsHexDigit(c) && DigitValue(c) == d
    ensures !('A' <= c <= 'F')
  {
    if d < 10 then ('0' as int + d) as char else ('a' as int + d - 10) as char
  }

  /** Sixteen to the power `k`: one more than the largest value `k` hex
      digits can hold. */
  function Pow16(k: nat): (p: nat)
    ensures p >= 1
  {
    if k == 0 then 1 else 16 * Pow16(k - 1)
  }

  /** The unsigned value of a string of hex digits, most significant first:
      the last digit is the value modulo sixteen, and `k` digits never reach
      sixteen to the power `k`. */
  function ParseHex(s: string): (n: nat)
    requires forall i :: 0 <= i < |s| ==> IsHexDigit(s[i])
    ensures |s| > 0 ==> n % 16 == DigitValue(s[|s| - 1])
    ensures n < Pow16(|s|)
  {
    if |s| == 0 then 0 else ParseHex(s[..|s| - 1]) * 16 + DigitValue(s[|s| - 1])
  }

  /** `Int32.Parse(s, NumberStyles.HexNumber)`: the digits are read as an
      unsigned 32-bit pattern and reinterpreted as two's complement, so
      patterns with the top bit set give negative numbers. Values wider
      than 32 bits throw OverflowException and are excluded. */
  function ParseInt32Hex(s: string): (n: int)
    requires IsHexString(s) && ParseHex(s) < 0x1_0000_0000
    ensures -0x8000_0000 <= n < 0x8000_0000
    ensures n % 0x1_0000_0000 == ParseHex(s)
    ensures n >= 0 <==> ParseHex(s) < 0x8000_0000
  {
    var u := ParseHex(s);
    if u < 0x8000_0000 then u else u - 0x1_0000_0000
  }

  /** `ToString("x")` on a non-negative integer: lower-case hex digits with
      no leading zero, and "0" for zero. */
  function FormatHex(n: nat): (s: string)
    ensures IsHexString(s)
    ensures forall i :: 0 <= i < |s| ==> !('A' <= s[i] <= 'F')
    ensures s[0] == '0' <==> n == 0
  {
    if n < 16 then [LowerDigit(n)] else FormatHex(n / 16) + [LowerDigit(n % 16)]
  }

  /** Reading back what `FormatHex` writes gives the number written. */
  lemma {:induction false} ParseFormatHex(n: nat)
    ensures ParseHex(FormatHex(n)) == n
  {
    var s := FormatHex(n);
    if n >= 16 {
      assert s[..|s| - 1] == FormatHex(n / 16);
      ParseFormatHex(n / 16);
    }
  }

  /** A canonical hex string (lower case, no leading zero) is what
      `FormatHex` writes for its value. */
  lemma {:induction false} FormatParseHex(s: string)
    requires IsHexString(s)
    requires forall i :: 0 <= i < |s| ==> !('A' <= s[i] <= 'F')
    requires s[0] == '0' ==> |s| == 1
    ensures FormatHex(ParseHex(s)) == s
  {
    var last := s[|s| - 1];
    if |s| == 1 {
      assert ParseHex(s) == DigitValue(last);
      assert LowerDigit(DigitValue(last)) == last;
    } else {
      var prefix := s[..|s| - 1];
      assert IsHexString(prefix) && prefix[0] == s[0];
      FormatParseHex(prefix);
      ParseHexPositive(prefix);
      assert ParseHex(s) / 16 == ParseHex(prefix) && ParseHex(s) % 16 == DigitValue(last);
      assert LowerDigit(DigitValue(last)) == last;
    }
  }

  /** A hex string without a leading zero has a non-zero value. */
  lemma {:induction false} ParseHexPositive(s: string)
    requires IsHexString(s) && s[0] != '0'
    ensures ParseHex(s) > 0
  {
    if |s| > 1 {
      assert s[..|s| - 1][0] == s[0];
      ParseHexPositive(s[..|s| - 1]);
    }
  }
}
