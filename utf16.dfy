/** Conversion between a Unicode scalar value (UTF-32) and the UTF-16 code
    units that encode it: a single unit in the Basic Multilingual Plane, a
    surrogate pair above it (RFC 2781, sections 2.1 and 2.2). */
module Utf16 {

  /** Start of Unicode plane 1: the first value that needs a surrogate pair. */
  const UnicodePlane01Start := 0x10000
  /** End of Unicode plane 16: the largest code point. */
  const UnicodePlane16End := 0x10FFFF
  const HighSurrogateStart := 0xD800
  const HighSurrogateEnd := 0xDBFF
  const LowSurrogateStart := 0xDC00
  const LowSurrogateEnd := 0xDFFF

  /** One UTF-16 code unit (a .NET `char`). */
  type CodeUnit = u: int | 0 <= u < 0x1_0000

  /** A .NET string: a sequence of UTF-16 code units, surrogates included. */
  type Utf16String = seq<CodeUnit>

  /** The exceptions the two conversions throw. */
  datatype ConversionError =
    | OutOfRange            // ArgumentOutOfRangeException on the value
    | InvalidIndex          // ArgumentOutOfRangeException on the index
    | InvalidHighSurrogate  // a high surrogate not followed by a low one
    | InvalidLowSurrogate   // a low surrogate with no high one before it

  datatype Result<T> = Success(value: T) | Failure(error: ConversionError)

  /** A Unicode scalar value: a code point outside the surrogate band. */
  predicate IsScalar(v: int) {
    0 <= v <= UnicodePlane16End && !(HighSurrogateStart <= v <= LowSurrogateEnd)
  }

  predicate IsHighSurrogate(u: int) { HighSurrogateStart <= u <= HighSurrogateEnd }

  predicate IsLowSurrogate(u: int) { LowSurrogateStart <= u <= LowSurrogateEnd }

  /** ConvertFromUtf32: the one or two code units that encode `utf32`. */
  function ConvertFromUtf32(utf32: int): (r: Result<Utf16String>)
    ensures r.Success? <==> IsScalar(utf32)
    ensures r.Failure? ==> r.error == OutOfRange
    ensures r.Success? && utf32 < UnicodePlane01Start ==> r.value == [utf32]
    ensures r.Success? && utf32 >= UnicodePlane01Start ==>
      |r.value| == 2 && IsHighSurrogate(r.value[0]) && IsLowSurrogate(r.value[1])
  {
    if utf32 < 0 || utf32 > UnicodePlane16End || (utf32 >= HighSurrogateStart && utf32 <= LowSurrogateEnd) then
      Failure(OutOfRange)
    else if utf32 < UnicodePlane01Start then
      Success([utf32])
    else
      var offset := utf32 - UnicodePlane01Start;
      Success([offset / 0x400 + HighSurrogateStart, offset % 0x400 + LowSurrogateStart])
  }

  /** The encoding of a scalar value, for callers that know the value is valid. */
  function Encode(v: int): (units: Utf16String)
    requires IsScalar(v)
    ensures 1 <= |units| <= 2
  {
    ConvertFromUtf32(v).value
  }

  /** ConvertToUtf32: the scalar value encoded by the unit, or the surrogate
      pair, that starts at `index` in `s`. */
  function ConvertToUtf32(s: Utf16String, index: int): (r: Result<int>)
    ensures r == Failure(InvalidIndex) <==> !(0 <= index < |s|)
    ensures r == Failure(InvalidLowSurrogate) <==> 0 <= index < |s| && IsLowSurrogate(s[index])
    ensures r == Failure(InvalidHighSurrogate) <==>
      0 <= index < |s| && IsHighSurrogate(s[index]) &&
      (index == |s| - 1 || !IsLowSurrogate(s[index + 1]))
    ensures r.Failure? ==> r.error != OutOfRange
    ensures r.Success? ==> IsScalar(r.value)
    ensures r.Success? && !IsHighSurrogate(s[index]) ==> r.value == s[index] < UnicodePlane01Start
    ensures r.Success? && IsHighSurrogate(s[index]) ==> UnicodePlane01Start <= r.value <= UnicodePlane16End
  {
    if index < 0 || index >= |s| then
      Failure(InvalidIndex)
    else
      var temp1 := s[index] - HighSurrogateStart;
      if 0 <= temp1 <= 0x7FF then
        if temp1 <= 0x3FF then
          if index < |s| - 1 then
            var temp2 := s[index + 1] - LowSurrogateStart;
            if 0 <= temp2 <= 0x3FF then
              Success(temp1 * 0x400 + temp2 + UnicodePlane01Start)
            else
              Failure(InvalidHighSurrogate)
          else
            Failure(InvalidHighSurrogate)
        else
          Failure(InvalidLowSurrogate)
      else
        Success(s[index])
  }

  /** Decoding the encoding of a scalar value gives that value back. */
  lemma {:induction false} DecodeEncode(v: int)
    requires IsScalar(v)
    ensures ConvertToUtf32(Encode(v), 0) == Success(v)
  {
    if v >= UnicodePlane01Start {
      var offset := v - UnicodePlane01Start;
      assert offset == (offset / 0x400) * 0x400 + offset % 0x400;
    }
  }

  /** Whatever decodes successfully is the encoding of the decoded value:
      the units read are exactly the units the encoder writes for it. */
  lemma {:induction false} EncodeDecode(s: Utf16String, index: int)
    requires ConvertToUtf32(s, index).Success?
    ensures var v := ConvertToUtf32(s, index).value;
      var width := if IsHighSurrogate(s[index]) then 2 else 1;
      index + width <= |s| && Encode(v) == s[index..index + width]
  {
    var v := ConvertToUtf32(s, index).value;
    if IsHighSurrogate(s[index]) {
      var hi, lo := s[index] - HighSurrogateStart, s[index + 1] - LowSurrogateStart;
      var offset := v - UnicodePlane01Start;
      assert offset == hi * 0x400 + lo;
      assert offset / 0x400 == hi && offset % 0x400 == lo;
    }
  }

  /** Encoding is one-to-one on scalar values. */
  lemma EncodeInjective(v: int, w: int)
    requires IsScalar(v) && IsScalar(w)
    requires Encode(v) == Encode(w)
    ensures v == w
  {
    DecodeEncode(v);
    DecodeEncode(w);
  }
}
