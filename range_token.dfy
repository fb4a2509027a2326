/** The CSS unicode-range token `U+XXXX` or `U+XXXX-YYYY` (the
    `unicode-range` descriptor of CSS Fonts Level 3, section 4.5): it holds
    every code point of the range, each encoded as a UTF-16 string. */
module CssRangeTokens {
  import opened Utf16
  import opened Hex

  datatype Option<T> = None | Some(value: T)

  /** `Symbols.MaximumCodepoint`, the largest Unicode code point. */
  const MaximumCodepoint := UnicodePlane16End

  /** The end bound after clamping to the largest code point. */
  function Clamp(f: int): (c: int)
    ensures c <= MaximumCodepoint
    ensures c == f || (f > MaximumCodepoint && c == MaximumCodepoint)
  {
    if f > MaximumCodepoint then MaximumCodepoint else f
  }

  /** Every code point from `lo` to `hi` can be encoded: the range is empty,
      or lies inside the code space and does not touch the surrogate band. */
  predicate CanEnumerate(lo: int, hi: int) {
    lo > hi ||
    (0 <= lo && hi <= MaximumCodepoint && (hi < HighSurrogateStart || lo > LowSurrogateEnd))
  }

  lemma CanEnumerateScalars(lo: int, hi: int, v: int)
    requires CanEnumerate(lo, hi) && lo <= v <= hi
    ensures IsScalar(v)
  {
  }

  /** The encodings of `lo`, `lo + 1`, ..., `hi`, in ascending order. */
  function Enumerate(lo: int, hi: int): (r: seq<Utf16String>)
    requires CanEnumerate(lo, hi)
    ensures |r| == if lo > hi then 0 else hi - lo + 1
    ensures forall k :: 0 <= k < |r| ==> r[k] == Encode(lo + k)
    decreases hi - lo
  {
    if lo > hi then
      []
    else
      var rest := Enumerate(lo + 1, hi);
      assert |rest| == hi - lo;
      var entries := [Encode(lo)] + rest;
      assert forall k :: 0 < k < |entries| ==> entries[k] == rest[k - 1];
      entries
  }

  /** The parsed end bound, if any. */
  function ParseEnd(end: Option<string>): Option<int>
    requires end.Some? ==> IsHexString(end.value) && ParseHex(end.value) < 0x1_0000_0000
  {
    match end
    case None => None
    case Some(e) => Some(ParseInt32Hex(e))
  }

  /** The parsed bounds never ask the constructor to encode a surrogate. */
  predicate Encodable(index: int, f: Option<int>) {
    index > MaximumCodepoint ||
    match f
    case None => IsScalar(index)
    case Some(e) => CanEnumerate(index, Clamp(e))
  }

  /** What the constructor stores for a parsed start and optional end:
      nothing when the start is past the largest code point, otherwise the
      encodings of the start up to the clamped end. */
  function Selected(index: int, f: Option<int>): (r: Option<seq<Utf16String>>)
    requires Encodable(index, f)
    ensures r.None? <==> index > MaximumCodepoint
    ensures r.Some? && f.None? ==> r.value == [Encode(index)]
    ensures r.Some? && f.Some? ==>
      |r.value| == (if index > Clamp(f.value) then 0 else Clamp(f.value) - index + 1) &&
      forall k :: 0 <= k < |r.value| ==> r.value[k] == Encode(index + k)
  {
    if index > MaximumCodepoint then None
    else if f.None? then Some([Encode(index)])
    else Some(Enumerate(index, Clamp(f.value)))
  }

  /** An end beyond the largest code point is clamped, not rejected. */
  lemma EndClamped(index: int, f: int)
    requires Encodable(index, Some(f)) && f > MaximumCodepoint
    ensures Encodable(index, Some(MaximumCodepoint))
    ensures Selected(index, Some(f)) == Selected(index, Some(MaximumCodepoint))
  {
  }

  /** Decoding entry `k` of an enumerated range gives `lo + k`. */
  lemma EnumerateDecodes(lo: int, hi: int)
    requires CanEnumerate(lo, hi)
    ensures forall k :: 0 <= k < |Enumerate(lo, hi)| ==> ConvertToUtf32(Enumerate(lo, hi)[k], 0) == Success(lo + k)
  {
    forall k | 0 <= k < |Enumerate(lo, hi)|
      ensures ConvertToUtf32(Enumerate(lo, hi)[k], 0) == Success(lo + k)
    {
      DecodeEncode(lo + k);
    }
  }

  /** The constructor's loop: encodes `index`, `index + 1`, ..., `f` and
      appends each to a list, stopping at once when `index > f`. */
  method EncodeRange(index: int, f: int) returns (list: seq<Utf16String>)
    requires CanEnumerate(index, f)
    ensures list == Enumerate(index, f)
  {
    list := [];
    var i := index;
    while i <= f
      invariant index <= i && (if index <= f then i <= f + 1 else i == index)
      invariant |list| == i - index
      invariant forall k :: 0 <= k < |list| ==> list[k] == Encode(index + k)
    {
      CanEnumerateScalars(index, f, i);
      list := list + [ConvertFromUtf32(i).value];
      i := i + 1;
    }
  }

  class RangeToken {
    /** `_range`: None where the source leaves the array null. */
    const range: Option<seq<Utf16String>>
    /** The first and last code point the range was built from. */
    ghost const first: int
    ghost const last: int

    ghost predicate Valid() {
      range.Some? ==> CanEnumerate(first, last) && range.value == Enumerate(first, last)
    }

    /** Parses the hex bounds and materialises every code point between
        them. The end is read only when the start is at most the largest
        code point. A start wider than 32 bits, or such an end when the
        start is at most 0x10FFFF, or a code point the loop would have to
        encode outside the scalar values (a negative start with no end or
        with an end at or above it, or a range that meets the surrogate
        band), throws in the source and is excluded here. */
    constructor (start: string, end: Option<string>)
      requires IsHexString(start) && ParseHex(start) < 0x1_0000_0000
      requires ParseInt32Hex(start) <= MaximumCodepoint ==>
        end.Some? ==> IsHexString(end.value) && ParseHex(end.value) < 0x1_0000_0000
      requires ParseInt32Hex(start) <= MaximumCodepoint ==>
        Encodable(ParseInt32Hex(start), ParseEnd(end))
      ensures Valid()
      ensures ParseInt32Hex(start) > MaximumCodepoint ==> range == None
      ensures ParseInt32Hex(start) <= MaximumCodepoint ==>
        range == Selected(ParseInt32Hex(start), ParseEnd(end))
      ensures range.Some? ==> first == ParseInt32Hex(start)
      ensures range.Some? ==> last == if end.None? then first else Clamp(ParseInt32Hex(end.value))
    {
      var index := ParseInt32Hex(start);
      if index <= MaximumCodepoint {
        if end.Some? {
          var f := ParseInt32Hex(end.value);
          if f > MaximumCodepoint {
            f := MaximumCodepoint;
          }
          var list := EncodeRange(index, f);
          range := Some(list);
          first, last := index, f;
        } else {
          range := Some([ConvertFromUtf32(index).value]);
          first, last := index, index;
        }
      } else {
        range := None;
        first, last := index, index;
      }
    }

    /** `IsEmpty`: no entry, either because the range was never set or
        because it holds none. */
    predicate IsEmpty(): (b: bool)
      ensures Valid() ==> (b <==> range.None? || first > last)
    {
      range.None? || |range.value| == 0
    }

    /** `SelectedRange`: the stored entries, one per code point from
        `first` to `last`, which decode to `first`, `first + 1`, ... in order. */
    function SelectedRange(): (r: Option<seq<Utf16String>>)
      requires Valid()
      ensures r == range
      ensures r.Some? ==> |r.value| == if first > last then 0 else last - first + 1
      ensures r.Some? ==> forall k :: 0 <= k < |r.value| ==> ConvertToUtf32(r.value[k], 0) == Success(first + k)
      ensures r.None? ==> IsEmpty()
    {
      if range.Some? then EnumerateDecodes(first, last); range else range
    }

    /** `ToValue`: the range written back as `#first` or `#first-#last`,
        with both bounds recovered by decoding the first and last entries. */
    function ToValue(): (s: string)
      requires Valid()
      ensures IsEmpty() ==> s == ""
      ensures !IsEmpty() && first == last ==> s == "#" + FormatHex(first)
      ensures !IsEmpty() && first != last ==> s == "#" + FormatHex(first) + "-#" + FormatHex(last)
    {
      if IsEmpty() then
        ""
      else
        var entries := range.value;
        EnumerateDecodes(first, last);
        var low := ConvertToUtf32(entries[0], 0).value;
        if |entries| == 1 then
          "#" + FormatHex(low)
        else
          var high := ConvertToUtf32(entries[|entries| - 1], 0).value;
          "#" + FormatHex(low) + "-#" + FormatHex(high)
    }
  }

  /** `U+10000-10002`: three entries, written back as `#10000-#10002`. */
  method SupplementaryRangeExample() {
    ParsedLiterals();
    assert Encodable(0x10000, Some(0x10002));
    var t := new RangeToken("10000", Some("10002"));
    assert t.range.Some? && |t.range.value| == 3;
    assert t.first == 0x10000 && t.last == 0x10002 && !t.IsEmpty();
    var text := t.ToValue();
    assert text == "#" + FormatHex(0x10000) + "-#" + FormatHex(0x10002);
    SupplementaryBoundsText();
    assert text == "#10000-#10002";
  }

  lemma SupplementaryBoundsText()
    ensures "#" + FormatHex(0x10000) + "-#" + FormatHex(0x10002) == "#10000-#10002"
  {
    assert FormatHex(0x10) == "10" && FormatHex(0x100) == "100" && FormatHex(0x1000) == "1000";
    var low, high := FormatHex(0x10000), FormatHex(0x10002);
    assert low == "10000" && high == "10002";
    assert "#" + low + "-#" + high == "#" + "10000" + "-#" + "10002";
  }

  /** `U+110000`: past the largest code point, so empty and written as "". */
  method StartBeyondMaximumExample() {
    ParsedLiterals();
    var t := new RangeToken("110000", None);
    assert t.IsEmpty() && t.ToValue() == "";
  }

  /** `U+110000-100000000`: the start is past the largest code point, so
      the end is never read, even though it is wider than 32 bits. */
  method UnreadEndExample() {
    ParsedLiterals();
    var t := new RangeToken("110000", Some("100000000"));
    assert t.range == None;
    assert t.IsEmpty() && t.ToValue() == "";
  }

  /** `U+FFFFFFFF-FFFFFFFE`: both bounds read as negative Int32 values (-1
      and -2), the loop never runs and the token is empty. */
  method NegativeBoundsExample() {
    ParsedAllOnes();
    assert Encodable(-1, Some(-2));
    var t := new RangeToken("FFFFFFFF", Some("FFFFFFFE"));
    assert t.range == Some([]);
    assert t.IsEmpty() && t.ToValue() == "";
  }

  /** `U+10FFFE-120000`: the end is clamped to 10FFFF, leaving two entries. */
  method ClampedEndExample() {
    ParsedLiterals();
    assert Encodable(0x10FFFE, Some(0x120000));
    var t := new RangeToken("10FFFE", Some("120000"));
    assert t.range.Some? && |t.range.value| == 2;
  }

  /** The bounds used by the three examples above, as `Int32.Parse` reads them. */
  lemma ParsedLiterals()
    ensures IsHexString("10000") && ParseHex("10000") == 0x10000 && ParseInt32Hex("10000") == 0x10000
    ensures IsHexString("10002") && ParseHex("10002") == 0x10002 && ParseEnd(Some("10002")) == Some(0x10002)
    ensures IsHexString("110000") && ParseHex("110000") == 0x110000 && ParseInt32Hex("110000") == 0x110000
    ensures IsHexString("10FFFE") && ParseHex("10FFFE") == 0x10FFFE && ParseInt32Hex("10FFFE") == 0x10FFFE
    ensures IsHexString("120000") && ParseHex("120000") == 0x120000 && ParseEnd(Some("120000")) == Some(0x120000)
  {
    ParsedFivePrefixes();
    ParsedSixDigitLiterals();
  }

  lemma ParsedFivePrefixes()
    ensures ParseHex("10000") == 0x10000 && ParseHex("10002") == 0x10002
  {
    assert "10000"[..4] == "1000" && "10002"[..4] == "1000";
    assert "1000"[..3] == "100" && "100"[..2] == "10" && "10"[..1] == "1";
  }

  lemma ParsedSixDigitLiterals()
    ensures ParseHex("110000") == 0x110000 && ParseHex("10FFFE") == 0x10FFFE && ParseHex("120000") == 0x120000
  {
    Parsed110000();
    Parsed10FFFE();
    Parsed120000();
  }

  lemma Parsed110000()
    ensures ParseHex("110000") == 0x110000
  {
    assert "110000"[..5] == "11000" && "11000"[..4] == "1100" && "1100"[..3] == "110";
    assert "110"[..2] == "11" && "11"[..1] == "1";
  }

  lemma Parsed10FFFE()
    ensures ParseHex("10FFFE") == 0x10FFFE
  {
    assert "10FFFE"[..5] == "10FFF" && "10FFF"[..4] == "10FF" && "10FF"[..3] == "10F";
    assert "10F"[..2] == "10" && "10"[..1] == "1";
  }

  lemma ParsedAllOnes()
    ensures IsHexString("FFFFFFFF") && ParseHex("FFFFFFFF") == 0xFFFF_FFFF && ParseInt32Hex("FFFFFFFF") == -1
    ensures IsHexString("FFFFFFFE") && ParseHex("FFFFFFFE") == 0xFFFF_FFFE && ParseEnd(Some("FFFFFFFE")) == Some(-2)
  {
    assert "FFFFFFFF"[..7] == "FFFFFFF" && "FFFFFFFE"[..7] == "FFFFFFF";
    assert "FFFFFFF"[..6] == "FFFFFF" && "FFFFFF"[..5] == "FFFFF" && "FFFFF"[..4] == "FFFF";
    assert "FFFF"[..3] == "FFF" && "FFF"[..2] == "FF" && "FF"[..1] == "F";
  }

  lemma Parsed120000()
    ensures ParseHex("120000") == 0x120000
  {
    assert "120000"[..5] == "12000" && "12000"[..4] == "1200" && "1200"[..3] == "120";
    assert "120"[..2] == "12" && "12"[..1] == "1";
  }
}
