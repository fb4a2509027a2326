# AngleSharp CSS values and tokens, modelled in Dafny

This project models four small pieces of AngleSharp's CSS layer and proves what they promise:

- **UTF-32 ⇄ UTF-16 codec** (`PlatformExtensions`, module `Utf16`, file `utf16.dfy`).
  - `ConvertFromUtf32` turns a scalar value into one code unit, or into a surrogate pair (RFC 2781, sections 2.1 and 2.2).
  - `ConvertToUtf32` decodes the unit or pair at an index. It fails with one of three error kinds.
  - Code units are integers in `[0, 0xFFFF]`. Dafny's `char` cannot hold a lone surrogate.
- **Hex conversions** (module `Hex`, file `hex.dfy`). These are the two .NET library calls the range token uses.
  - `Int32.Parse(s, NumberStyles.HexNumber)` reads a 32-bit pattern as two's complement.
  - `ToString("x")` writes lower-case hex.
- **Unicode-range token** (`CssRangeToken`, module `CssRangeTokens`, file `range_token.dfy`). This is `U+XXXX[-YYYY]`, the `unicode-range` descriptor of CSS Fonts Level 3, section 4.5.
  - A class whose constructor parses both bounds, clamps the end and encodes every code point in between, in a loop (`EncodeRange`).
  - `ToValue` writes the range back by decoding its first and last entries.
  - The ghost constants `first` and `last` record the bounds the entries were built from.
- **Value list** (`CSSValueList`, module `CssValues`, file `value_list.dfy`). A class with a `seq<Value>` field and a separator field.
  - It has a tolerant indexer and `ToCss`, which fills an array of texts in a loop and joins them.
  - It has the typed extractors `ToLength` and `ToColor`.
  - Child values are `Length`, `Color`, `NumberZero` (the shared `CSSNumberValue.Zero` instance) and `Other`. Each carries its CSS text.
- **Media descriptors** (`CSSMedium`, `CSSOnlyMedium`, `CSSInvertMedium`, module `CssMedia`, file `medium.dfy`). These follow Media Queries Level 3, section 2.
  - One datatype with three variants, one per class.
  - `Validate` and `ToCss` dispatch on the variant and call the base versions, as the overrides do.

Three points of the code that the model keeps as written:

- The code never clamps the start bound. A start above 0x10FFFF leaves the range unset (`None`), so `IsEmpty` holds.
- The `only` and `not` media are subclasses of `CSSMedium` whose overrides call `base`. They do not wrap an inner medium. The model dispatches on the variant of a single value.
- The separator is a settable property (`SetSeparator`), not fixed when the list is built.

`ToLength` and `ToColor` are functions. So they cannot change the items or the separator.

## Model

| member | source | states |
|---|---|---|
| `Utf16.ConvertFromUtf32` | AngleSharp/Extensions/PlatformExtensions.cs:28-42 | fails with OutOfRange exactly when the value is negative, above 0x10FFFF or in the surrogate band; a value below 0x10000 encodes to the single unit equal to it; a value from 0x10000 up encodes to a high surrogate followed by a low surrogate |
| `Utf16.ConvertToUtf32` | AngleSharp/Extensions/PlatformExtensions.cs:54-97 | InvalidIndex exactly when the index is outside the string; InvalidLowSurrogate exactly when a low surrogate is at the index; InvalidHighSurrogate exactly when a high surrogate is last or is followed by a non-low unit; a success is a scalar value, a non-surrogate unit decodes to itself, and a pair decodes into [0x10000, 0x10FFFF] |
| `Utf16.DecodeEncode` | AngleSharp/Extensions/PlatformExtensions.cs:23-97 | round trip: decoding at index 0 the encoding of any scalar value gives that value |
| `Utf16.EncodeDecode` | AngleSharp/Extensions/PlatformExtensions.cs:54-97 | reverse round trip: whatever decodes successfully is exactly the encoder's output for the decoded value (one unit, or the two units of the pair) |
| `Utf16.EncodeInjective` | AngleSharp/Extensions/PlatformExtensions.cs:32-42 | two scalar values with the same encoding are equal |
| `Hex.ParseHex` | AngleSharp/Parser/Css/Tokens/CssRangeToken.cs:29-36 | the digit reading inside `Int32.Parse`: the last digit is the value modulo 16, and k digits give a value below 16^k |
| `Hex.ParseInt32Hex` | AngleSharp/Parser/Css/Tokens/CssRangeToken.cs:29-36 | the parsed Int32 lies in the 32-bit signed range, agrees with the digits' value modulo 2^32, and is non-negative exactly when that value is below 2^31 |
| `Hex.FormatHex` | AngleSharp/Parser/Css/Tokens/CssRangeToken.cs:84-85 | writes a non-empty string of lower-case hex digits that starts with '0' only for zero |
| `Hex.ParseFormatHex` | AngleSharp/Parser/Css/Tokens/CssRangeToken.cs:84-85 | reading back what FormatHex writes gives the number written |
| `Hex.FormatParseHex` | AngleSharp/Parser/Css/Tokens/CssRangeToken.cs:84-85 | every canonical lower-case hex string is what FormatHex writes for its value |
| `CssRangeTokens.Clamp` | AngleSharp/Parser/Css/Tokens/CssRangeToken.cs:38-39 | the end never exceeds 0x10FFFF and is unchanged unless it did |
| `CssRangeTokens.Enumerate` | AngleSharp/Parser/Css/Tokens/CssRangeToken.cs:41-42 | the range from lo to hi has max(0, hi - lo + 1) entries and entry k is the encoding of lo + k |
| `CssRangeTokens.EncodeRange` | AngleSharp/Parser/Css/Tokens/CssRangeToken.cs:35-44 | the loop that appends encodings from the start up to the clamped end builds exactly that enumeration, and nothing for an inverted range |
| `CssRangeTokens.Selected` | AngleSharp/Parser/Css/Tokens/CssRangeToken.cs:29-49 | the range is unset exactly when the start exceeds 0x10FFFF; with no end it is the single encoding of the start; with an end it has max(0, clamped end - start + 1) entries, entry k encoding start + k |
| `CssRangeTokens.EndClamped` | AngleSharp/Parser/Css/Tokens/CssRangeToken.cs:38-39 | an end above 0x10FFFF gives the same range as the end 0x10FFFF |
| `CssRangeTokens.EnumerateDecodes` | AngleSharp/Parser/Css/Tokens/CssRangeToken.cs:41-44 | decoding entry k of an enumerated range gives lo + k |
| `CssRangeTokens.RangeToken.constructor` | AngleSharp/Parser/Css/Tokens/CssRangeToken.cs:26-49 | leaves the range unset when the start is past 0x10FFFF, without reading the end; otherwise stores exactly `Selected` of the parsed start and optional end; records the start and the clamped end (or the start again) as the token's bounds |
| `CssRangeTokens.RangeToken.IsEmpty` | AngleSharp/Parser/Css/Tokens/CssRangeToken.cs:58-61 | for a constructed token: empty exactly when the range is unset or the start lies past the clamped end |
| `CssRangeTokens.RangeToken.SelectedRange` | AngleSharp/Parser/Css/Tokens/CssRangeToken.cs:66-69 | returns exactly the stored range; when set it holds max(0, last - first + 1) entries, which decode, in order, to the consecutive code points first, first + 1, ... |
| `CssRangeTokens.RangeToken.ToValue` | AngleSharp/Parser/Css/Tokens/CssRangeToken.cs:79-86 | "" for an empty token; "#" + lower-case hex of the start for a one-entry token; otherwise "#" + hex(start) + "-#" + hex(clamped end) |
| `CssValues.SeparatorText` | AngleSharp/DOM/Css/Values/CSSValueList.cs:110 | every separator writes a non-empty literal (", " for Comma, " / " for Slash, " " otherwise) |
| `CssValues.CssTexts` | AngleSharp/DOM/Css/Values/CSSValueList.cs:105-108 | one text per item, and text i is item i's CSS text |
| `CssValues.Join` | AngleSharp/DOM/Css/Values/CSSValueList.cs:110 | `String.Join`: "" for no parts; otherwise the text starts with the first part and ends with the last |
| `CssValues.JoinAppend` | AngleSharp/DOM/Css/Values/CSSValueList.cs:110 | joining one more part adds the separator and that part at the end (just the part when there was none) |
| `CssValues.ListCssAppend` | AngleSharp/DOM/Css/Values/CSSValueList.cs:103-111 | after appending an item, the list's text is the old text, the separator and the item's text, in list order |
| `CssValues.CommaListExample` | AngleSharp/DOM/Css/Values/CSSValueList.cs:103-111 | the comma list of `1px` and `2px` writes `1px, 2px` |
| `CssValues.ValueList.constructor` | AngleSharp/DOM/Css/Values/CSSValueList.cs:24-29 | a fresh list is empty and space-separated |
| `CssValues.ValueList.Singleton` | AngleSharp/DOM/Css/Values/CSSValueList.cs:35-39 | the one-item list holds exactly that item, space-separated |
| `CssValues.ValueList.Add` | AngleSharp/DOM/Css/Values/CSSValueList.cs:57-60 | the item is appended at the end and the separator is unchanged |
| `CssValues.ValueList.SetSeparator` | AngleSharp/DOM/Css/Values/CSSValueList.cs:48-52 | the separator takes the new value and the items are unchanged |
| `CssValues.ValueList.Length` | AngleSharp/DOM/Css/Values/CSSValueList.cs:69-72 | the length is the number of stored items |
| `CssValues.ValueList.Get` | AngleSharp/DOM/Css/Values/CSSValueList.cs:80-83 | the indexer returns an item exactly when 0 <= index < Length, and it is the item at that index; any other index gives None (null) and never fails |
| `CssValues.ValueList.Item` | AngleSharp/DOM/Css/Values/CSSValueList.cs:94-97 | `Item(i)` gives the indexer's answer: a value exactly for 0 <= i < Length |
| `CssValues.ValueList.ToCss` | AngleSharp/DOM/Css/Values/CSSValueList.cs:103-111 | the text is the items' CSS texts in list order, joined by the separator's literal; "" for an empty list |
| `CssValues.ValueList.ToLength` | AngleSharp/DOM/Css/Values/CSSValueList.cs:117-131 | a length at the index is returned unchanged; the number-zero instance there gives the zero length even when required; a missing (index >= Length) or wrong-typed item gives None if required and the zero length otherwise; any result is a length |
| `CssValues.ValueList.ToColor` | AngleSharp/DOM/Css/Values/CSSValueList.cs:133-145 | a color at the index is returned unchanged; a missing or wrong-typed item gives None if required and black otherwise; any result is a color |
| `CssMedia.TypeWithConstraints` | AngleSharp/DOM/Css/Media/CSSMedium.cs:68-78 | with no constraints the type alone ("" when unset); with constraints and no type the constraints; with both the type, a space and the constraints |
| `CssMedia.BaseValidate` | AngleSharp/DOM/Css/Media/CSSMedium.cs:63-66 | the base medium is always valid |
| `CssMedia.BaseToCss` | AngleSharp/DOM/Css/Media/CSSMedium.cs:68-78 | the base text is the type, or "" when the type is null |
| `CssMedia.Validate` | AngleSharp/DOM/Css/Media/CSSMedium.cs:128-131 | a medium validates exactly when it is not a `not` medium |
| `CssMedia.ToCss` | AngleSharp/DOM/Css/Media/CSSMedium.cs:118-136 | the base text for a plain medium, "only " + base text for an `only` medium, "not " + base text for a `not` medium |
| `CssMedia.WrappersDelegate` | AngleSharp/DOM/Css/Media/CSSMedium.cs:118-136 | `only` and `not` write the plain medium's text after their prefix; `only` keeps the plain validity and `not` negates it |
| `CssMedia.ToCssKeepsType` | AngleSharp/DOM/Css/Media/CSSMedium.cs:68-136 | the text of a medium with a type ends with that type |
| `CssMedia.AddConstraint` | AngleSharp/DOM/Css/Media/CSSMedium.cs:80-113 | adding a constraint returns the medium unchanged, so its text and validity are as they were |
| `CssMedia.ScreenExamples` | AngleSharp/DOM/Css/Media/CSSMedium.cs:63-136 | `only screen` writes "only screen"; `not screen` writes "not screen" and is invalid; a bare `screen` is valid |

## Left out

- The `Char.ConvertFromUtf32` library call (PlatformExtensions.cs:26) is not modelled. It is a foreign call. The explicit surrogate algorithm of lines 28-42 stands for it.
- The null-string check in `ConvertToUtf32` (PlatformExtensions.cs:56-57) is left out, because Dafny sequences are never null.
- `Int32.Parse` with `NumberStyles.HexNumber` is modelled only on non-empty strings of hex digits.
  - Leading and trailing white space and the FormatException for other text are not modelled. The tokenizer hands the token hex digits only.
  - Values wider than 32 bits throw OverflowException. They are excluded by precondition wherever the source parses them.
- CssRangeTokens.RangeToken.constructor excludes by precondition the inputs on which the source throws:
  - a start whose digits are wider than 32 bits, or such an end when the start is at most 0x10FFFF (OverflowException); when the start is past 0x10FFFF the end is never read, so any end is accepted (`UnreadEndExample`);
  - a start that reads as a negative Int32 with no end, or with an end that reads at or above it, because `ConvertFromUtf32` then throws on the negative code point;
  - a range that reaches into the surrogate band, where `ConvertFromUtf32` throws.
  - A negative start with an end below it is modelled: the loop never runs and the range is empty (`NegativeBoundsExample`). So is a negative end, which yields an inverted, empty range.
- CssRangeTokens.RangeToken.SelectedRange returns an immutable sequence. The source hands out its internal mutable array, so a caller could change the token's entries through it; that aliasing is not modelled.
- `FormatHex` covers only non-negative numbers. `ToValue` only formats decoded scalar values, so `ToString("x")` on negative numbers is never needed.
- CssValues.ValueList.ToLength and CssValues.ValueList.ToColor require a non-negative index. For a negative index the source's `Count > index` test passes and `List<T>`'s indexer throws ArgumentOutOfRangeException.
- The internals of `CSSLengthValue`, `CSSColorValue`, `CSSNumberValue`, `Length` and `Color` are not modelled, nor the `CssToken` and `CSSValue` base classes. Each value is reduced to its kind and its CSS text. The texts of `Length.Zero` and `Color.Black` are left as unspecified constants.
- The token's base-class state (token type Range, empty data) and the list's `_type` field are not modelled. Nothing in these files reads them.
- The raw `List` property (CSSValueList.cs:57-60) is modelled by the explicit `Add` method. Callers use it only to append.
- The `IndexerName` attribute (CSSValueList.cs:79) has no counterpart.
- The media-feature grammar (CSSMedium.cs:82-111) exists only as comments. `AddConstraint` is an empty method, so no constraint is ever stored. How `Validate` would judge constraints is unresolved in the source and is not guessed at here.
- The unused `Types` array (CSSMedium.cs:12-30) is not modelled. `Type` is never checked against it.
- The `Type` setter (CSSMedium.cs:53-57) is not modelled as mutation. The builder sets it once, so the medium is a value carrying its type.
