/** CSS values and the ordered, separator-tagged value list (`CSSValueList`)
    with its tolerant indexer, its serialisation and its two typed
    extractors. */
module CssValues {

  datatype Option<T> = None | Some(value: T)

  /** The child values a list can hold, each with its own CSS text. Only the
      distinctions the list makes are kept: a length value, a color value,
      the shared number-zero instance, and anything else. */
  datatype Value =
    | Length(cssText: string)
    | Color(cssText: string)
    | NumberZero(cssText: string)
    | Other(cssText: string)

  /** The CSS text of `Length.Zero` and `Color.Black`; their serialisation
      is not part of this model. */
  const ZeroLengthText: string
  const BlackText: string

  /** `new CSSLengthValue(Length.Zero)`, the tolerant length default. */
  const ZeroLength: Value := Length(ZeroLengthText)
  /** `new CSSColorValue(Color.Black)`, the tolerant color default. */
  const Black: Value := Color(BlackText)

  datatype Separator = Space | Comma | Slash

  /** The literal written between two items. */
  function SeparatorText(separator: Separator): (text: string)
    ensures |text| > 0
  {
    match separator
    case Comma => ", "
    case Slash => " / "
    case Space => " "
  }

  /** The items' CSS texts, in list order. */
  function CssTexts(items: seq<Value>): (texts: seq<string>)
    ensures |texts| == |items|
    ensures forall i :: 0 <= i < |items| ==> texts[i] == items[i].cssText
  {
    if items == [] then [] else [items[0].cssText] + CssTexts(items[1..])
  }

  /** `String.Join`: the parts with `sep` between each neighbouring pair;
      the text starts with the first part and ends with the last. */
  function Join(sep: string, parts: seq<string>): (r: string)
    ensures parts == [] ==> r == ""
    ensures parts != [] ==> |parts[0]| <= |r| && r[..|parts[0]|] == parts[0]
    ensures parts != [] ==> |parts[|parts| - 1]| <= |r| && r[|r| - |parts[|parts| - 1]|..] == parts[|parts| - 1]
  {
    if |parts| == 0 then ""
    else if |parts| == 1 then parts[0]
    else parts[0] + sep + Join(sep, parts[1..])
  }

  /** Appending a part adds one separator and the part at the end. */
  lemma {:induction false} JoinAppend(sep: string, parts: seq<string>, last: string)
    ensures Join(sep, parts + [last]) == if parts == [] then last else Join(sep, parts) + sep + last
  {
    if |parts| > 1 {
      assert (parts + [last])[1..] == parts[1..] + [last];
      JoinAppend(sep, parts[1..], last);
    } else if |parts| == 1 {
      assert (parts + [last])[1..] == [last];
    }
  }

  /** The CSS text of a list: the items' texts joined by the separator. */
  function ListCss(items: seq<Value>, separator: Separator): string {
    Join(SeparatorText(separator), CssTexts(items))
  }

  /** Appending an item to a list appends the separator and the item's text
      to the list's CSS text (just the item's text on an empty list). */
  lemma ListCssAppend(items: seq<Value>, separator: Separator, v: Value)
    ensures ListCss(items + [v], separator) ==
      if items == [] then v.cssText
      else ListCss(items, separator) + SeparatorText(separator) + v.cssText
  {
    assert CssTexts(items + [v]) == CssTexts(items) + [v.cssText];
    JoinAppend(SeparatorText(separator), CssTexts(items), v.cssText);
  }

  /** The comma list `1px, 2px`. */
  lemma CommaListExample()
    ensures ListCss([Length("1px"), Length("2px")], Comma) == "1px, 2px"
  {
    assert CssTexts([Length("1px"), Length("2px")]) == ["1px", "2px"];
  }

  class ValueList {
    /** `_items`, in insertion order. */
    var items: seq<Value>
    /** `_separator`. */
    var separator: Separator

    /** An empty list separated by spaces. */
    constructor ()
      ensures items == [] && separator == Space
    {
      items := [];
      separator := Space;
    }

    /** A space-separated list holding one item. */
    constructor Singleton(item: Value)
      ensures items == [item] && separator == Space
    {
      items := [item];
      separator := Space;
    }

    /** Appends an item; the only way the list grows. */
    method Add(item: Value)
      modifies this
      ensures items == old(items) + [item]
      ensures separator == old(separator)
    {
      items := items + [item];
    }

    /** The `Separator` setter. */
    method SetSeparator(value: Separator)
      modifies this
      ensures separator == value
      ensures items == old(items)
    {
      separator := value;
    }

    /** `Length`: the number of items. */
    function Length(): (n: nat)
      reads this
      ensures n == |items|
    {
      |items|
    }

    /** The indexer: the item at `index`, or None (null) for any index
        outside the list; it never fails. */
    function Get(index: int): (r: Option<Value>)
      reads this
      ensures r.Some? <==> 0 <= index < |items|
      ensures r.Some? ==> r.value == items[index]
    {
      if index >= 0 && index < |items| then Some(items[index]) else None
    }

    /** `Item(index)`: the same answer as the indexer. */
    function Item(index: int): (r: Option<Value>)
      reads this
      ensures r == Get(index)
      ensures r.Some? <==> 0 <= index < Length()
    {
      Get(index)
    }

    /** `ToCss`: the items' CSS texts, collected in order into an array and
        joined by the separator's literal. */
    method ToCss() returns (s: string)
      ensures s == ListCss(items, separator)
    {
      var values := new string[|items|];
      for i := 0 to |items|
        invariant values[..i] == CssTexts(items)[..i]
      {
        values[i] := items[i].cssText;
      }
      assert values[..] == values[..|items|] && CssTexts(items)[..|items|] == CssTexts(items);
      s := Join(SeparatorText(separator), values[..]);
    }

    /** `ToLength`: the length at `index`; the number-zero instance there
        lifts `required`; otherwise None (null) when required and the zero
        length when not. A negative index makes the source's list indexer
        throw and is excluded. */
    function ToLength(index: int, required: bool): (r: Option<Value>)
      reads this
      requires index >= 0
      ensures index < |items| && items[index].Length? ==> r == Some(items[index])
      ensures index < |items| && items[index].NumberZero? ==> r == Some(ZeroLength)
      ensures !(index < |items| && (items[index].Length? || items[index].NumberZero?)) ==>
        r == if required then None else Some(ZeroLength)
      ensures r.Some? ==> r.value.Length?
    {
      if index < |items| && items[index].Length? then
        Some(items[index])
      else
        var required' := if index < |items| && items[index].NumberZero? then false else required;
        if required' then None else Some(ZeroLength)
    }

    /** `ToColor`: the color at `index`; otherwise None (null) when required
        and black when not. */
    function ToColor(index: int, required: bool): (r: Option<Value>)
      reads this
      requires index >= 0
      ensures index < |items| && items[index].Color? ==> r == Some(items[index])
      ensures !(index < |items| && items[index].Color?) ==>
        r == if required then None else Some(Black)
      ensures r.Some? ==> r.value.Color?
    {
      if index < |items| && items[index].Color? then
        Some(items[index])
      else if required then
        None
      else
        Some(Black)
    }
  }

  /** A comma list of `1px` and `2px`: its text, a tolerant read past its
      end, and a required length read where a color stands. */
  method BuildAndSerialiseExample() {
    var list := new ValueList();
    list.Add(Length("1px"));
    list.Add(Length("2px"));
    list.SetSeparator(Comma);
    var s := list.ToCss();
    CommaListExample();
    assert s == "1px, 2px";
    var missing := list.ToLength(5, false);
    assert missing == Some(ZeroLength);
    var colors := new ValueList.Singleton(Color("red"));
    var wrongType := colors.ToLength(0, true);
    assert wrongType == None;
  }
}
