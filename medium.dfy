/** The media descriptor `CSSMedium` and its two subclasses: `only <type>`
    (`CSSOnlyMedium`) and `not <type>` (`CSSInvertMedium`), after Media
    Queries Level 3, section 2. Each is a medium with a `Type`; the
    subclasses override `ToCss` and `Validate` and call the base versions. */
module CssMedia {
  import CssValues
  type Option<T> = CssValues.Option<T>

  /** The three classes, each with its `Type` (None where it is null). */
  datatype Medium =
    | Plain(mediaType: Option<string>)
    | OnlyMedium(mediaType: Option<string>)
    | InvertMedium(mediaType: Option<string>)

  /** The feature constraints as text. No constraint is ever stored. */
  const NoConstraints: string := ""

  /** How the base `ToCss` combines the type with the constraints text. */
  function TypeWithConstraints(mediaType: Option<string>, constraints: string): (s: string)
    ensures constraints == "" ==> s == if mediaType.Some? then mediaType.value else ""
    ensures constraints != "" && (mediaType.None? || mediaType.value == "") ==> s == constraints
    ensures constraints != "" && mediaType.Some? && mediaType.value != "" ==>
      s == mediaType.value + " " + constraints
  {
    if constraints == "" then
      match mediaType
      case Some(t) => t
      case None => ""
    else if mediaType.None? || mediaType.value == "" then
      constraints
    else
      mediaType.value + " " + constraints
  }

  /** `CSSMedium.Validate`: there are no constraints to fail. */
  function BaseValidate(m: Medium): (valid: bool)
    ensures valid
  {
    true
  }

  /** `CSSMedium.ToCss`: the type alone, or "" when it is unset. */
  function BaseToCss(m: Medium): (s: string)
    ensures m.mediaType.Some? ==> s == m.mediaType.value
    ensures m.mediaType.None? ==> s == ""
  {
    TypeWithConstraints(m.mediaType, NoConstraints)
  }

  /** `Validate` as dispatched on the medium's class. */
  function Validate(m: Medium): (valid: bool)
    ensures valid <==> !m.InvertMedium?
  {
    match m
    case Plain(_) => BaseValidate(m)
    case OnlyMedium(_) => BaseValidate(m)
    case InvertMedium(_) => !BaseValidate(m)
  }

  /** `ToCss` as dispatched on the medium's class: the base text, prefixed
      by `only ` or `not ` for the two subclasses. */
  function ToCss(m: Medium): (s: string)
    ensures m.Plain? ==> s == BaseToCss(m)
    ensures m.OnlyMedium? ==> s == "only " + BaseToCss(m)
    ensures m.InvertMedium? ==> s == "not " + BaseToCss(m)
  {
    match m
    case Plain(_) => BaseToCss(m)
    case OnlyMedium(_) => "only " + BaseToCss(m)
    case InvertMedium(_) => "not " + BaseToCss(m)
  }

  /** The subclasses delegate: each is its plain medium with a prefix, and
      `not` inverts the plain medium's validity. */
  lemma WrappersDelegate(t: Option<string>)
    ensures ToCss(OnlyMedium(t)) == "only " + ToCss(Plain(t))
    ensures ToCss(InvertMedium(t)) == "not " + ToCss(Plain(t))
    ensures Validate(OnlyMedium(t)) == Validate(Plain(t))
    ensures Validate(InvertMedium(t)) == !Validate(Plain(t))
  {
  }

  /** The type is recovered from the text of a medium with a type. */
  lemma {:induction false} ToCssKeepsType(m: Medium)
    requires m.mediaType.Some?
    ensures var s := ToCss(m);
      var prefix := |s| - |m.mediaType.value|;
      prefix >= 0 && s[prefix..] == m.mediaType.value
  {
    var t := m.mediaType.value;
    match m
    case Plain(_) =>
    case OnlyMedium(_) => assert ("only " + t)[5..] == t;
    case InvertMedium(_) => assert ("not " + t)[4..] == t;
  }

  /** `AddConstraint`: an extension point with no code behind it, so the
      medium writes and validates exactly as before. */
  function AddConstraint(m: Medium, feature: string, value: CssValues.Value): (m': Medium)
    ensures m' == m
    ensures ToCss(m') == ToCss(m) && Validate(m') == Validate(m)
  {
    m
  }

  /** `only screen`, `not screen` and a bare `screen`. */
  lemma ScreenExamples()
    ensures ToCss(OnlyMedium(CssValues.Some("screen"))) == "only screen"
    ensures ToCss(InvertMedium(CssValues.Some("screen"))) == "not screen"
    ensures !Validate(InvertMedium(CssValues.Some("screen"))) && Validate(Plain(CssValues.Some("screen")))
  {
  }
}
