/**
 * Reading one XML element's attributes: required ones (`elem.attrib[name]`), optional
 * ones (`elem.attrib.get(name)`), and the converters `maybeInt` and `maybeBool`.
 */
module Fields {
  import opened Wrappers
  import opened Records
  import opened Decimal
  import opened Text

  type Attrs = map<string, string>

  /** `elem.attrib.get(name)` (and `elem.get(name)`): the attribute, or `None` when it is absent. */
  function Get(attrs: Attrs, name: string): (r: Option<string>)
    ensures r.Some? <==> name in attrs
    ensures r.Some? ==> r.value == attrs[name]
  {
    if name in attrs then Some(attrs[name]) else None
  }

  /** `elem.attrib[name]`: the attribute, or a `KeyError` when it is absent. */
  function Required(attrs: Attrs, name: string): (r: Result<string, Error>)
    ensures r.Ok? <==> name in attrs
    ensures r.Ok? ==> r.value == attrs[name]
    ensures r.Err? ==> r.error == MissingAttribute(name)
  {
    if name in attrs then Ok(attrs[name]) else Err(MissingAttribute(name))
  }

  /**
   * `int(text)` on an attribute value read as ASCII text: it succeeds exactly when the
   * stripped text is an optional sign, blanks and one or more digits, gives their signed
   * value, and raises `ValueError` otherwise.
   */
  function ToInt(text: string): (r: Result<int, Error>)
    ensures r.Ok? <==> IsIntText(Strip(text))
    ensures r.Ok? ==> r.value == Signed(Strip(text), DigitsValue(Magnitude(Strip(text))))
    ensures r.Ok? <==> ParseInt(text).Some?
    ensures r.Ok? ==> ParseInt(text) == Some(r.value)
    ensures r.Err? ==> r.error == NotAnInteger(text)
  {
    ParseIntGrammar(text);
    match ParseInt(text)
    case Some(n) => Ok(n)
    case None => Err(NotAnInteger(text))
  }

  /** `int(elem.attrib[name])`: a missing attribute is a `KeyError`, a malformed one a `ValueError`. */
  function RequiredInt(attrs: Attrs, name: string): (r: Result<int, Error>)
    ensures r.Ok? <==> name in attrs && ParseInt(attrs[name]).Some?
    ensures r.Ok? ==> ParseInt(attrs[name]) == Some(r.value)
    ensures name !in attrs ==> r == Err(MissingAttribute(name))
  {
    if name in attrs then ToInt(attrs[name]) else Err(MissingAttribute(name))
  }

  /** `maybeInt(s)`: an absent value stays absent, a present one goes through `int()`. */
  function MaybeInt(s: Option<string>): (r: Result<Option<int>, Error>)
    ensures s.None? ==> r == Ok(None)
    ensures s.Some? ==> (r.Ok? <==> ParseInt(s.value).Some?)
    ensures s.Some? && r.Ok? ==> r.value.Some? && ParseInt(s.value) == r.value
  {
    match s
    case None => Ok(None)
    case Some(text) =>
      match ToInt(text)
      case Ok(n) => Ok(Some(n))
      case Err(e) => Err(e)
  }

  /** `maybeBool(s)`: absent stays absent, and only the exact text `true` is `True`. */
  function MaybeBool(s: Option<string>): (r: Option<bool>)
    ensures r.None? <==> s.None?
    ensures r == Some(true) <==> s == Some("true")
  {
    match s
    case None => None
    case Some(text) => Some(text == "true")
  }

  /** A present integer attribute is decoded to its value, `0` included. */
  lemma MaybeIntPresent(n: int)
    ensures MaybeInt(Some(IntToString(n))) == Ok(Some(n))
  {
    ParseIntToString(n);
  }

  /** A timestamp attribute: parsed when `parseTimestamps` is set, the raw text otherwise. */
  function StampField(attrs: Attrs, name: string, parseTimestamps: bool): (r: Option<Stamp>)
    ensures r.Some? <==> name in attrs
    ensures r.Some? ==> r.value == (if parseTimestamps then Parsed(attrs[name]) else Raw(attrs[name]))
  {
    match Get(attrs, name)
    case None => None
    case Some(text) => Some(if parseTimestamps then Parsed(text) else Raw(text))
  }

  /** `maybeFloat(elem.get(name))`, the float conversion itself left abstract. */
  function CoordField(attrs: Attrs, name: string): (r: Option<Coord>)
    ensures r.Some? <==> name in attrs
    ensures r.Some? ==> r.value == Coord(attrs[name])
  {
    match Get(attrs, name)
    case None => None
    case Some(text) => Some(Coord(text))
  }
}
