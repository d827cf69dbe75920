/** JavaScript numbers as the scraping code sees them: a field may be `null`
    (a database value that is not set), `undefined` (a property that is
    missing), `NaN` (a failed `Number(...)` conversion) or a number. */
module JsNumbers {
  import opened Wrappers
  import opened JsText

  datatype JsNum = Null | Undefined | NaN | Num(value: real)

  predicate AllDigits(s: string) {
    forall i :: 0 <= i < |s| ==> IsDigit(s[i])
  }

  /** The value of a string of decimal digits. */
  function DigitsValue(ds: string): nat
    requires AllDigits(ds)
  {
    if ds == [] then 0 else DigitsValue(ds[..|ds| - 1]) * 10 + (ds[|ds| - 1] as int - '0' as int)
  }

  function Pow10(n: nat): (r: nat)
    ensures r >= 1
  {
    if n == 0 then 1 else 10 * Pow10(n - 1)
  }

  /** The value of an unsigned decimal literal `digits`, `digits.`,
      `digits.digits` or `.digits`; None when the text is not one. */
  function DecimalValue(b: string): Option<real> {
    match IndexOf(b, ".")
    case None =>
      if b != [] && AllDigits(b) then Some(DigitsValue(b) as real) else None
    case Some(dot) =>
      var whole, frac := b[..dot], b[dot + 1..];
      if (whole != [] || frac != []) && AllDigits(whole) && AllDigits(frac)
      then Some(DigitsValue(whole) as real + DigitsValue(frac) as real / Pow10(|frac|) as real)
      else None
  }

  predicate AllSpace(s: string) {
    forall i :: 0 <= i < |s| ==> IsSpace(s[i])
  }

  /** A text that neither starts nor ends with white space is its own trim. */
  lemma TrimUnchanged(s: string)
    requires s != [] && !IsSpace(s[0]) && !IsSpace(s[|s| - 1])
    ensures Trim(s) == s
  {
    assert TrimStart(s) == s;
  }

  lemma NoDotInDigits(s: string)
    requires AllDigits(s)
    ensures IndexOf(s, ".").None?
  {
  }

  lemma {:induction false} AllSpaceTrims(s: string)
    requires AllSpace(s)
    ensures TrimStart(s) == []
  {
    if s != [] {
      AllSpaceTrims(s[1..]);
    }
  }

  lemma DigitsAreANumber(s: string)
    ensures s != [] && AllDigits(s) ==> Trim(s) == s && IndexOf(s, ".").None?
  {
    if s != [] && AllDigits(s) {
      TrimUnchanged(s);
      NoDotInDigits(s);
    }
  }

  lemma BlankIsZero(s: string)
    ensures AllSpace(s) ==> Trim(s) == []
  {
    if AllSpace(s) {
      AllSpaceTrims(s);
    }
  }

  /** `Number(text)` for decimal literals: surrounding white space is
      ignored, blank text is 0, an optional sign is allowed, anything else
      is NaN. */
  function ToNumber(s: string): (r: JsNum)
    ensures r.Num? || r.NaN?
    ensures s != [] && AllDigits(s) ==> r == Num(DigitsValue(s) as real)
    ensures AllSpace(s) ==> r == Num(0.0)
  {
    DigitsAreANumber(s);
    BlankIsZero(s);
    var t := Trim(s);
    if t == [] then Num(0.0)
    else
      var negative := t[0] == '-';
      var body := if t[0] == '-' || t[0] == '+' then t[1..] else t;
      match DecimalValue(body)
      case None => NaN
      case Some(v) => Num(if negative then -v else v)
  }

  /** `Number(field)` for a field that may be missing: `Number(undefined)`
      is NaN. */
  function FieldToNumber(field: Option<string>): (r: JsNum)
    ensures field.None? ==> r == NaN
    ensures r.Num? || r.NaN?
  {
    match field
    case None => NaN
    case Some(s) => ToNumber(s)
  }

  /** What a database column receives for a number: a value, or no value
      (null) for null, undefined and NaN. */
  function Stored(x: JsNum): (r: Option<real>)
    ensures r.Some? <==> x.Num?
    ensures r.Some? ==> r.value == x.value
  {
    if x.Num? then Some(x.value) else None
  }
}
