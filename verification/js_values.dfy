/**
 The JavaScript values that reach the validation code: the fields of a
 request body on the server and the bound inputs of the city form in the
 browser. Only what the code asks of them is modelled: `typeof`, truthiness
 (`!x`), conversion to a number (`isNaN(x)`, `x < -90`) and what survives a
 trip through JSON.
 */
module JsValues {
  import opened Wrappers
  import Decimal

  /** A JavaScript number. Finite values are exact reals: coordinates are only compared. */
  datatype JsNumber = Finite(r: real) | NaN | PosInfinity | NegInfinity

  /** `Obj` stands for any object or array. */
  datatype JsValue =
    | Undefined
    | Null
    | Bool(b: bool)
    | Str(s: string)
    | Num(n: JsNumber)
    | Obj

  /** The six falsy values (negative zero is the same real as zero). */
  const FalsyValues: set<JsValue> :=
    {Undefined, Null, Bool(false), Str(""), Num(Finite(0.0)), Num(NaN)}

  /** ToBoolean: what `!x` negates and what `x || d` tests. */
  predicate Truthy(v: JsValue)
    ensures Truthy(v) <==> v !in FalsyValues
  {
    match v
    case Undefined => false
    case Null => false
    case Bool(b) => b
    case Str(s) => s != ""
    case Num(n) => !n.NaN? && n != Finite(0.0)
    case Obj => true
  }

  /** The `typeof` operator. */
  function TypeOf(v: JsValue): (t: string)
    ensures t == "number" <==> v.Num?
    ensures t == "string" <==> v.Str?
  {
    match v
    case Undefined => "undefined"
    case Null => "object"
    case Bool(_) => "boolean"
    case Str(_) => "string"
    case Num(_) => "number"
    case Obj => "object"
  }

  /** `x < c` for a number `x` and a finite constant `c`: false whenever NaN is involved. */
  predicate LessThan(x: JsNumber, c: real) {
    match x
    case Finite(r) => r < c
    case NaN => false
    case PosInfinity => false
    case NegInfinity => true
  }

  /** `x > c` for a number `x` and a finite constant `c`: false whenever NaN is involved. */
  predicate GreaterThan(x: JsNumber, c: real) {
    match x
    case Finite(r) => r > c
    case NaN => false
    case PosInfinity => true
    case NegInfinity => false
  }

  /** The characters StringToNumber strips from both ends (WhiteSpace and LineTerminator). */
  predicate IsStrWhiteSpace(c: char) {
    var k := c as int;
    k == 0x09 || k == 0x0A || k == 0x0B || k == 0x0C || k == 0x0D || k == 0x20
    || k == 0xA0 || k == 0x1680 || (0x2000 <= k <= 0x200A) || k == 0x2028
    || k == 0x2029 || k == 0x202F || k == 0x205F || k == 0x3000 || k == 0xFEFF
  }

  /** `s` without its leading white space. */
  function TrimStart(s: string): (t: string)
    ensures |t| <= |s| && t == s[|s| - |t|..]
    ensures forall i :: 0 <= i < |s| - |t| ==> IsStrWhiteSpace(s[i])
    ensures t != [] ==> !IsStrWhiteSpace(t[0])
    decreases |s|
  {
    if s != [] && IsStrWhiteSpace(s[0]) then TrimStart(s[1..]) else s
  }

  /** `s` without its trailing white space. */
  function TrimEnd(s: string): (t: string)
    ensures |t| <= |s| && t == s[..|t|]
    ensures forall i :: |t| <= i < |s| ==> IsStrWhiteSpace(s[i])
    ensures t != [] ==> !IsStrWhiteSpace(t[|t| - 1])
    decreases |s|
  {
    if s != [] && IsStrWhiteSpace(s[|s| - 1]) then TrimEnd(s[..|s| - 1]) else s
  }

  function Negate(x: JsNumber): JsNumber {
    match x
    case Finite(r) => Finite(-r)
    case NaN => NaN
    case PosInfinity => NegInfinity
    case NegInfinity => PosInfinity
  }

  /** An unsigned decimal literal or `Infinity`; anything else is NaN. */
  function UnsignedToNumber(u: string): JsNumber {
    if u == "Infinity" then PosInfinity
    else match Decimal.ParseDecimal(u)
      case Some(r) => Finite(r)
      case None => NaN
  }

  /** An unsigned text reads as NaN exactly when it is neither `Infinity` nor a decimal literal. */
  lemma UnsignedToNumberNaN(u: string)
    ensures UnsignedToNumber(u) == NaN <==> u != "Infinity" && !Decimal.IsDecimalLiteral(u)
  {
    Decimal.ParseDecimalDefined(u);
  }

  /**
   StringToNumber: strip white space; an empty remainder is 0; otherwise an
   optional sign and an unsigned decimal literal or `Infinity`.
   */
  function StringToNumber(s: string): JsNumber {
    var t := TrimEnd(TrimStart(s));
    if t == [] then Finite(0.0)
    else if t[0] == '-' then Negate(UnsignedToNumber(t[1..]))
    else if t[0] == '+' then UnsignedToNumber(t[1..])
    else UnsignedToNumber(t)
  }

  /** ToNumber, the conversion behind `isNaN(x)` and `x < c`. */
  function ToNumber(v: JsValue): JsNumber {
    match v
    case Undefined => NaN
    case Null => Finite(0.0)
    case Bool(b) => Finite(if b then 1.0 else 0.0)
    case Str(s) => StringToNumber(s)
    case Num(n) => n
    case Obj => NaN
  }

  /**
   A falsy value converts to zero or NaN, and a number converts to itself, so
   for numbers truthiness is exactly "neither zero nor NaN".
   */
  lemma ToNumberOfFalsy(v: JsValue)
    ensures v in FalsyValues ==> ToNumber(v) == Finite(0.0) || ToNumber(v) == NaN
    ensures v.Num? ==> (Truthy(v) <==> ToNumber(v) != Finite(0.0) && ToNumber(v) != NaN)
  {
    match v
    case Str(s) =>
      if s == "" {
        StringToNumberOfBlank(s);
      } else {
        assert Truthy(v);
      }
    case _ =>
  }

  /** The global `isNaN`, which converts its argument first. */
  predicate IsNaN(v: JsValue) {
    ToNumber(v).NaN?
  }

  /** The text a template literal `${v}` gives a string-or-undefined value. */
  function TemplateText(v: Option<string>): string {
    match v
    case Some(s) => s
    case None => "undefined"
  }

  /**
   A field value after `JSON.stringify` on one side and `JSON.parse` on the
   other: NaN and the infinities become null, an undefined field is omitted
   and reads back as undefined, everything else arrives as it was sent.
   */
  function Transmit(v: JsValue): (w: JsValue)
    ensures TypeOf(w) == "number" ==> w == v
    ensures v.Num? && v.n.Finite? ==> w == v
    ensures v.Num? && !v.n.Finite? ==> w == Null
  {
    match v
    case Num(n) => if n.Finite? then v else Null
    case _ => v
  }

  /** A text with no white space at either end is left as it is by the trimming. */
  lemma TrimmedAlready(s: string)
    requires s != [] ==> !IsStrWhiteSpace(s[0]) && !IsStrWhiteSpace(s[|s| - 1])
    ensures TrimEnd(TrimStart(s)) == s
  {
  }

  /**
   A literal with no white space at either end and no sign of its own reads as
   an unsigned literal, and with a minus sign in front as its negation.
   */
  lemma StringToNumberOfLiteral(u: string)
    requires u != [] && !IsStrWhiteSpace(u[0]) && !IsStrWhiteSpace(u[|u| - 1])
    requires u[0] != '-' && u[0] != '+'
    ensures StringToNumber(u) == UnsignedToNumber(u)
    ensures StringToNumber("-" + u) == Negate(UnsignedToNumber(u))
  {
    TrimmedAlready(u);
    var s := "-" + u;
    assert s[0] == '-' && s[|s| - 1] == u[|u| - 1] && s[1..] == u;
    TrimmedAlready(s);
  }

  /** A text of white space only, the empty text included, converts to zero. */
  lemma StringToNumberOfBlank(s: string)
    requires forall i :: 0 <= i < |s| ==> IsStrWhiteSpace(s[i])
    ensures StringToNumber(s) == Finite(0.0)
  {
  }

  /** A digit string has no white space to strip and no sign. */
  lemma StringToNumberOfDigitString(s: string)
    requires s != [] && Decimal.AllDigits(s)
    ensures StringToNumber(s) == Finite(Decimal.DigitsValue(s) as real)
    ensures StringToNumber("-" + s) == Negate(Finite(Decimal.DigitsValue(s) as real))
  {
    assert !IsStrWhiteSpace(s[0]) && !IsStrWhiteSpace(s[|s| - 1]) && s[0] != 'I';
    StringToNumberOfLiteral(s);
  }

  /** The text of a natural number, as typed into a form field, reads back as that number. */
  lemma StringToNumberOfDigits(n: nat)
    ensures StringToNumber(Decimal.NatToString(n)) == Finite(n as real)
  {
    StringToNumberOfDigitString(Decimal.NatToString(n));
    Decimal.NatToStringValue(n);
  }

  /** A number typed with a leading minus sign reads back as the negated number. */
  lemma StringToNumberOfNegatedDigits(n: nat)
    ensures StringToNumber("-" + Decimal.NatToString(n)) == Finite(-(n as real))
  {
    var d := Decimal.NatToString(n);
    StringToNumberOfDigitString(d);
    Decimal.NatToStringValue(n);
    NegatedValue(StringToNumber("-" + d), n as real);
  }

  /** A number known as the negation of a finite value is that value negated. */
  lemma NegatedValue(x: JsNumber, r: real)
    requires x == Negate(Finite(r))
    ensures x == Finite(-r)
  {
  }

  /**
   A decimal fraction typed into a form field, `w.f` with an optional minus
   sign, reads back as its digits with the point moved left past the fraction
   digits ("-45.75" is -4575 moved two places, -45.75).
   */
  lemma StringToNumberOfDecimal(w: string, f: string)
    requires Decimal.AllDigits(w) && Decimal.AllDigits(f) && |w| + |f| > 0
    ensures Decimal.AllDigits(w + f)
    ensures StringToNumber(w + "." + f) == Finite(Decimal.OverPow10(Decimal.DigitsValue(w + f) as real, |f|))
    ensures StringToNumber("-" + (w + "." + f)) == Negate(Finite(Decimal.OverPow10(Decimal.DigitsValue(w + f) as real, |f|)))
  {
    var u := w + "." + f;
    Decimal.ParseDecimalFraction(w, f);
    assert u[|w|] == '.' && u != "Infinity";
    assert u[0] == (if w != [] then w[0] else '.') && u[|u| - 1] == (if f != [] then f[|f| - 1] else '.');
    StringToNumberOfLiteral(u);
  }

  /**
   A number typed with an exponent, `ne k`, reads back as `n` with the point
   moved `k` places right ("5e3" is 5000).
   */
  lemma StringToNumberOfExponent(n: nat, k: nat)
    ensures StringToNumber(Decimal.NatToString(n) + "e" + Decimal.NatToString(k))
            == Finite(Decimal.TimesPow10(n as real, k))
  {
    var d, x := Decimal.NatToString(n), Decimal.NatToString(k);
    var u := d + "e" + x;
    assert u[0] == d[0] && u[|u| - 1] == x[|x| - 1];
    var v := Decimal.TimesPow10(n as real, k);
    assert UnsignedToNumber(u) == Finite(v) by {
      assert u[0] != 'I';
      Decimal.NatToStringValue(n);
      Decimal.ParseDecimalScaledUp(d, k);
    }
    StringToNumberOfLiteral(u);
  }

  /**
   A text with nothing to trim and no sign that the literal parser rejects
   reads as NaN ("45a", "1.2.3", ".", "1e", "e5" and "1e1e1" are such texts).
   */
  lemma UnsignedIsNaN(u: string)
    requires u != [] && !IsStrWhiteSpace(u[0]) && !IsStrWhiteSpace(u[|u| - 1])
    requires u[0] != '-' && u[0] != '+' && u != "Infinity"
    requires Decimal.ParseDecimal(u) == None
    ensures StringToNumber(u) == NaN
  {
    StringToNumberOfLiteral(u);
  }
}
