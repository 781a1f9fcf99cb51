/**
 Decimal digit strings: the rendering JavaScript gives a non-negative integer
 (as in the template literal `Weather service error: ${status}`) and the digit
 runs that JavaScript's string-to-number conversion reads.
 */
module Decimal {
  import opened Wrappers

  predicate IsDigit(c: char) {
    '0' <= c <= '9'
  }

  predicate AllDigits(s: string) {
    forall i :: 0 <= i < |s| ==> IsDigit(s[i])
  }

  function DigitValue(c: char): (d: nat)
    requires IsDigit(c)
    ensures d < 10
  {
    c as int - '0' as int
  }

  function DigitChar(d: nat): (c: char)
    requires d < 10
    ensures IsDigit(c) && DigitValue(c) == d
  {
    ('0' as int + d) as char
  }

  /** The value of a digit string read most significant digit first; "" reads as 0. */
  function DigitsValue(s: string): nat
    requires AllDigits(s)
    decreases |s|
  {
    if s == [] then 0 else DigitsValue(s[..|s| - 1]) * 10 + DigitValue(s[|s| - 1])
  }

  /** The canonical decimal rendering of `n`: digits only, no leading zero. */
  function NatToString(n: nat): (s: string)
    ensures |s| > 0 && AllDigits(s)
    ensures (s[0] == '0') == (n == 0)
    decreases n
  {
    if n < 10 then [DigitChar(n)] else NatToString(n / 10) + [DigitChar(n % 10)]
  }

  /** Reading back the rendering of `n` gives `n`. */
  lemma {:induction false} NatToStringValue(n: nat)
    ensures DigitsValue(NatToString(n)) == n
  {
    if n >= 10 {
      NatToStringValue(n / 10);
      var p := NatToString(n / 10);
      var s := p + [DigitChar(n % 10)];
      assert s[..|s| - 1] == p;
    }
  }

  /** Different numbers have different renderings. */
  lemma NatToStringInjective(a: nat, b: nat)
    ensures NatToString(a) == NatToString(b) <==> a == b
  {
    NatToStringValue(a);
    NatToStringValue(b);
  }

  function Pow10(k: nat): (p: nat)
    ensures p >= 1
  {
    if k == 0 then 1 else 10 * Pow10(k - 1)
  }

  /** The position of the first character of `s` that is in `cs`, or `|s|` when there is none. */
  function FirstIndexOf(s: string, cs: set<char>): (i: nat)
    ensures i <= |s|
    ensures forall j :: 0 <= j < i ==> s[j] !in cs
    ensures i < |s| ==> s[i] in cs
    decreases |s|
  {
    if s == [] then 0
    else if s[0] in cs then 0
    else 1 + FirstIndexOf(s[1..], cs)
  }

  /**
   The mantissa grammar of a decimal literal: `digits`, `digits.`,
   `digits.digits` or `.digits`, with at least one digit in all.
   */
  predicate IsMantissa(m: string) {
    (m != [] && AllDigits(m))
    || exists i :: 0 <= i < |m| && m[i] == '.' && AllDigits(m[..i]) && AllDigits(m[i + 1..]) && |m| > 1
  }

  /** The exponent grammar: at least one digit, with an optional sign before them. */
  predicate IsExponent(x: string) {
    (x != [] && AllDigits(x)) || (|x| > 1 && (x[0] == '+' || x[0] == '-') && AllDigits(x[1..]))
  }

  /**
   The unsigned decimal literal grammar: a mantissa, then optionally `e` or
   `E` and an exponent.
   */
  predicate IsDecimalLiteral(t: string) {
    IsMantissa(t)
    || exists i :: 0 <= i < |t| && (t[i] == 'e' || t[i] == 'E') && IsMantissa(t[..i]) && IsExponent(t[i + 1..])
  }

  /** The only point of a mantissa is the first one, and a mantissa has no exponent mark. */
  lemma MantissaPoint(m: string, i: int)
    requires 0 <= i < |m| && m[i] == '.' && AllDigits(m[..i]) && AllDigits(m[i + 1..])
    ensures FirstIndexOf(m, {'.'}) == i
    ensures forall j :: 0 <= j < |m| ==> m[j] != 'e' && m[j] != 'E'
  {
    assert forall j :: 0 <= j < i ==> IsDigit(m[..i][j]) && m[j] == m[..i][j];
    assert forall j :: i < j < |m| ==> IsDigit(m[i + 1..][j - i - 1]) && m[j] == m[i + 1..][j - i - 1];
  }

  /** A mantissa has no `e` or `E` in it. */
  lemma MantissaUnmarked(m: string)
    requires IsMantissa(m)
    ensures forall j :: 0 <= j < |m| ==> m[j] != 'e' && m[j] != 'E'
  {
    if !AllDigits(m) {
      var i :| 0 <= i < |m| && m[i] == '.' && AllDigits(m[..i]) && AllDigits(m[i + 1..]) && |m| > 1;
      MantissaPoint(m, i);
    }
  }

  /** A mantissa of a decimal literal, as a value. */
  function ParseMantissa(m: string): (r: Option<real>)
    ensures AllDigits(m) && m != [] ==> r == Some(DigitsValue(m) as real)
  {
    var dot := FirstIndexOf(m, {'.'});
    assert AllDigits(m) ==> dot == |m| && m[..dot] == m;
    var whole := m[..dot];
    var fraction := if dot < |m| then m[dot + 1..] else "";
    if AllDigits(whole) && AllDigits(fraction) && |whole| + |fraction| > 0 then
      Some(DigitsValue(whole) as real + OverPow10(DigitsValue(fraction) as real, |fraction|))
    else
      None
  }

  /**
   A mantissa is read exactly when the text follows the mantissa grammar
   ("." and "1.2.3" are not read).
   */
  lemma ParseMantissaDefined(m: string)
    ensures ParseMantissa(m).Some? <==> IsMantissa(m)
  {
    var dot := FirstIndexOf(m, {'.'});
    assert AllDigits(m) ==> dot == |m| && m[..dot] == m;
    forall i | 0 <= i < |m| && m[i] == '.' && AllDigits(m[..i]) && AllDigits(m[i + 1..])
      ensures i == dot
    {
      MantissaPoint(m, i);
    }
  }

  /** An exponent after `e` or `E`: an optional sign and at least one digit. */
  function ParseExponent(x: string): (r: Option<int>)
    ensures r.Some? <==> IsExponent(x)
    ensures x != [] && AllDigits(x) ==> r == Some(DigitsValue(x))
    ensures |x| > 1 && x[0] == '+' && AllDigits(x[1..]) ==> r == Some(DigitsValue(x[1..]))
    ensures |x| > 1 && x[0] == '-' && AllDigits(x[1..]) ==> r == Some(-(DigitsValue(x[1..]) as int))
  {
    if x != [] && (x[0] == '+' || x[0] == '-') then
      var digits := x[1..];
      if digits != [] && AllDigits(digits) then
        Some(if x[0] == '-' then -(DigitsValue(digits) as int) else DigitsValue(digits))
      else None
    else if x != [] && AllDigits(x) then Some(DigitsValue(x))
    else None
  }

  /**
   An unsigned decimal literal as JavaScript's string-to-number conversion
   reads it: a mantissa, then optionally `e` or `E` and an exponent. The value
   is the exact real number the literal denotes.
   */
  function ParseDecimal(t: string): (r: Option<real>)
    ensures AllDigits(t) && t != [] ==> r == Some(DigitsValue(t) as real)
  {
    var e := FirstIndexOf(t, {'e', 'E'});
    if e == |t| then ParseMantissa(t)
    else Scale(ParseMantissa(t[..e]), ParseExponent(t[e + 1..]))
  }

  /**
   A text is read as a decimal literal exactly when it follows the literal
   grammar ("1e", "e5" and "1e1e1" are not read).
   */
  lemma ParseDecimalDefined(t: string)
    ensures ParseDecimal(t).Some? <==> IsDecimalLiteral(t)
  {
    var e := FirstIndexOf(t, {'e', 'E'});
    if IsMantissa(t) {
      MantissaUnmarked(t);
      assert e == |t|;
      ParseMantissaDefined(t);
    } else if IsDecimalLiteral(t) {
      var i :| 0 <= i < |t| && (t[i] == 'e' || t[i] == 'E') && IsMantissa(t[..i]) && IsExponent(t[i + 1..]);
      ParseDecimalSplit(t, i);
    } else if e == |t| {
      ParseMantissaDefined(t);
    } else {
      ParseMantissaDefined(t[..e]);
      assert !(IsMantissa(t[..e]) && IsExponent(t[e + 1..]));
    }
  }

  /** A literal split at an exponent mark after a mantissa is read. */
  lemma ParseDecimalSplit(t: string, i: int)
    requires 0 <= i < |t| && (t[i] == 'e' || t[i] == 'E') && IsMantissa(t[..i]) && IsExponent(t[i + 1..])
    ensures ParseDecimal(t).Some?
  {
    MarkPosition(t, i);
    ParseMantissaDefined(t[..i]);
    assert ParseDecimal(t) == Scale(ParseMantissa(t[..i]), ParseExponent(t[i + 1..]));
  }

  /** The first exponent mark of a literal is the one that ends its mantissa. */
  lemma MarkPosition(t: string, i: int)
    requires 0 <= i < |t| && (t[i] == 'e' || t[i] == 'E') && IsMantissa(t[..i])
    ensures FirstIndexOf(t, {'e', 'E'}) == i
  {
    MantissaUnmarked(t[..i]);
  }

  /** A trailing letter is rejected: "45a" is not a literal. */
  lemma TrailingLetterRejected()
    ensures ParseDecimal("45a").None?
  {
    assert FirstIndexOf("45a", {'e', 'E'}) == 3 && FirstIndexOf("45a", {'.'}) == 3;
    assert !IsDigit("45a"[2]);
  }

  /** A second point is rejected: "1.2.3" is not a literal. */
  lemma SecondPointRejected()
    ensures ParseDecimal("1.2.3").None?
  {
    assert FirstIndexOf("1.2.3", {'e', 'E'}) == 5 && FirstIndexOf("1.2.3", {'.'}) == 1;
    assert "1.2.3"[2..] == "2.3" && !IsDigit("2.3"[1]);
  }

  /** A point needs a digit beside it: "." is not a literal. */
  lemma LonePointRejected()
    ensures ParseDecimal(".").None?
  {
    assert FirstIndexOf(".", {'e', 'E'}) == 1 && FirstIndexOf(".", {'.'}) == 0;
  }

  /** An exponent mark needs digits after it: "1e" is not a literal. */
  lemma MissingExponentRejected()
    ensures ParseDecimal("1e").None?
  {
    assert FirstIndexOf("1e", {'e', 'E'}) == 1 && "1e"[2..] == [];
  }

  /** An exponent mark needs a mantissa before it: "e5" is not a literal. */
  lemma MissingMantissaRejected()
    ensures ParseDecimal("e5").None?
  {
    assert FirstIndexOf("e5", {'e', 'E'}) == 0 && "e5"[..0] == [];
  }

  /** A second exponent is rejected: "1e1e1" is not a literal. */
  lemma SecondExponentRejected()
    ensures ParseDecimal("1e1e1").None?
  {
    assert FirstIndexOf("1e1e1", {'e', 'E'}) == 1 && "1e1e1"[2..] == "1e1";
    assert !IsDigit("1e1"[1]);
  }

  /** A mantissa times ten to an exponent, when both were read. */
  function Scale(mantissa: Option<real>, exponent: Option<int>): Option<real> {
    if mantissa.None? || exponent.None? then None
    else if exponent.value >= 0 then Some(TimesPow10(mantissa.value, exponent.value))
    else Some(OverPow10(mantissa.value, -exponent.value))
  }

  /** `v` with the decimal point moved `k` places right. */
  function TimesPow10(v: real, k: nat): real {
    if k == 0 then v else TimesPow10(v, k - 1) * 10.0
  }

  /** `v` with the decimal point moved `k` places left. */
  function OverPow10(v: real, k: nat): real {
    if k == 0 then v else OverPow10(v, k - 1) / 10.0
  }

  /** Moving the point `k` places right multiplies by ten to the `k`. */
  lemma {:induction false} TimesPow10Value(v: real, k: nat)
    ensures TimesPow10(v, k) == v * Pow10(k) as real
  {
    if k > 0 {
      TimesPow10Value(v, k - 1);
      assert Pow10(k) as real == Pow10(k - 1) as real * 10.0;
    }
  }

  /** Moving the point `k` places left divides by ten to the `k`. */
  lemma {:induction false} OverPow10Value(v: real, k: nat)
    ensures OverPow10(v, k) == v / Pow10(k) as real
  {
    if k > 0 {
      OverPow10Value(v, k - 1);
      var p := Pow10(k - 1) as real;
      assert Pow10(k) as real == p * 10.0;
      assert v / p / 10.0 == v / (p * 10.0);
    }
  }

  /** Appending digits shifts the value left by their count. */
  lemma {:induction false} DigitsValueAppend(w: string, f: string)
    requires AllDigits(w) && AllDigits(f)
    ensures AllDigits(w + f)
    ensures DigitsValue(w + f) == DigitsValue(w) * Pow10(|f|) + DigitsValue(f)
  {
    assert AllDigits(w + f);
    if f == [] {
      assert w + f == w;
    } else {
      var g, c := f[..|f| - 1], f[|f| - 1];
      DigitsValueAppend(w, g);
      assert (w + f)[..|w + f| - 1] == w + g && (w + f)[|w + f| - 1] == c;
      var a, p, b := DigitsValue(w), Pow10(|g|), DigitsValue(g);
      Regroup(a, p, b, DigitValue(c));
      assert Pow10(|f|) == p * 10 && f[..|f| - 1] == g;
    }
  }

  lemma Regroup(a: int, p: int, b: int, d: int)
    ensures (a * p + b) * 10 + d == a * (p * 10) + (b * 10 + d)
  {
  }

  /** The first character of `cs` in `a + [c] + b` is the `c`, when `a` has none and `c` is one. */
  lemma FirstIndexAfter(a: string, c: char, b: string, cs: set<char>)
    requires c in cs
    requires forall i :: 0 <= i < |a| ==> a[i] !in cs
    ensures FirstIndexOf(a + [c] + b, cs) == |a|
    ensures (a + [c] + b)[..|a|] == a && (a + [c] + b)[|a| + 1..] == b
  {
    var t := a + [c] + b;
    assert t[|a|] == c;
    assert forall j :: 0 <= j < |a| ==> t[j] == a[j];
  }

  /** `a + b/n` written over the common denominator `n`. */
  lemma OverDenominator(a: nat, b: nat, n: nat, v: nat)
    requires n >= 1 && v == a * n + b
    ensures a as real + b as real / n as real == v as real / n as real
  {
    var q := b as real / n as real;
    assert b as real == q * n as real;
    assert v as real == a as real * n as real + b as real;
    assert v as real == (a as real + q) * n as real;
  }

  /**
   A mantissa with a point, `w.f`, denotes the digits of `w` and `f` read
   together, divided by ten to the number of fraction digits ("45.75" is
   4575 / 100, "5." is 5, ".5" is 5 / 10).
   */
  lemma ParseMantissaFraction(w: string, f: string)
    requires AllDigits(w) && AllDigits(f) && |w| + |f| > 0
    ensures AllDigits(w + f)
    ensures ParseMantissa(w + "." + f) == Some(DigitsValue(w + f) as real / Pow10(|f|) as real)
    ensures ParseMantissa(w + "." + f) == Some(OverPow10(DigitsValue(w + f) as real, |f|))
  {
    FirstIndexAfter(w, '.', f, {'.'});
    assert w + "." + f == w + ['.'] + f;
    DigitsValueAppend(w, f);
    OverPow10Value(DigitsValue(f) as real, |f|);
    OverPow10Value(DigitsValue(w + f) as real, |f|);
    OverDenominator(DigitsValue(w), DigitsValue(f), Pow10(|f|), DigitsValue(w + f));
  }

  /** A literal `w.f` without an exponent is read by its mantissa. */
  lemma ParseDecimalFraction(w: string, f: string)
    requires AllDigits(w) && AllDigits(f) && |w| + |f| > 0
    ensures AllDigits(w + f)
    ensures ParseDecimal(w + "." + f) == Some(OverPow10(DigitsValue(w + f) as real, |f|))
  {
    var u := w + "." + f;
    assert forall i :: 0 <= i < |u| ==> u[i] !in {'e', 'E'};
    assert FirstIndexOf(u, {'e', 'E'}) == |u|;
    ParseMantissaFraction(w, f);
  }

  /** The exponent digits of `k`, with or without a minus sign. */
  lemma ParseExponentOfDigits(k: nat)
    ensures ParseExponent(NatToString(k)) == Some(k as int)
    ensures ParseExponent("-" + NatToString(k)) == Some(-(k as int))
  {
    NatToStringValue(k);
    assert ("-" + NatToString(k))[1..] == NatToString(k);
  }

  /**
   A literal `m` followed by `e` and an exponent `k` denotes the mantissa's
   value times ten to the `k`. The literal is read exactly when its mantissa is.
   */
  lemma ParseDecimalScaledUp(m: string, k: nat)
    requires forall i :: 0 <= i < |m| ==> m[i] != 'e' && m[i] != 'E'
    ensures ParseDecimal(m + "e" + NatToString(k)).Some? == ParseMantissa(m).Some?
    ensures ParseMantissa(m).Some? ==>
              ParseDecimal(m + "e" + NatToString(k)).value == TimesPow10(ParseMantissa(m).value, k)
  {
    var d := NatToString(k);
    assert ParseDecimal(m + "e" + d) == Scale(ParseMantissa(m), Some(k as int)) by {
      ParseExponentOfDigits(k);
      assert m + "e" + d == m + ['e'] + d;
      ParseDecimalAt(m, 'e', d);
    }
    ScaleUp(ParseMantissa(m), k);
  }

  /** With `e-` and the exponent `k`, the mantissa's value is divided by ten to the `k`. */
  lemma ParseDecimalScaledDown(m: string, k: nat)
    requires forall i :: 0 <= i < |m| ==> m[i] != 'e' && m[i] != 'E'
    ensures ParseDecimal(m + "e-" + NatToString(k)).Some? == ParseMantissa(m).Some?
    ensures ParseMantissa(m).Some? ==>
              ParseDecimal(m + "e-" + NatToString(k)).value == OverPow10(ParseMantissa(m).value, k)
  {
    var d := NatToString(k);
    assert ParseDecimal(m + "e-" + d) == Scale(ParseMantissa(m), Some(-(k as int))) by {
      ParseExponentOfDigits(k);
      assert m + "e-" + d == m + ['e'] + ("-" + d);
      ParseDecimalAt(m, 'e', "-" + d);
    }
    ScaleDown(ParseMantissa(m), k);
  }

  /** The exponent mark may be `e` or `E`: `m E x` reads as `m e x` for every exponent text `x`. */
  lemma ParseDecimalMarks(m: string, x: string)
    requires forall i :: 0 <= i < |m| ==> m[i] != 'e' && m[i] != 'E'
    ensures ParseDecimal(m + "E" + x) == ParseDecimal(m + "e" + x)
  {
    ParseDecimalAt(m, 'e', x);
    ParseDecimalAt(m, 'E', x);
    assert m + "e" + x == m + ['e'] + x && m + "E" + x == m + ['E'] + x;
  }

  /** A plus sign before the exponent digits changes nothing: `m e+d` reads as `m e d`. */
  lemma ParseDecimalPlusSign(m: string, d: string)
    requires forall i :: 0 <= i < |m| ==> m[i] != 'e' && m[i] != 'E'
    requires d != [] && AllDigits(d)
    ensures ParseDecimal(m + "e+" + d) == ParseDecimal(m + "e" + d)
  {
    ParseExponentPlus(d);
    assert ParseDecimal(m + "e+" + d) == Scale(ParseMantissa(m), ParseExponent("+" + d)) by {
      assert m + "e+" + d == m + ['e'] + ("+" + d);
      ParseDecimalAt(m, 'e', "+" + d);
    }
    assert ParseDecimal(m + "e" + d) == Scale(ParseMantissa(m), ParseExponent(d)) by {
      assert m + "e" + d == m + ['e'] + d;
      ParseDecimalAt(m, 'e', d);
    }
  }

  /** The exponent `+d` is the exponent `d`. */
  lemma ParseExponentPlus(d: string)
    requires d != [] && AllDigits(d)
    ensures ParseExponent("+" + d) == ParseExponent(d)
  {
    assert ("+" + d)[0] == '+' && ("+" + d)[1..] == d;
  }

  /** A text with one exponent mark is read as its mantissa scaled by its exponent. */
  lemma ParseDecimalAt(m: string, c: char, x: string)
    requires c == 'e' || c == 'E'
    requires forall i :: 0 <= i < |m| ==> m[i] != 'e' && m[i] != 'E'
    ensures ParseDecimal(m + [c] + x) == Scale(ParseMantissa(m), ParseExponent(x))
  {
    FirstIndexAfter(m, c, x, {'e', 'E'});
  }

  /** Scaling by a non-negative exponent moves the point right. */
  lemma ScaleUp(mantissa: Option<real>, k: nat)
    ensures Scale(mantissa, Some(k as int)).Some? == mantissa.Some?
    ensures mantissa.Some? ==> Scale(mantissa, Some(k as int)).value == TimesPow10(mantissa.value, k)
  {
  }

  /** Scaling by a negative exponent moves the point left. */
  lemma ScaleDown(mantissa: Option<real>, k: nat)
    ensures Scale(mantissa, Some(-(k as int))).Some? == mantissa.Some?
    ensures mantissa.Some? ==> Scale(mantissa, Some(-(k as int))).value == OverPow10(mantissa.value, k)
  {
  }
}
