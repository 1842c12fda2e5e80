/** The JavaScript values a JSON request body or a route parameter can carry,
    with the conversions the handlers apply to them: truthiness (`!x`),
    `Number(x)`, `Number(x) || 0` and loose equality (`==`). */
module JsValues {
  import opened Wrappers
  import opened JsStrings

  /** A primitive JSON value, or `undefined` for a field the body leaves out.
      Numbers are exact reals: the rounding of doubles, and the Infinity that
      `JSON.parse` gives for a literal beyond their range, are not modelled. */
  datatype Value = Undefined | Null | Bool(b: bool) | Num(n: real) | Str(s: string)

  /** The result of `Number(x)`: a finite number or NaN. */
  datatype Numeric = Finite(r: real) | NaN

  /** `!x` holds: `undefined`, `null`, `false`, `0` and `""` are falsy. */
  predicate Falsy(v: Value) {
    match v
    case Undefined => true
    case Null => true
    case Bool(b) => !b
    case Num(n) => n == 0.0
    case Str(s) => s == []
  }

  predicate IsDigit(c: char) {
    '0' <= c <= '9'
  }

  predicate AllDigits(s: string) {
    forall i :: 0 <= i < |s| ==> IsDigit(s[i])
  }

  /** The value of a string of decimal digits, most significant first. */
  function DigitsValue(s: string): nat
    requires AllDigits(s)
  {
    if s == [] then 0 else 10 * DigitsValue(s[..|s| - 1]) + (s[|s| - 1] as int - '0' as int)
  }

  function Pow10(n: nat): (p: real)
    ensures p >= 1.0
  {
    if n == 0 then 1.0 else 10.0 * Pow10(n - 1)
  }

  /** `m` with its decimal point moved `e` places: times ten to the power `e`,
      one factor of ten at a time. */
  function Shift(m: real, e: int): real
    decreases if e >= 0 then e else -e
  {
    if e == 0 then m else if e > 0 then 10.0 * Shift(m, e - 1) else Shift(m, e + 1) / 10.0
  }

  /** An exponent: an optional sign followed by at least one digit. */
  function ParseExponent(s: string): Option<int> {
    if s != [] && (s[0] == '+' || s[0] == '-') then
      var t := s[1..];
      if t != [] && AllDigits(t) then Some(if s[0] == '-' then -(DigitsValue(t) as int) else DigitsValue(t)) else None
    else if s != [] && AllDigits(s) then Some(DigitsValue(s))
    else None
  }

  /** The value of the digits `whole` before a decimal point and `fraction` after it. */
  function DecimalValue(whole: string, fraction: string): real
    requires AllDigits(whole) && AllDigits(fraction)
  {
    DigitsValue(whole) as real + Shift(DigitsValue(fraction) as real, -|fraction|)
  }

  /** A mantissa: digits with an optional fraction after `.`, at least one digit in all. */
  function ParseMantissa(m: string): Option<real> {
    var whole := BeforeFirst(m, '.');
    var fraction := if |whole| < |m| then m[|whole| + 1..] else [];
    if !AllDigits(whole) || !AllDigits(fraction) || |whole| + |fraction| == 0 then None
    else Some(DecimalValue(whole, fraction))
  }

  /** An unsigned decimal literal: a mantissa and an optional exponent after `e` or `E`. */
  function ParseUnsigned(s: string): Numeric {
    var mantissa := BeforeFirst(BeforeFirst(s, 'e'), 'E');
    var exponent := if |mantissa| < |s| then ParseExponent(s[|mantissa| + 1..]) else Some(0);
    var value := ParseMantissa(mantissa);
    if exponent.None? || value.None? then NaN else Finite(Shift(value.value, exponent.value))
  }

  /** Without an exponent a literal reads as its mantissa. */
  lemma ParseWithoutExponent(s: string)
    requires 'e' !in s && 'E' !in s
    ensures ParseUnsigned(s) == if ParseMantissa(s).Some? then Finite(ParseMantissa(s).value) else NaN
  {
    BeforeFirstAbsent(s, 'e');
    BeforeFirstAbsent(s, 'E');
  }

  /** Moving the decimal point is multiplying or dividing by a power of ten. */
  lemma {:induction false} ShiftIsPower(m: real, e: int)
    ensures Shift(m, e) == if e >= 0 then m * Pow10(e) else m / Pow10(-e)
    decreases if e >= 0 then e else -e
  {
    if e > 0 {
      ShiftIsPower(m, e - 1);
    } else if e < 0 {
      ShiftIsPower(m, e + 1);
      assert Pow10(-e) == 10.0 * Pow10(-e - 1);
    }
  }

  /** `Number(s)` for a string: surrounding white space is ignored, the empty
      string is 0, and a decimal literal may carry a sign. */
  function StringToNumber(s: string): (r: Numeric)
    ensures AllWhiteSpace(s) ==> r == Finite(0.0)
  {
    TrimEmptyIffBlank(s);
    ParseSigned(Trim(s))
  }

  /** A trimmed string as `Number` reads it: the empty string is 0, and a
      `-` or `+` may lead an unsigned literal. */
  function ParseSigned(t: string): Numeric {
    if t == [] then Finite(0.0)
    else if t[0] == '-' then
      match ParseUnsigned(t[1..])
      case Finite(r) => Finite(-r)
      case NaN => NaN
    else if t[0] == '+' then ParseUnsigned(t[1..])
    else ParseUnsigned(t)
  }

  /** `Number(v)`: every falsy value except `undefined` converts to 0. */
  function ToNumber(v: Value): (r: Numeric)
    ensures v.Undefined? ==> r.NaN?
    ensures Falsy(v) && !v.Undefined? ==> r == Finite(0.0)
    ensures v.Num? ==> r == Finite(v.n)
    ensures v.Bool? ==> r == Finite(if v.b then 1.0 else 0.0)
    ensures v.Str? ==> r == StringToNumber(v.s)
  {
    match v
    case Undefined => NaN
    case Null => Finite(0.0)
    case Bool(b) => Finite(if b then 1.0 else 0.0)
    case Num(n) => Finite(n)
    case Str(s) => StringToNumber(s)
  }

  /** `Number(v) || 0`: the number `v` converts to, with NaN replaced by 0. */
  function NumberOrZero(v: Value): (r: real)
    ensures ToNumber(v).NaN? ==> r == 0.0
    ensures ToNumber(v).Finite? ==> r == ToNumber(v).r
  {
    match ToNumber(v)
    case NaN => 0.0
    case Finite(x) => if x == 0.0 then 0.0 else x
  }

  /** `x == y`, the IsLooselyEqual algorithm of ECMA-262 on primitive values:
      `null` and `undefined` equal each other only, a boolean compares as the
      number 0 or 1, and a string compares with a number through `Number`. */
  function LooseEquals(x: Value, y: Value): (b: bool)
    ensures x == y ==> b
    ensures x.Undefined? || x.Null? ==> (b <==> y.Undefined? || y.Null?)
    ensures x.Num? && !y.Undefined? && !y.Null? ==> (b <==> ToNumber(y) == Finite(x.n))
    ensures x.Str? && y.Str? ==> (b <==> x.s == y.s)
    ensures x.Bool? && y.Bool? ==> (b <==> x.b == y.b)
    ensures x.Str? && (y.Undefined? || y.Null?) ==> !b
    ensures x.Bool? && y.Str? ==> (b <==> StringToNumber(y.s) == Finite(if x.b then 1.0 else 0.0))
    ensures x.Bool? && (y.Undefined? || y.Null?) ==> !b
    decreases (if x.Bool? then 1 else 0) + (if y.Bool? then 1 else 0)
  {
    match (x, y)
    case (Undefined, Undefined) => true
    case (Undefined, Null) => true
    case (Null, Undefined) => true
    case (Null, Null) => true
    case (Num(a), Num(b)) => a == b
    case (Str(a), Str(b)) => a == b
    case (Bool(a), Bool(b)) => a == b
    case (Num(a), Str(b)) => StringToNumber(b) == Finite(a)
    case (Str(a), Num(b)) => StringToNumber(a) == Finite(b)
    case (Bool(a), _) => LooseEquals(Num(if a then 1.0 else 0.0), y)
    case (_, Bool(b)) => LooseEquals(x, Num(if b then 1.0 else 0.0))
    case _ => false
  }

  /** The decimal digit for `d`. */
  function DigitChar(d: nat): char
    requires d < 10
  {
    ('0' as int + d) as char
  }

  /** `String(n)` for a natural number: its decimal digits, most significant first. */
  function NatToString(n: nat): (s: string)
    ensures s != [] && AllDigits(s)
    ensures DigitsValue(s) == n
  {
    if n < 10 then [DigitChar(n)]
    else
      var s := NatToString(n / 10) + [DigitChar(n % 10)];
      assert s[..|s| - 1] == NatToString(n / 10);
      s
  }

  /** `String(i)` for an integer. */
  function IntToString(i: int): string {
    if i < 0 then "-" + NatToString(-i) else NatToString(i)
  }

  /** A separator that does not occur in `s` leaves it whole. */
  lemma BeforeFirstAbsent(s: string, sep: char)
    requires sep !in s
    ensures BeforeFirst(s, sep) == s
  {
  }

  /** A non-empty run of digits reads as the number it spells. */
  lemma ParseDigits(s: string)
    requires s != [] && AllDigits(s)
    ensures ParseUnsigned(s) == Finite(DigitsValue(s) as real)
  {
    ParseWithoutExponent(s);
    BeforeFirstAbsent(s, '.');
  }

  /** The digits after the point count in tenths, hundredths and so on:
      `w.f` is `w` plus `f` over ten to the number of digits of `f`. */
  lemma DecimalValueIsFraction(w: string, f: string)
    requires AllDigits(w) && AllDigits(f)
    ensures DecimalValue(w, f) == DigitsValue(w) as real + DigitsValue(f) as real / Pow10(|f|)
  {
    ShiftIsPower(DigitsValue(f) as real, -|f|);
  }

  /** A literal with a fraction, `w.f`, reads as its decimal value. */
  lemma ParseDecimal(w: string, f: string)
    requires AllDigits(w) && AllDigits(f) && |w| + |f| > 0
    ensures ParseUnsigned(w + "." + f) == Finite(DecimalValue(w, f))
  {
    var s := w + "." + f;
    forall i | 0 <= i < |s|
      ensures s[i] != 'e' && s[i] != 'E'
    {
      if i < |w| {
        assert s[i] == w[i];
      } else if i > |w| {
        assert s[i] == f[i - |w| - 1];
      }
    }
    ParseWithoutExponent(s);
    MantissaDecimal(w, f);
  }

  /** The mantissa `w.f` is the whole part plus the fraction shifted past the point. */
  lemma MantissaDecimal(w: string, f: string)
    requires AllDigits(w) && AllDigits(f) && |w| + |f| > 0
    ensures ParseMantissa(w + "." + f) == Some(DecimalValue(w, f))
  {
    var s := w + "." + f;
    assert '.' !in w by {
      forall i | 0 <= i < |w|
        ensures w[i] != '.'
      {
        assert IsDigit(w[i]);
      }
    }
    BeforeFirstAt(w, '.', f);
    var whole := BeforeFirst(s, '.');
    assert whole == w;
    assert |whole| < |s| && s[|whole| + 1..] == f;
  }

  /** The empty literal has no digit. */
  lemma ParseUnsignedEmpty()
    ensures ParseUnsigned([]).NaN?
  {
    ParseWithoutExponent([]);
  }

  /** A trimmed literal without a sign reads as the unsigned literal it is. */
  lemma UnsignedLiteral(t: string)
    requires IsTrimmed(t) && t != [] && t[0] != '-' && t[0] != '+'
    ensures StringToNumber(t) == ParseUnsigned(t)
  {
    TrimOfTrimmed(t);
  }

  /** An exponent `e` or `E` after a mantissa scales the mantissa's value by
      that power of ten. */
  lemma ParseScientific(m: string, x: string)
    requires 'e' !in m && 'E' !in m
    requires ParseUnsigned(m).Finite? && ParseExponent(x).Some?
    ensures ParseUnsigned(m + "e" + x) == Finite(Shift(ParseUnsigned(m).r, ParseExponent(x).value))
  {
    var s := m + "e" + x;
    BeforeFirstAt(m, 'e', x);
    BeforeFirstAbsent(m, 'E');
    ParseWithoutExponent(m);
    assert s[|m| + 1..] == x;
  }

  /** A sign in front of an unsigned literal: `-` negates it and `+` keeps it. */
  lemma SignedLiteral(t: string)
    requires IsTrimmed(t) && ParseUnsigned(t).Finite?
    ensures StringToNumber("-" + t) == Finite(-ParseUnsigned(t).r)
    ensures StringToNumber("+" + t) == ParseUnsigned(t)
  {
    ParseUnsignedEmpty();
    var minus := "-" + t;
    var plus := "+" + t;
    assert minus[|minus| - 1] == t[|t| - 1] && plus[|plus| - 1] == t[|t| - 1];
    TrimOfTrimmed(minus);
    TrimOfTrimmed(plus);
    SignedMantissa(t);
  }

  /** The sign rule on a trimmed literal. */
  lemma SignedMantissa(t: string)
    requires ParseUnsigned(t).Finite?
    ensures ParseSigned("-" + t) == Finite(-ParseUnsigned(t).r)
    ensures ParseSigned("+" + t) == ParseUnsigned(t)
  {
    assert ("-" + t)[1..] == t && ("+" + t)[1..] == t;
  }

  /** White space around a literal does not change the number it reads as. */
  lemma StringToNumberFramed(a: string, t: string, b: string)
    requires AllWhiteSpace(a) && IsTrimmed(t) && AllWhiteSpace(b)
    ensures StringToNumber(a + t + b) == StringToNumber(t)
  {
    TrimFramed(a, t, b);
    TrimOfTrimmed(t);
  }

  /** `Number("3.6")` is 3.6: a literal with a fraction. */
  lemma FractionExample(m: string)
    requires m == "3.6"
    ensures StringToNumber(m) == Finite(3.6)
  {
    assert "3" + "." + "6" == m;
    assert DigitsValue("3") == 3 && DigitsValue("6") == 6;
    assert Shift(6.0, -1) == Shift(6.0, 0) / 10.0 == 0.6;
    assert DecimalValue("3", "6") == 3.6;
    ParseDecimal("3", "6");
    assert IsTrimmed(m) && m[0] == '3';
    UnsignedLiteral(m);
  }

  /** `2.5` reads as 2.5. */
  lemma HalfExample(m: string)
    requires m == "2.5"
    ensures ParseUnsigned(m) == Finite(2.5)
  {
    assert "2" + "." + "5" == m;
    assert DigitsValue("2") == 2 && DigitsValue("5") == 5;
    assert Shift(5.0, -1) == Shift(5.0, 0) / 10.0 == 0.5;
    assert DecimalValue("2", "5") == 2.5;
    ParseDecimal("2", "5");
  }

  /** `2.5e1` is 25: a fraction scaled by an exponent. */
  lemma ScientificExample(t: string)
    requires t == "2.5e1"
    ensures ParseUnsigned(t) == Finite(25.0)
  {
    var m, x := "2.5", "1";
    assert m + "e" + x == t;
    assert 'e' !in m && 'E' !in m;
    HalfExample(m);
    assert ParseExponent(x) == Some(1);
    ParseScientific(m, x);
    assert Shift(2.5, 1) == 10.0 * Shift(2.5, 0) == 25.0;
  }

  /** `Number(" -2.5e1 ")` is -25: white space, a sign, a fraction and an exponent. */
  lemma ExponentExample(s: string)
    requires s == " -2.5e1 "
    ensures StringToNumber(s) == Finite(-25.0)
  {
    var signed := "-2.5e1";
    assert [' '] + signed + [' '] == s;
    assert IsTrimmed(signed);
    MinusExample(signed);
    StringToNumberFramed([' '], signed, [' ']);
  }

  /** `Number("-2.5e1")` is -25: the sign negates the unsigned literal. */
  lemma MinusExample(u: string)
    requires u == "-2.5e1"
    ensures StringToNumber(u) == Finite(-25.0)
  {
    var t := "2.5e1";
    assert "-" + t == u;
    assert IsTrimmed(t);
    ScientificExample(t);
    SignedLiteral(t);
  }

  /** `Number(String(i)) === i`: rendering an integer and converting it back is the identity. */
  lemma {:induction false} IntStringRoundTrip(i: int)
    ensures StringToNumber(IntToString(i)) == Finite(i as real)
  {
    var digits := NatToString(if i < 0 then -i else i);
    ParseDigits(digits);
    DigitsAreTrimmed(digits);
    if i < 0 {
      assert IntToString(i) == "-" + digits;
      SignedLiteral(digits);
    } else {
      assert IntToString(i) == digits;
      UnsignedLiteral(digits);
    }
  }

  /** A run of digits has neither white space nor a sign at its ends. */
  lemma DigitsAreTrimmed(s: string)
    requires s != [] && AllDigits(s)
    ensures IsTrimmed(s) && s[0] != '-' && s[0] != '+'
  {
    assert IsDigit(s[0]) && IsDigit(s[|s| - 1]);
  }

  /** The characters a decimal literal can hold: digits, the point, the
      exponent marks and the signs. */
  predicate LiteralChar(c: char) {
    IsDigit(c) || c == '.' || c == 'e' || c == 'E' || c == '+' || c == '-'
  }

  /** An exponent holding a character no literal has does not parse. */
  lemma ExponentNaN(x: string, k: int)
    requires 0 <= k < |x| && !LiteralChar(x[k])
    ensures ParseExponent(x).None?
  {
    if x[0] == '+' || x[0] == '-' {
      assert x[1..][k - 1] == x[k];
    }
  }

  /** A mantissa holding a character other than a digit or the point does not parse. */
  lemma MantissaNaN(m: string, j: int)
    requires 0 <= j < |m| && !IsDigit(m[j]) && m[j] != '.'
    ensures ParseMantissa(m).None?
  {
    var whole := BeforeFirst(m, '.');
    if j < |whole| {
      assert whole[j] == m[j];
    } else {
      assert m[|whole| + 1..][j - |whole| - 1] == m[j];
    }
  }

  /** An unsigned literal holding a character no literal has reads as NaN. */
  lemma UnsignedNaN(u: string, j: int)
    requires 0 <= j < |u| && !LiteralChar(u[j])
    ensures ParseUnsigned(u).NaN?
  {
    var p := BeforeFirst(u, 'e');
    var mantissa := BeforeFirst(p, 'E');
    if j < |mantissa| {
      assert mantissa[j] == p[j] == u[j];
      MantissaNaN(mantissa, j);
    } else {
      if |mantissa| < |p| {
        assert p[|mantissa|] == u[|mantissa|];
      }
      assert u[|mantissa|] == 'e' || u[|mantissa|] == 'E';
      assert u[|mantissa| + 1..][j - |mantissa| - 1] == u[j];
      ExponentNaN(u[|mantissa| + 1..], j - |mantissa| - 1);
    }
  }

  /** `Number(s)` is NaN as soon as the trimmed string holds a character that
      no decimal literal has, such as a letter other than `e` or `E`. */
  lemma NonLiteralIsNaN(s: string, i: int)
    requires 0 <= i < |Trim(s)| && !LiteralChar(Trim(s)[i])
    ensures StringToNumber(s).NaN?
  {
    var t := Trim(s);
    if t[0] == '-' || t[0] == '+' {
      assert t[1..][i - 1] == t[i];
      UnsignedNaN(t[1..], i - 1);
    } else {
      UnsignedNaN(t, i);
    }
  }

  /** A word is not a number, so `Number(x) || 0` turns it into 0. */
  lemma WordIsZero(w: string)
    requires w == "abc"
    ensures StringToNumber(w).NaN? && NumberOrZero(Str(w)) == 0.0
  {
    assert !IsWhiteSpace(w[0]) && !IsWhiteSpace(w[|w| - 1]);
    TrimOfTrimmed(w);
    NonLiteralIsNaN(w, 0);
  }

  /** Loose equality is symmetric. */
  lemma LooseEqualsSymmetric(x: Value, y: Value)
    ensures LooseEquals(x, y) == LooseEquals(y, x)
  {
  }

  /** A number is loosely equal to its decimal rendering, the way a numeric id
      stored by one request matches the string route parameter of another. */
  lemma NumberMatchesItsString(i: int)
    ensures LooseEquals(Num(i as real), Str(IntToString(i)))
    ensures LooseEquals(Str(IntToString(i)), Num(i as real))
  {
    IntStringRoundTrip(i);
  }

  /** A leading zero does not change the number a string converts to. */
  lemma LeadingZeroIgnored(z: string)
    requires z == "01"
    ensures StringToNumber(z) == Finite(1.0)
  {
    assert AllDigits(z);
    ParseDigits(z);
    assert z[..1] == "0";
    assert DigitsValue(z) == 1;
    DigitsAreTrimmed(z);
    UnsignedLiteral(z);
  }

  /** Loose equality is not transitive: `"1" == 1` and `1 == "01"` but `"1" != "01"`. */
  lemma LooseEqualsNotTransitive()
    ensures LooseEquals(Str("1"), Num(1.0)) && LooseEquals(Num(1.0), Str("01"))
    ensures !LooseEquals(Str("1"), Str("01"))
  {
    NumberMatchesItsString(1);
    assert IntToString(1) == "1";
    LeadingZeroIgnored("01");
    assert "1" != "01";
  }

  /** `Number(x) || 0` keeps every non-zero number, negative ones included. */
  lemma NumberOrZeroKeepsNumbers(r: real)
    ensures NumberOrZero(Num(r)) == r
  {
  }

  /** A numeric string converts to its value; a missing field to zero. */
  lemma NumberOrZeroOfIntString(i: int)
    ensures NumberOrZero(Str(IntToString(i))) == i as real
    ensures NumberOrZero(Undefined) == 0.0
  {
    IntStringRoundTrip(i);
  }
}
