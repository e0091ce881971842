/**
 The value of a numeral, against its digits and powers of ten in integers: the
 point shifts by the digits after it, and the exponent by its value.
 */
module JsonNumbers {
  import opened Decimal
  import opened JsonGrammar
  import opened JsonPrinter
  import opened Wrappers

  lemma {:induction false} NextPow10(e: int)
    ensures Pow10(e + 1) == 10.0 * Pow10(e)
  {
  }

  lemma {:induction false} Pow10Shift(e: int, k: nat)
    ensures Pow10(e - k) * Power10(k) as real == Pow10(e)
    decreases k
  {
    if k > 0 {
      Pow10Shift(e, k - 1);
      NextPow10(e - k);
      var x, p := Pow10(e - k), Power10(k - 1);
      assert x * (10 * p) as real == (10.0 * x) * p as real;
    }
  }

  lemma {:induction false} Pow10Is(e: int)
    ensures e >= 0 ==> Pow10(e) == Power10(e) as real
    ensures e <= 0 ==> Pow10(e) * Power10(-e) as real == 1.0
  {
    if e >= 0 {
      Pow10Shift(e, e);
    } else {
      Pow10Shift(0, -e);
    }
  }

  /** A run of digits ends before a character that is none. */
  lemma {:induction false} DigitSpanStops(a: string, rest: string)
    requires Digits(a) && (rest == "" || !Digit(rest[0]))
    ensures DigitSpan(a + rest) == |a|
  {
    if a == "" {
      assert a + rest == rest;
    } else {
      assert (a + rest)[1..] == a[1..] + rest;
      DigitSpanStops(a[1..], rest);
    }
  }

  /** A tail that starts like an exponent, or is none. */
  predicate Stops(tail: string) {
    tail == "" || tail[0] == 'e' || tail[0] == 'E'
  }

  lemma {:induction false} ExponentStops(s: string)
    requires Exponent(s).Some?
    ensures Stops(s)
  {
  }

  /** The parts that the reader finds in a magnitude with a point, and in one without. */
  lemma {:induction false} PointStep(body: string, a: string, t: string, b: string, rest: string, e: int)
    requires Digits(a) && Digits(b) && a + b != "" && Exponent(rest) == Some(e)
    requires DigitSpan(body) == |a| && body[..|a|] == a && body[|a|..] == t
    requires t != "" && t[0] == '.' && DigitSpan(t[1..]) == |b| && t[1..][..|b|] == b && t[1..][|b|..] == rest
    ensures Digits(a + b) && Magnitude(body) == Some(TimesPow10(DigitsValue(a + b), e - |b|))
  {
    var whole := DigitSpan(body);
    var part := DigitSpan(t[1..]);
    assert body[..whole] + t[1..][..part] == a + b;
    hide Exponent, TimesPow10, DigitsValue, DigitSpan;
  }

  lemma {:induction false} PlainStep(body: string, a: string, rest: string, e: int)
    requires Digits(a) && a != "" && Exponent(rest) == Some(e) && Stops(rest)
    requires DigitSpan(body) == |a| && body[..|a|] == a && body[|a|..] == rest
    ensures Magnitude(body) == Some(TimesPow10(DigitsValue(a), e))
  {
    var whole := DigitSpan(body);
    assert body[..whole] + "" == a && !(rest != "" && rest[0] == '.');
    assert whole + 0 == |a| && e - 0 == e;
    hide Exponent, TimesPow10, DigitsValue, DigitSpan;
    assert Magnitude(body).value == TimesPow10(DigitsValue(body[..whole] + ""), e - 0);
  }

  /** A magnitude with a point. */
  lemma {:induction false} PointedIs(a: string, b: string, exponent: string, e: int)
    requires Digits(a) && Digits(b) && a + b != "" && Exponent(exponent) == Some(e)
    ensures Digits(a + b)
    ensures Magnitude(a + ("." + (b + exponent))) == Some(TimesPow10(DigitsValue(a + b), e - |b|))
  {
    ExponentStops(exponent);
    var t := "." + (b + exponent);
    DigitSpanStops(a, t);
    DigitSpanStops(b, exponent);
    assert t[1..] == b + exponent;
    hide Exponent, TimesPow10, DigitsValue, DigitSpan, Digits, Magnitude;
    PointStep(a + t, a, t, b, exponent, e);
  }

  /** A magnitude without one. */
  lemma {:induction false} PlainIs(a: string, exponent: string, e: int)
    requires Digits(a) && a != "" && Exponent(exponent) == Some(e)
    ensures Magnitude(a + exponent) == Some(TimesPow10(DigitsValue(a), e))
  {
    ExponentStops(exponent);
    DigitSpanStops(a, exponent);
    hide Exponent, TimesPow10, DigitsValue, DigitSpan, Digits, Magnitude;
    PlainStep(a + exponent, a, exponent, e);
  }

  /** A sign that is written, or none. */
  predicate Sign(s: string) {
    s == "" || s == "+" || s == "-"
  }

  function SignedValue(sign: string, digits: string): int
    requires Digits(digits)
  {
    if sign == "-" then -(DigitsValue(digits) as int) else DigitsValue(digits)
  }

  /** The spelling of an exponent. */
  predicate ExponentParts(mark: char, sign: string, digits: string) {
    (mark == 'e' || mark == 'E') && Sign(sign) && digits != "" && Digits(digits)
  }

  lemma {:induction false} SignedDigits(digits: string)
    requires Digits(digits) && digits != ""
    ensures Signed(digits) == (false, digits)
    ensures Signed("+" + digits) == (false, digits) && Signed("-" + digits) == (true, digits)
  {
    assert ("+" + digits)[1..] == digits && ("-" + digits)[1..] == digits && Digit(digits[0]);
  }

  lemma {:induction false} ExponentIs(mark: char, sign: string, digits: string)
    requires ExponentParts(mark, sign, digits)
    ensures Exponent([mark] + (sign + digits)) == Some(SignedValue(sign, digits))
  {
    hide DigitsValue, Digits, Signed;
    SignedDigits(digits);
    var s := [mark] + (sign + digits);
    assert s[1..] == sign + digits && "" + digits == digits;
  }

  /** A sign in front of a numeral without one. */
  lemma {:induction false} SignIs(body: string)
    requires body != "" && body[0] != '-' && body[0] != '+'
    ensures Numeral(body) == Magnitude(body) && Numeral("+" + body) == Magnitude(body)
    ensures Magnitude(body).Some? ==> Numeral("-" + body) == Some(-Magnitude(body).value)
  {
    assert ("+" + body)[1..] == body && ("-" + body)[1..] == body;
    assert Signed(body) == (false, body) && Signed("+" + body) == (false, body) && Signed("-" + body) == (true, body);
    hide Magnitude, Signed;
  }

  function Times(x: real, y: real): real {
    x * y
  }

  function Ten(k: nat): real {
    Power10(k) as real
  }

  /** `x` is `digits`, shifted by the exponent and by the number of digits after the point. */
  predicate Scaled(x: real, digits: nat, fraction: nat, e: int) {
    if e >= 0 then Times(x, Ten(fraction)) == Times(digits as real, Ten(e))
    else Times(Times(x, Ten(fraction)), Ten(-e)) == digits as real
  }

  lemma {:induction false} TimesAssociates(x: real, y: real, z: real)
    ensures Times(Times(x, y), z) == Times(x, Times(y, z)) && Times(x, 1.0) == x
  {
  }

  lemma {:induction false} Pow10Times(e: int, fraction: nat)
    ensures Times(Pow10(e - fraction), Ten(fraction)) == Pow10(e)
    ensures e >= 0 ==> Pow10(e) == Ten(e)
    ensures e < 0 ==> Times(Pow10(e), Ten(-e)) == 1.0
  {
    Pow10Shift(e, fraction);
    Pow10Is(e);
    hide Pow10, Power10;
  }

  lemma {:induction false} ScaledIs(digits: nat, fraction: nat, e: int)
    ensures Scaled(TimesPow10(digits, e - fraction), digits, fraction, e)
  {
    var d := digits as real;
    assert TimesPow10(digits, e - fraction) == Times(d, Pow10(e - fraction));
    hide Pow10, Times, Ten, TimesPow10;
    Pow10Times(e, fraction);
    TimesAssociates(d, Pow10(e - fraction), Ten(fraction));
    if e < 0 {
      TimesAssociates(d, Pow10(e), Ten(-e));
    }
  }

  /**
   The value of every numeral with a point and an exponent, in integers: the
   number that all its digits spell, divided by ten once for each digit after
   the point, and multiplied or divided by ten as the exponent says.
   */
  lemma {:induction false} NumeralMeans(a: string, b: string, mark: char, sign: string, digits: string)
    requires Digits(a) && Digits(b) && a + b != "" && ExponentParts(mark, sign, digits)
    ensures Digits(a + b)
    ensures var body := a + ("." + (b + ([mark] + (sign + digits))));
      Numeral(body).Some? && Scaled(Numeral(body).value, DigitsValue(a + b), |b|, SignedValue(sign, digits)) &&
      Numeral("+" + body) == Numeral(body) && Numeral("-" + body) == Some(-Numeral(body).value)
  {
    hide Numeral, Magnitude, Scaled, TimesPow10, DigitsValue, Exponent, SignedValue;
    var exponent, e := [mark] + (sign + digits), SignedValue(sign, digits);
    ExponentIs(mark, sign, digits);
    PointedIs(a, b, exponent, e);
    ScaledIs(DigitsValue(a + b), |b|, e);
    Unsigned(a, "." + (b + exponent));
  }

  /** Digits or a point in front: no sign. */
  lemma {:induction false} Unsigned(a: string, t: string)
    requires Digits(a) && a + t != "" && (a == "" ==> t[0] != '-' && t[0] != '+')
    ensures var body := a + t;
      Numeral(body) == Magnitude(body) && Numeral("+" + body) == Magnitude(body) &&
      (Magnitude(body).Some? ==> Numeral("-" + body) == Some(-Magnitude(body).value))
  {
    hide Numeral, Magnitude;
    assert (a + t)[0] == if a == "" then t[0] else a[0];
    assert a != "" ==> Digit(a[0]);
    SignIs(a + t);
  }

  /** The same without the exponent, without the point, and without either. */
  lemma {:induction false} ShorterNumerals(a: string, b: string, mark: char, sign: string, digits: string)
    requires Digits(a) && Digits(b) && a != "" && ExponentParts(mark, sign, digits)
    ensures Numeral(a) == Some(DigitsValue(a) as real)
    ensures var n := Numeral(a + ("." + b)); n.Some? && Scaled(n.value, DigitsValue(a + b), |b|, 0)
    ensures var n := Numeral(a + ([mark] + (sign + digits)));
      n.Some? && Scaled(n.value, DigitsValue(a), 0, SignedValue(sign, digits))
  {
    hide Numeral, Magnitude, Scaled, TimesPow10, DigitsValue, Exponent, SignedValue;
    UnsignedReads(a);
    PointOnly(a, b);
    var exponent := [mark] + (sign + digits);
    ExponentIs(mark, sign, digits);
    PlainIs(a, exponent, SignedValue(sign, digits));
    Unsigned(a, exponent);
    ScaledIs(DigitsValue(a), 0, SignedValue(sign, digits));
  }

  lemma {:induction false} NoExponent()
    ensures Exponent("") == Some(0)
  {
  }

  lemma {:induction false} PointOnly(a: string, b: string)
    requires Digits(a) && Digits(b) && a + b != ""
    ensures var n := Numeral(a + ("." + b)); n.Some? && Scaled(n.value, DigitsValue(a + b), |b|, 0)
  {
    hide *;
    NoExponent();
    assert b + "" == b;
    PointedIs(a, b, "", 0);
    Unsigned(a, "." + b);
    ScaledIs(DigitsValue(a + b), |b|, 0);
  }

  // ---- which texts are numerals -------------------------------------------

  /** No exponent, or one that is spelled out. */
  ghost predicate ExponentShape(x: string) {
    x == "" || exists mark, sign, digits :: ExponentParts(mark, sign, digits) && x == [mark] + (sign + digits)
  }

  /** Digits, then a point and more digits when there is a point, with a digit somewhere. */
  predicate DigitParts(a: string, point: string, b: string) {
    Digits(a) && Digits(b) && a + b != "" && (point == "." || (point == "" && b == ""))
  }

  ghost predicate MagnitudeShape(body: string) {
    exists a, point, b, x ::
      DigitParts(a, point, b) && ExponentShape(x) && body == a + (point + (b + x))
  }

  lemma {:induction false} ExponentExactly(x: string)
    ensures Exponent(x).Some? <==> ExponentShape(x)
  {
    if Exponent(x).Some? && x != "" {
      var (negative, digits) := Signed(x[1..]);
      var sign := x[1..][..|x| - 1 - |digits|];
      assert x == [x[0]] + (sign + digits);
      assert ExponentParts(x[0], sign, digits);
    }
    if ExponentShape(x) && x != "" {
      var mark, sign, digits :| ExponentParts(mark, sign, digits) && x == [mark] + (sign + digits);
      ExponentIs(mark, sign, digits);
    }
  }

  lemma {:induction false} MagnitudeExactly(body: string)
    ensures Magnitude(body).Some? <==> MagnitudeShape(body)
  {
    if Magnitude(body).Some? {
      MagnitudeHasParts(body);
    }
    if MagnitudeShape(body) {
      var a, point, b, x :| DigitParts(a, point, b) && ExponentShape(x) && body == a + (point + (b + x));
      hide Magnitude, ExponentShape;
      ExponentExactly(x);
      if point == "." {
        PointedIs(a, b, x, Exponent(x).value);
      } else {
        assert "" + (b + x) == x && a + b == a;
        PlainIs(a, x, Exponent(x).value);
      }
    }
  }

  lemma {:induction false} MagnitudeHasParts(body: string)
    requires Magnitude(body).Some?
    ensures MagnitudeShape(body)
  {
    hide DigitsValue, TimesPow10, Exponent, DigitSpan, MagnitudeShape, Digits;
    var n := DigitSpan(body);
    var a, tail := body[..n], body[n..];
    DigitSpanDigits(body);
    assert body == a + tail;
    if tail != "" && tail[0] == '.' {
      var m := DigitSpan(tail[1..]);
      DigitSpanDigits(tail[1..]);
      var b, x := tail[1..][..m], tail[1..][m..];
      assert Exponent(x).Some? && a + b != "";
      HasPoint(body, a, tail, b, x);
    } else {
      assert a + "" == a;
      assert Exponent(tail).Some? && a != "";
      HasNoPoint(body, a, tail);
    }
  }

  lemma {:induction false} DigitSpanDigits(s: string)
    ensures Digits(s[..DigitSpan(s)])
  {
  }

  lemma {:induction false} HasPoint(body: string, a: string, tail: string, b: string, x: string)
    requires body == a + tail && tail != "" && tail[0] == '.' && tail[1..] == b + x
    requires Digits(a) && Digits(b) && a + b != "" && Exponent(x).Some?
    ensures MagnitudeShape(body)
  {
    ExponentExactly(x);
    hide Exponent, ExponentShape;
    assert tail == "." + (b + x) && DigitParts(a, ".", b);
    assert body == a + ("." + (b + x));
  }

  lemma {:induction false} HasNoPoint(body: string, a: string, x: string)
    requires body == a + x && Digits(a) && a != "" && Exponent(x).Some?
    ensures MagnitudeShape(body)
  {
    ExponentExactly(x);
    hide Exponent, ExponentShape;
    assert a + "" == a && "" + ("" + x) == x && DigitParts(a, "", "");
    assert body == a + ("" + ("" + x));
  }

  /** The texts that are numerals, exactly: a sign or none, and a magnitude. */
  lemma {:induction false} NumeralExactly(s: string)
    ensures Numeral(s).Some? <==> exists sign, body :: Sign(sign) && MagnitudeShape(body) && s == sign + body
  {
    hide Magnitude, MagnitudeShape;
    var (negative, body) := Signed(s);
    var sign := s[..|s| - |body|];
    assert s == sign + body && Sign(sign);
    MagnitudeExactly(body);
    if sign', body' :| Sign(sign') && MagnitudeShape(body') && s == sign' + body' {
      MagnitudeExactly(body');
      MagnitudeStart(body');
      assert sign' == "" ==> s == body';
      assert sign' != "" ==> s[1..] == body';
    }
  }

  lemma {:induction false} MagnitudeStart(body: string)
    requires MagnitudeShape(body)
    ensures body != "" && body[0] != '-' && body[0] != '+'
  {
    var a, point, b, x :| DigitParts(a, point, b) && ExponentShape(x) && body == a + (point + (b + x));
    assert a != "" ==> Digit(a[0]);
    assert body[0] == if a != "" then a[0] else point[0];
  }
}
