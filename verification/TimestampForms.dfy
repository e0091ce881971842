/**
 The forms of a timestamp in literal characters, and what the lenient reader does
 with fractions, zones and blanks.
 */
module TimestampForms {
  import opened Clock
  import opened Decimal
  import opened Timestamps
  import opened Unicode
  import opened Utf8
  import opened Wrappers

  // ---- printed forms ------------------------------------------------------

  lemma {:induction false} TwoDigits(a: nat, b: nat)
    requires a < 10 && b < 10
    ensures Pad2(10 * a + b) == [DigitChar(a), DigitChar(b)]
  {
    assert NatText(a) == [DigitChar(a)];
    assert (10 * a + b) / 10 == a && (10 * a + b) % 10 == b;
    assert PadNat(a, 1) == NatText(a);
  }

  lemma {:induction false} FourDigits(a: nat, b: nat, c: nat, d: nat)
    requires a < 10 && b < 10 && c < 10 && d < 10
    ensures PadInt(1000 * a + 100 * b + 10 * c + d, 4) == [DigitChar(a), DigitChar(b), DigitChar(c), DigitChar(d)]
  {
    var n := 1000 * a + 100 * b + 10 * c + d;
    TwoDigits(a, b);
    PadLast(10 * a + b, c, 3);
    PadLast(100 * a + 10 * b + c, d, 4);
    hide PadNat;
    assert [DigitChar(a), DigitChar(b)] + [DigitChar(c)] + [DigitChar(d)] ==
      [DigitChar(a), DigitChar(b), DigitChar(c), DigitChar(d)];
  }

  lemma {:induction false} PadLast(n: nat, d: nat, w: nat)
    requires d < 10 && w >= 2
    ensures PadNat(10 * n + d, w) == PadNat(n, w - 1) + [DigitChar(d)]
  {
    assert (10 * n + d) / 10 == n && (10 * n + d) % 10 == d;
  }

  /** The text of a timestamp in two halves, from the texts of its fields. */
  lemma {:induction false} Halved(f: Fields, y: string, m: string, d: string, h: string, n: string, c: string)
    requires PadInt(f.date.year, 4) == y && Pad2(f.date.month) == m && Pad2(f.date.day) == d
    requires Pad2(f.hour) == h && Pad2(f.minute) == n && Pad2(f.second) == c
    ensures FieldsText(f) == (y + "-" + m + "-" + d + "T") + (h + ":" + n + ":" + c + "Z")
  {
    assert FieldsText(f) == y + "-" + m + "-" + d + "T" + h + ":" + n + ":" + c + "Z";
    hide FieldsText, PadInt, Pad2;
    Regroup(y + "-" + m + "-" + d + "T", h, n, c);
  }

  lemma {:induction false} Regroup(date: string, h: string, n: string, c: string)
    ensures date + h + ":" + n + ":" + c + "Z" == date + (h + ":" + n + ":" + c + "Z")
  {
  }

  lemma {:induction false} EpochFields()
    ensures FieldsOf(0) == Fields(Date(1970, 1, 1), 0, 0, 0)
  {
    EpochIsDayZero();
    hide CivilFromDays;
  }

  lemma {:induction false} LeapDayFields()
    ensures FieldsOf(951827696) == Fields(Date(2000, 2, 29), 12, 34, 56)
  {
    LeapDay();
    hide CivilFromDays;
    assert 951827696 % 86400 == 45296 && Quot(951827696 - 45296, 86400) == 11016;
  }

  lemma {:induction false} LeapDay()
    ensures CivilFromDays(11016) == Date(2000, 2, 29)
  {
    CivilOfDays(Date(2000, 2, 29));
    DaysClosedForm(Date(2000, 2, 29));
    hide CivilFromDays, DaysFromCivil;
    assert MonthStart(11) == 337 && MarchStart(1999) == 730119;
  }

  /** The epoch, in its date and its time of day. */
  lemma {:induction false} EpochText()
    ensures Iso8601(0.0) == "1970-01-01T" + "00:00:00Z"
  {
    hide PadInt, Pad2, FieldsText, FieldsOf;
    EpochFields();
    FourDigits(1, 9, 7, 0);
    TwoDigits(0, 1);
    TwoDigits(0, 0);
    Halved(Fields(Date(1970, 1, 1), 0, 0, 0), "1970", "01", "01", "00", "00", "00");
    assert "1970" + "-" + "01" + "-" + "01" + "T" == "1970-01-01T";
    assert "00" + ":" + "00" + ":" + "00" + "Z" == "00:00:00Z";
  }

  /** A leap day, with every field of the time different. */
  lemma {:induction false} LeapDayText()
    ensures Iso8601(951827696.0) == "2000-02-29T" + "12:34:56Z"
  {
    hide PadInt, Pad2, FieldsText, FieldsOf;
    LeapDayFields();
    FourDigits(2, 0, 0, 0);
    TwoDigits(0, 2);
    TwoDigits(2, 9);
    TwoDigits(1, 2);
    TwoDigits(3, 4);
    TwoDigits(5, 6);
    Halved(Fields(Date(2000, 2, 29), 12, 34, 56), "2000", "02", "29", "12", "34", "56");
    assert "2000" + "-" + "02" + "-" + "29" + "T" == "2000-02-29T";
    assert "12" + ":" + "34" + ":" + "56" + "Z" == "12:34:56Z";
  }

  // ---- fractions, zones and blanks ----------------------------------------

  lemma {:induction false} EncodeConcat(a: string, b: string)
    ensures Encode(a + b) == Encode(a) + Encode(b)
  {
    if a == "" {
      assert a + b == b;
    } else {
      assert (a + b)[1..] == a[1..] + b;
      EncodeConcat(a[1..], b);
    }
  }

  lemma {:induction false} DigitsPlain(digits: string)
    requires Digits(digits)
    ensures Plain(digits)
  {
  }

  lemma {:induction false} OneMore(bytes: seq<Byte>, rest: seq<Byte>, c: char)
    requires Digit(c) && bytes == [c as int] + rest
    ensures FractionDigits(bytes) == ((c as int - '0' as int) as real + FractionDigits(rest)) / 10.0
  {
    assert bytes[1..] == rest;
  }

  lemma {:induction false} EncodeDigit(c: char, text: string)
    requires Digit(c)
    ensures Encode([c] + text) == [c as int] + Encode(text)
  {
    assert ([c] + text)[1..] == text;
    hide Encode;
    assert Encode([c] + text) == EncodeChar(c) + Encode(text);
  }

  lemma {:induction false} LeadingDigit(c: char, rest: string)
    requires Digit(c) && Digits(rest)
    ensures Digits([c] + rest)
    ensures DigitsValue([c] + rest) == (c as int - '0' as int) * Power10(|rest|) + DigitsValue(rest)
  {
    assert [c][..0] == "" && DigitsValue([c]) == c as int - '0' as int;
    DigitsJoin([c], rest);
  }

  /** `x` is `v` divided by ten `k` times. */
  predicate Scaled(x: real, k: nat, v: int) {
    x * Power10(k) as real == v as real
  }

  /** The digits after the point, in integers. */
  lemma {:induction false} FractionIs(digits: string, zone: string)
    requires Digits(digits) && (zone == "" || !Digit(zone[0]))
    ensures Scaled(FractionDigits(Encode(digits + zone)), |digits|, DigitsValue(digits))
    decreases |digits|
  {
    if digits == "" {
      assert digits + zone == zone;
      NoDigit(zone);
    } else {
      var c, rest := digits[0], digits[1..];
      assert digits == [c] + rest && digits + zone == [c] + (rest + zone);
      FractionIs(rest, zone);
      LeadingDigit(c, rest);
      EncodeDigit(c, rest + zone);
      hide Encode, DigitsValue, FractionDigits, Scaled;
      OneMore(Encode(digits + zone), Encode(rest + zone), c);
      Shifted(c as int - '0' as int, FractionDigits(Encode(rest + zone)), |rest|, DigitsValue(rest));
    }
  }

  lemma {:induction false} NoDigit(zone: string)
    requires zone == "" || !Digit(zone[0])
    ensures FractionDigits(Encode(zone)) == 0.0
  {
    if zone != "" {
      FirstChar(zone);
    }
  }

  lemma {:induction false} Shifted(d: int, x: real, k: nat, v: int)
    requires Scaled(x, k, v)
    ensures Scaled((d as real + x) / 10.0, k + 1, d * Power10(k) + v)
  {
    var p := Power10(k);
    assert Power10(k + 1) == 10 * p;
    hide Power10;
    assert (d as real + x) / 10.0 * (10.0 * p as real) == d as real * p as real + x * p as real;
  }

  /** Everything after the seconds. */
  predicate Ending(rest: string) {
    rest != "" && !Whitespace(rest[|rest| - 1])
  }

  /** What the reader asks of the bytes of a text. */
  predicate Carries(bytes: seq<Byte>, f: Fields) {
    |bytes| >= 20 && bytes[4] == '-' as int && bytes[7] == '-' as int && bytes[10] == 'T' as int &&
    NumberAt(bytes, 0, 4) == Some(f.date.year) && NumberAt(bytes, 5, 7) == Some(f.date.month) &&
    NumberAt(bytes, 8, 10) == Some(f.date.day) && NumberAt(bytes, 11, 13) == Some(f.hour) &&
    NumberAt(bytes, 14, 16) == Some(f.minute) && NumberAt(bytes, 17, 19) == Some(f.second)
  }

  lemma {:induction false} PrintedCarries(f: Fields)
    requires Sound(f) && -999 <= f.date.year <= 9999
    ensures var s := FieldsText(f);
      |s| == 20 && Plain(s) && Ascii(s) && Carries(AsciiBytes(s), f)
  {
    FieldsRead(f, FieldsText(f));
    PlainBytes(FieldsText(f));
    hide FieldsText, NumberAt, Plain;
  }

  /** The last byte is not asked for. */
  lemma {:induction false} CarriesOn(bytes: seq<Byte>, all: seq<Byte>, f: Fields)
    requires Carries(bytes, f) && |all| >= 20 && all[..19] == bytes[..19]
    ensures Carries(all, f)
  {
    assert forall i :: 0 <= i < 19 ==> all[i] == all[..19][i] == bytes[i];
    SameNumber(bytes, all, 0, 4);
    SameNumber(bytes, all, 5, 7);
    SameNumber(bytes, all, 8, 10);
    SameNumber(bytes, all, 11, 13);
    SameNumber(bytes, all, 14, 16);
    SameNumber(bytes, all, 17, 19);
    hide NumberAt;
  }

  lemma {:induction false} CarriedRead(text: string, f: Fields)
    requires Carries(Encode(Trim(text)), f)
    ensures ParseIso8601(text) == Some(SecondsOf(f) as real + Fraction(Encode(Trim(text))[19..]))
  {
    var bytes := Encode(Trim(text));
    hide NumberAt, Encode, Trim, Fraction;
    assert Date(f.date.year, f.date.month, f.date.day) == f.date;
    assert ReadText(text) == Some(Reading(f.date, f.hour * 3600 + f.minute * 60 + f.second, Fraction(bytes[19..])));
    SumOfReading(f, Fraction(bytes[19..]));
    hide ReadText, SecondsOf;
  }

  /** The first nineteen characters are read as the fields, whatever comes after them and around them. */
  lemma {:induction false} FieldsThen(f: Fields, rest: string, a: string, b: string)
    requires Sound(f) && -999 <= f.date.year <= 9999 && Ending(rest) && Blank(a) && Blank(b)
    ensures |FieldsText(f)| == 20
    ensures ParseIso8601(a + ((FieldsText(f)[..19] + rest) + b)) == Some(SecondsOf(f) as real + Fraction(Encode(rest)))
  {
    hide *;
    PrintedCarries(f);
    var text := a + ((FieldsText(f)[..19] + rest) + b);
    TextCarries(f, FieldsText(f), rest, text, a, b);
    CarriedRead(text, f);
  }

  lemma {:induction false} TextCarries(f: Fields, s: string, rest: string, text: string, a: string, b: string)
    requires |s| == 20 && Plain(s) && Ascii(s) && Carries(AsciiBytes(s), f)
    requires Ending(rest) && Blank(a) && Blank(b) && text == a + ((s[..19] + rest) + b)
    ensures Carries(Encode(Trim(text)), f) && Encode(Trim(text))[19..] == Encode(rest)
  {
    Trimmed(s, rest, a, b);
    CoreBytes(s, rest);
    hide Encode, Trim, Carries, Plain, Blank;
    CarriesOn(AsciiBytes(s), Encode(s[..19] + rest), f);
  }

  lemma {:induction false} Trimmed(s: string, rest: string, a: string, b: string)
    requires |s| == 20 && Plain(s) && Ending(rest) && Blank(a) && Blank(b)
    ensures Trim(a + ((s[..19] + rest) + b)) == s[..19] + rest
  {
    var text := s[..19] + rest;
    FirstIsTight(s);
    assert text[0] == s[0] && text[|text| - 1] == rest[|rest| - 1];
    TrimIs(a, text, b);
  }

  lemma {:induction false} CoreBytes(s: string, rest: string)
    requires |s| == 20 && Plain(s) && Ascii(s) && rest != ""
    ensures var all := Encode(s[..19] + rest);
      |all| >= 20 && all[..19] == AsciiBytes(s)[..19] && all[19..] == Encode(rest)
  {
    var core := s[..19];
    assert Plain(core);
    PlainAscii(core);
    EncodeConcat(core, rest);
    assert Encode(rest) != [];
    hide Encode, Plain;
  }

  lemma {:induction false} FirstIsTight(s: string)
    requires Plain(s) && s != ""
    ensures !Whitespace(s[0])
  {
  }

  lemma {:induction false} SameNumber(a: seq<Byte>, b: seq<Byte>, from: nat, to: nat)
    requires from <= to <= |a| && to <= |b| && forall i :: from <= i < to ==> a[i] == b[i]
    ensures NumberAt(a, from, to) == NumberAt(b, from, to)
  {
    assert a[from..to] == b[from..to];
  }

  lemma {:induction false} SumOfReading(f: Fields, x: real)
    ensures DaysFromCivil(f.date) as real * 86400.0 + (f.hour * 3600 + f.minute * 60 + f.second) as real + x ==
      SecondsOf(f) as real + x
  {
    WholeSeconds(DaysFromCivil(f.date), f.hour * 3600 + f.minute * 60 + f.second);
    hide DaysFromCivil;
  }

  /**
   Digits after a point count as a decimal fraction of a second; a zone is not
   looked at, whatever it says, and blanks around the text are not either.
   */
  lemma {:induction false} FractionReads(f: Fields, digits: string, zone: string, a: string, b: string)
    requires Sound(f) && -999 <= f.date.year <= 9999 && Digits(digits) && Blank(a) && Blank(b)
    requires zone == "" || (!Digit(zone[0]) && !Whitespace(zone[|zone| - 1]))
    ensures |FieldsText(f)| == 20
    ensures var x := ParseIso8601(a + ((FieldsText(f)[..19] + ("." + (digits + zone))) + b));
      x.Some? && Scaled(x.value - SecondsOf(f) as real, |digits|, DigitsValue(digits))
  {
    hide FieldsText, ParseIso8601, SecondsOf, DigitsValue, FractionDigits, Scaled;
    EndsWell(digits, zone);
    FieldsThen(f, "." + (digits + zone), a, b);
    FractionIs(digits, zone);
    PointFirst(digits + zone);
  }

  lemma {:induction false} EndsWell(digits: string, zone: string)
    requires Digits(digits) && (zone == "" || !Whitespace(zone[|zone| - 1]))
    ensures Ending("." + (digits + zone))
  {
    var rest := "." + (digits + zone);
    if zone != "" {
      assert rest[|rest| - 1] == zone[|zone| - 1];
    } else if digits != "" {
      assert rest[|rest| - 1] == digits[|digits| - 1] && Digit(digits[|digits| - 1]);
    }
  }

  lemma {:induction false} PointFirst(more: string)
    ensures Fraction(Encode("." + more)) == FractionDigits(Encode(more))
  {
    assert ("." + more)[1..] == more && ("." + more)[0] == '.';
    assert Encode("." + more) == EncodeChar('.') + Encode(more) && EncodeChar('.') == ['.' as int];
    hide Encode;
  }

  /** Without a point the seconds are whole, whatever follows them. */
  lemma {:induction false} ZoneIgnored(f: Fields, zone: string, a: string, b: string)
    requires Sound(f) && -999 <= f.date.year <= 9999 && Blank(a) && Blank(b)
    requires zone != "" && zone[0] != '.' && !Whitespace(zone[|zone| - 1])
    ensures |FieldsText(f)| == 20
    ensures ParseIso8601(a + ((FieldsText(f)[..19] + zone) + b)) == Some(SecondsOf(f) as real)
  {
    FieldsThen(f, zone, a, b);
    FirstChar(zone);
    assert EncodeChar(zone[0])[0] != '.' as int;
    hide FieldsText, ParseIso8601, SecondsOf, Encode, EncodeChar;
    assert Fraction(Encode(zone)) == 0.0;
  }

  /** A field may carry a sign of either kind. */
  lemma {:induction false} SignedField(digits: string)
    requires Digits(digits) && digits != ""
    ensures ParseInt(digits) == Some(DigitsValue(digits)) && ParseInt("+" + digits) == Some(DigitsValue(digits))
    ensures ParseInt("-" + digits) == Some(-(DigitsValue(digits) as int))
  {
    assert ("+" + digits)[1..] == digits && ("-" + digits)[1..] == digits && Digit(digits[0]);
    hide DigitsValue;
  }

  // ---- fields that no calendar has ----------------------------------------

  /** Six numbers as they stand in a text: the year with four characters, the others with two. */
  predicate Numbers(y: string, m: string, d: string, h: string, n: string, c: string) {
    |y| == 4 && |m| == |d| == |h| == |n| == |c| == 2 && Digits(y) && Digits(m) && Digits(d) && Digits(h) && Digits(n) &&
    Digits(c)
  }

  lemma {:induction false} DateFields(y: string, m: string, d: string)
    requires |y| == 4 && |m| == |d| == 2 && Digits(y) && Digits(m) && Digits(d)
    ensures var s := y + "-" + m + "-" + d + "T";
      |s| == 11 && Ascii(s) && s[0..4] == y && s[4] == '-' && s[5..7] == m && s[7] == '-' && s[8..10] == d &&
      s[10] == 'T'
  {
    DigitsPlain(y);
    DigitsPlain(m);
    DigitsPlain(d);
    DateLayout(y, m, d);
    PlainAscii(y + "-" + m + "-" + d + "T");
    hide Plain;
  }

  lemma {:induction false} TimeFields(h: string, p: char, n: string, q: char, c: string)
    requires |h| == |n| == |c| == 2 && Digits(h) && Digits(n) && Digits(c) && p as int < 0x80 && q as int < 0x80
    ensures var s := h + [p] + n + [q] + c;
      |s| == 8 && Ascii(s) && s[0..2] == h && s[3..5] == n && s[6..8] == c
  {
    var s := h + [p] + n + [q] + c;
    assert forall i :: 0 <= i < 2 ==> Digit(h[i]) && Digit(n[i]) && Digit(c[i]);
    assert s[0] == h[0] && s[1] == h[1] && s[3] == n[0] && s[4] == n[1] && s[6] == c[0] && s[7] == c[1];
  }

  lemma {:induction false} AsciiIsBytes(s: string)
    requires Ascii(s)
    ensures Encode(s) == AsciiBytes(s)
  {
    if s != "" {
      AsciiIsBytes(s[1..]);
      assert AsciiBytes(s) == [s[0] as int] + AsciiBytes(s[1..]);
    }
  }

  lemma {:induction false} DigitsAt(s: string, from: nat, to: nat, digits: string)
    requires Ascii(s) && from <= to <= |s| && s[from..to] == digits && Digits(digits) && digits != ""
    ensures NumberAt(AsciiBytes(s), from, to) == Some(DigitsValue(digits))
  {
    assert AsciiBytes(s)[from..to] == AsciiBytes(digits);
    assert Ascii(digits);
    AsciiIsBytes(digits);
    DecodeInvertsEncode(digits);
    SignedField(digits);
    hide Encode, Decode, DigitsValue;
  }

  /** The numbers as fields, whether or not there is such a date or time. */
  function FieldsFrom(y: string, m: string, d: string, h: string, n: string, c: string): Fields
    requires Numbers(y, m, d, h, n, c)
  {
    Fields(Date(DigitsValue(y), DigitsValue(m), DigitsValue(d)), DigitsValue(h), DigitsValue(n), DigitsValue(c))
  }

  /**
   The reader checks neither the separators of the time nor whether there is
   such a month, day, hour, minute or second: it computes with whatever numbers
   stand there.
   */
  lemma {:induction false} ReadsAnyFields(y: string, m: string, d: string, h: string, p: char, n: string, q: char,
                                          c: string, rest: string)
    requires Numbers(y, m, d, h, n, c) && p as int < 0x80 && q as int < 0x80 && Ending(rest) && Ascii(rest)
    ensures var text := (y + "-" + m + "-" + d + "T") + (h + [p] + n + [q] + c) + rest;
      ParseIso8601(text) == Some(SecondsOf(FieldsFrom(y, m, d, h, n, c)) as real + Fraction(Encode(rest)))
  {
    hide Digits, DigitsValue, ParseIso8601, SecondsOf, Fraction, Encode, Trim, Carries, Ending;
    var date, time := y + "-" + m + "-" + d + "T", h + [p] + n + [q] + c;
    DateFields(y, m, d);
    TimeFields(h, p, n, q, c);
    var f, text := FieldsFrom(y, m, d, h, n, c), date + time + rest;
    AnyFieldsCarried(date, time, rest, text, y, m, d, h, n, c);
    CarriedRead(text, f);
  }

  lemma {:induction false} AnyFieldsCarried(date: string, time: string, rest: string, text: string, y: string,
                                            m: string, d: string, h: string, n: string, c: string)
    requires Numbers(y, m, d, h, n, c) && Ending(rest) && Ascii(rest) && |date| == 11 && |time| == 8
    requires Ascii(date) && Ascii(time) && text == date + time + rest
    requires date[0..4] == y && date[4] == '-' && date[5..7] == m && date[7] == '-' && date[8..10] == d
    requires date[10] == 'T' && time[0..2] == h && time[3..5] == n && time[6..8] == c
    ensures Carries(Encode(Trim(text)), FieldsFrom(y, m, d, h, n, c)) && Encode(Trim(text))[19..] == Encode(rest)
  {
    hide Encode, Trim, NumberAt, DigitsValue, Digits, Ending;
    DateSlices(date, time + rest);
    TimeSlices(date, time, rest);
    assert text == date + (time + rest) && Ascii(text) && |rest| >= 1 by {
      assert Ending(rest);
      NotEmpty(rest);
    }
    assert text[4] == date[4] && text[7] == date[7] && text[10] == date[10];
    DigitsAt(text, 0, 4, y);
    DigitsAt(text, 5, 7, m);
    DigitsAt(text, 8, 10, d);
    DigitsAt(text, 11, 13, h);
    DigitsAt(text, 14, 16, n);
    DigitsAt(text, 17, 19, c);
    TightText(text, y, rest);
    AsciiIsBytes(text);
    AsciiIsBytes(rest);
    assert AsciiBytes(text)[19..] == AsciiBytes(rest);
  }

  lemma {:induction false} NotEmpty(rest: string)
    requires Ending(rest)
    ensures rest != ""
  {
  }

  lemma {:induction false} DateSlices(date: string, rest: string)
    requires |date| == 11
    ensures var text := date + rest;
      text[0..4] == date[0..4] && text[5..7] == date[5..7] && text[8..10] == date[8..10]
  {
  }

  lemma {:induction false} TimeSlices(date: string, time: string, rest: string)
    requires |date| == 11 && |time| == 8
    ensures var text := date + time + rest;
      text[11..13] == time[0..2] && text[14..16] == time[3..5] && text[17..19] == time[6..8] && text[19..] == rest
  {
  }

  lemma {:induction false} TightText(text: string, y: string, rest: string)
    requires |y| == 4 && Digits(y) && Ending(rest) && |text| >= |rest| + 4 && text[0..4] == y
    requires text[|text| - |rest|..] == rest
    ensures Trim(text) == text
  {
    assert text[0] == y[0] && Digit(y[0]) && text[|text| - 1] == rest[|rest| - 1];
    TrimIs("", text, "");
    assert "" + (text + "") == text;
  }
}
