/**
 The text form of a timestamp: printing, lenient reading, and the order that
 sorting by text relies on (section 5.1 of RFC 3339).
 */
module Timestamps {
  import opened Clock
  import opened Decimal
  import opened Strings
  import opened Unicode
  import opened Utf8
  import opened Wrappers

  /** The fields that are printed, for a whole number of seconds since the epoch. */
  datatype Fields = Fields(date: Date, hour: nat, minute: nat, second: nat)

  function FieldsOf(total: int): (f: Fields)
    ensures f.hour < 24 && f.minute < 60 && f.second < 60
  {
    var secondsOfDay := total % 86400;
    var days := Quot(total - secondsOfDay, 86400);
    Fields(CivilFromDays(days), secondsOfDay / 3600, secondsOfDay % 3600 / 60, secondsOfDay % 60)
  }

  function SecondsOf(f: Fields): int {
    DaysFromCivil(f.date) * 86400 + (f.hour * 3600 + f.minute * 60 + f.second)
  }

  lemma SplitSeconds(s: int)
    requires 0 <= s < 86400
    ensures s / 3600 * 3600 + s % 3600 / 60 * 60 + s % 60 == s
  {
    assert s % 3600 % 60 == s % 60 by {
      assert s == 60 * (60 * (s / 3600)) + s % 3600;
    }
  }

  lemma DayOf(total: int)
    ensures Quot(total - total % 86400, 86400) == total / 86400
  {
    assert total - total % 86400 == 86400 * (total / 86400);
  }

  /** The printed fields determine the second they were made from. */
  lemma FieldsInvert(total: int)
    ensures SecondsOf(FieldsOf(total)) == total
    ensures Valid(FieldsOf(total).date)
  {
    DayOf(total);
    DaysOfCivil(total / 86400);
    SplitSeconds(total % 86400);
    assert total == 86400 * (total / 86400) + total % 86400;
  }

  function Pad2(n: int): string {
    PadInt(n, 2)
  }

  function FieldsText(f: Fields): string {
    PadInt(f.date.year, 4) + "-" + Pad2(f.date.month) + "-" + Pad2(f.date.day) + "T" +
    Pad2(f.hour) + ":" + Pad2(f.minute) + ":" + Pad2(f.second) + "Z"
  }

  /** `iso8601`: the epoch is rounded down to the second. */
  function Iso8601(epoch: real): string {
    FieldsText(FieldsOf(epoch.Floor))
  }

  // ---- reading ------------------------------------------------------------

  /** `str::parse::<i64>` of a short text. */
  function ParseInt(s: string): Option<int> {
    var negative := s != "" && s[0] == '-';
    var digits := if s != "" && (s[0] == '-' || s[0] == '+') then s[1..] else s;
    if digits == "" || !Digits(digits) then None
    else Some(if negative then -(DigitsValue(digits) as int) else DigitsValue(digits))
  }

  function NumberAt(bytes: seq<Byte>, from: nat, to: nat): Option<int>
    requires from <= to <= |bytes|
  {
    match Decode(bytes[from..to])
    case None => None
    case Some(s) => ParseInt(s)
  }

  /** The digits right after a decimal point, as a fraction of a second. */
  function Fraction(bytes: seq<Byte>): real {
    if bytes == [] || bytes[0] != '.' as int then 0.0 else FractionDigits(bytes[1..])
  }

  function FractionDigits(bytes: seq<Byte>): (x: real)
    ensures 0.0 <= x < 1.0
  {
    if bytes == [] || !('0' as int <= bytes[0] <= '9' as int) then 0.0
    else ((bytes[0] - '0' as int) as real + FractionDigits(bytes[1..])) / 10.0
  }

  /** What is read from a text before it is turned into an instant. */
  datatype Reading = Reading(date: Date, seconds: int, fraction: real)

  function ReadText(text: string): Option<Reading> {
    var bytes := Encode(Trim(text));
    if |bytes| < 20 || bytes[4] != '-' as int || bytes[7] != '-' as int || bytes[10] != 'T' as int then None
    else
      match (NumberAt(bytes, 0, 4), NumberAt(bytes, 5, 7), NumberAt(bytes, 8, 10),
             NumberAt(bytes, 11, 13), NumberAt(bytes, 14, 16), NumberAt(bytes, 17, 19))
      case (Some(year), Some(month), Some(day), Some(hour), Some(minute), Some(second)) =>
        Some(Reading(Date(year, month, day), hour * 3600 + minute * 60 + second, Fraction(bytes[19..])))
      case _ => None
  }

  /** `parse_iso8601`. Only three separators are checked and no field is range-checked. */
  function ParseIso8601(text: string): Option<real> {
    match ReadText(text)
    case None => None
    case Some(r) => Some(DaysFromCivil(r.date) as real * 86400.0 + r.seconds as real + r.fraction)
  }

  // ---- the round trip -----------------------------------------------------

  lemma ParsePadded(n: int, w: nat)
    requires w >= 2
    ensures ParseInt(PadInt(n, w)) == Some(n)
  {
    hide DigitsValue, PadNat;
    if n < 0 {
      PadNatValue(-n, w - 1);
      assert ("-" + PadNat(-n, w - 1))[1..] == PadNat(-n, w - 1);
    } else {
      PadNatValue(n, w);
      assert Digit(PadNat(n, w)[0]);
    }
  }

  predicate Plain(s: string) {
    forall i :: 0 <= i < |s| ==> Digit(s[i]) || s[i] in "-:TZ"
  }

  lemma PadIntPlain(n: int, w: nat)
    requires w > 0
    ensures Plain(PadInt(n, w))
  {
  }

  lemma Pad2Width(n: int)
    requires 0 <= n < 100
    ensures |Pad2(n)| == 2
  {
    PadNatWidth(n, 2);
    assert Power10(2) == 10 * Power10(1) && Power10(1) == 10 * Power10(0);
  }

  /** The year takes four characters exactly between -999 and 9999. */
  lemma YearWidth(year: int)
    ensures |PadInt(year, 4)| == 4 <==> -999 <= year <= 9999
    ensures |PadInt(year, 4)| >= 4
    ensures |PadInt(year, 4)| > 4 ==> Digit(PadInt(year, 4)[4])
  {
    assert Power10(3) == 10 * Power10(2) && Power10(2) == 10 * Power10(1) && Power10(1) == 10 * Power10(0);
    assert Power10(4) == 10 * Power10(3);
    if year < 0 {
      PadNatWidth(-year, 3);
    } else {
      PadNatWidth(year, 4);
    }
  }

  /** ASCII text without blanks at its ends is its own trimmed bytes. */
  lemma PlainBytes(s: string)
    requires Plain(s) && s != ""
    ensures Trim(s) == s && Ascii(s) && Encode(s) == AsciiBytes(s)
  {
    PlainAscii(s);
  }

  lemma {:induction false} PlainAscii(s: string)
    requires Plain(s)
    ensures Ascii(s) && Encode(s) == AsciiBytes(s)
  {
    if s != "" {
      PlainAscii(s[1..]);
      assert AsciiBytes(s) == [s[0] as int] + AsciiBytes(s[1..]);
    }
  }

  lemma ReadNumber(s: string, from: nat, to: nat, n: int, w: nat)
    requires Plain(s) && from <= to <= |s| && w >= 2 && s[from..to] == PadInt(n, w)
    ensures NumberAt(AsciiBytes(s), from, to) == Some(n)
  {
    PlainAscii(s);
    var part := s[from..to];
    PlainAscii(part);
    assert AsciiBytes(s)[from..to] == AsciiBytes(part);
    DecodeInvertsEncode(part);
    ParsePadded(n, w);
  }

  /** Where the fields stand in the text, when the year takes four characters. */
  lemma Layout(f: Fields)
    requires Valid(f.date) && f.hour < 24 && f.minute < 60 && f.second < 60
    requires -999 <= f.date.year <= 9999
    ensures var s := FieldsText(f);
      |s| == 20 && Plain(s) &&
      s[0..4] == PadInt(f.date.year, 4) && s[4] == '-' && s[5..7] == Pad2(f.date.month) && s[7] == '-' &&
      s[8..10] == Pad2(f.date.day) && s[10] == 'T' && s[11..13] == Pad2(f.hour) && s[13] == ':' &&
      s[14..16] == Pad2(f.minute) && s[16] == ':' && s[17..19] == Pad2(f.second) && s[19] == 'Z'
  {
    YearWidth(f.date.year);
    Pad2Width(f.date.month);
    Pad2Width(f.date.day);
    Pad2Width(f.hour);
    Pad2Width(f.minute);
    Pad2Width(f.second);
    PadIntPlain(f.date.year, 4);
    PadIntPlain(f.date.month, 2);
    PadIntPlain(f.date.day, 2);
    PadIntPlain(f.hour, 2);
    PadIntPlain(f.minute, 2);
    PadIntPlain(f.second, 2);
    var y, m, d := PadInt(f.date.year, 4), Pad2(f.date.month), Pad2(f.date.day);
    var h, n, c := Pad2(f.hour), Pad2(f.minute), Pad2(f.second);
    assert FieldsText(f) == y + "-" + m + "-" + d + "T" + h + ":" + n + ":" + c + "Z";
    hide FieldsText, PadInt, Pad2;
    DateLayout(y, m, d);
    TimeLayout(h, n, c);
    Halves(y + "-" + m + "-" + d + "T", h, n, c);
  }

  lemma {:induction false} DateLayout(y: string, m: string, d: string)
    requires |y| == 4 && |m| == 2 && |d| == 2 && Plain(y) && Plain(m) && Plain(d)
    ensures var s := y + "-" + m + "-" + d + "T";
      |s| == 11 && Plain(s) && s[0..4] == y && s[4] == '-' && s[5..7] == m && s[7] == '-' && s[8..10] == d &&
      s[10] == 'T'
  {
  }

  lemma {:induction false} TimeLayout(h: string, n: string, c: string)
    requires |h| == 2 && |n| == 2 && |c| == 2 && Plain(h) && Plain(n) && Plain(c)
    ensures var s := h + ":" + n + ":" + c + "Z";
      |s| == 9 && Plain(s) && s[0..2] == h && s[2] == ':' && s[3..5] == n && s[5] == ':' && s[6..8] == c && s[8] == 'Z'
  {
  }

  /** A text of 11 characters followed by the time has the time's parts 11 places further on. */
  lemma {:induction false} Halves(date: string, h: string, n: string, c: string)
    requires |date| == 11 && Plain(date)
    requires var t := h + ":" + n + ":" + c + "Z"; |t| == 9 && Plain(t)
    ensures var t := h + ":" + n + ":" + c + "Z";
      var s := date + h + ":" + n + ":" + c + "Z";
      s == date + t && Plain(s) && |s| == 20 && s[..11] == date && s[11..] == t &&
      (forall i, j :: 0 <= i <= j <= 11 ==> s[i..j] == date[i..j]) &&
      (forall i, j :: 11 <= i <= j <= 20 ==> s[i..j] == t[i - 11..j - 11])
  {
    var t := h + ":" + n + ":" + c + "Z";
    assert date + h + ":" + n + ":" + c + "Z" == date + t;
  }

  lemma FieldsRead(f: Fields, s: string)
    requires Valid(f.date) && f.hour < 24 && f.minute < 60 && f.second < 60
    requires -999 <= f.date.year <= 9999 && s == FieldsText(f)
    ensures Plain(s) && s != ""
    ensures var bytes := AsciiBytes(s);
      |bytes| == 20 && bytes[4] == '-' as int && bytes[7] == '-' as int && bytes[10] == 'T' as int &&
      bytes[19] == 'Z' as int &&
      NumberAt(bytes, 0, 4) == Some(f.date.year) && NumberAt(bytes, 5, 7) == Some(f.date.month) &&
      NumberAt(bytes, 8, 10) == Some(f.date.day) && NumberAt(bytes, 11, 13) == Some(f.hour) &&
      NumberAt(bytes, 14, 16) == Some(f.minute) && NumberAt(bytes, 17, 19) == Some(f.second)
  {
    Layout(f);
    ReadNumber(s, 0, 4, f.date.year, 4);
    ReadNumber(s, 5, 7, f.date.month, 2);
    ReadNumber(s, 8, 10, f.date.day, 2);
    ReadNumber(s, 11, 13, f.hour, 2);
    ReadNumber(s, 14, 16, f.minute, 2);
    ReadNumber(s, 17, 19, f.second, 2);
  }

  lemma Assembled(text: string, bytes: seq<Byte>, f: Fields)
    requires bytes == Encode(Trim(text)) && |bytes| == 20
    requires bytes[4] == '-' as int && bytes[7] == '-' as int && bytes[10] == 'T' as int && bytes[19] == 'Z' as int
    requires NumberAt(bytes, 0, 4) == Some(f.date.year) && NumberAt(bytes, 5, 7) == Some(f.date.month)
    requires NumberAt(bytes, 8, 10) == Some(f.date.day) && NumberAt(bytes, 11, 13) == Some(f.hour)
    requires NumberAt(bytes, 14, 16) == Some(f.minute) && NumberAt(bytes, 17, 19) == Some(f.second)
    ensures ReadText(text) == Some(Reading(f.date, f.hour * 3600 + f.minute * 60 + f.second, 0.0))
  {
    hide NumberAt;
    hide Encode;
    hide Trim;
    assert bytes[19..][0] == 'Z' as int;
    assert Date(f.date.year, f.date.month, f.date.day) == f.date;
  }

  lemma ReadsBack(f: Fields)
    requires Valid(f.date) && f.hour < 24 && f.minute < 60 && f.second < 60
    requires -999 <= f.date.year <= 9999
    ensures ParseIso8601(FieldsText(f)) == Some(SecondsOf(f) as real)
  {
    hide NumberAt;
    hide ReadText;
    hide DaysFromCivil;
    var s := FieldsText(f);
    FieldsRead(f, s);
    PlainBytes(s);
    Assembled(s, AsciiBytes(s), f);
    WholeSeconds(DaysFromCivil(f.date), f.hour * 3600 + f.minute * 60 + f.second);
  }

  lemma WholeSeconds(days: int, seconds: int)
    ensures days as real * 86400.0 + seconds as real + 0.0 == (days * 86400 + seconds) as real
  {
  }

  /** A year of more than four characters puts a digit where the reader wants the hyphen. */
  lemma LongYearRefused(f: Fields)
    requires Valid(f.date) && f.hour < 24 && f.minute < 60 && f.second < 60
    requires !(-999 <= f.date.year <= 9999)
    ensures ParseIso8601(FieldsText(f)) == None
  {
    var s := FieldsText(f);
    YearWidth(f.date.year);
    PadIntPlain(f.date.year, 4);
    PadIntPlain(f.date.month, 2);
    PadIntPlain(f.date.day, 2);
    PadIntPlain(f.hour, 2);
    PadIntPlain(f.minute, 2);
    PadIntPlain(f.second, 2);
    assert s[4] == PadInt(f.date.year, 4)[4];
    PlainBytes(s);
  }

  /** Printing then reading gives the whole second back exactly for years of four characters. */
  lemma Iso8601RoundTrip(epoch: real)
    ensures var year := FieldsOf(epoch.Floor).date.year;
      if -999 <= year <= 9999 then ParseIso8601(Iso8601(epoch)) == Some(epoch.Floor as real)
      else ParseIso8601(Iso8601(epoch)) == None
  {
    FieldsInvert(epoch.Floor);
    var f := FieldsOf(epoch.Floor);
    if -999 <= f.date.year <= 9999 {
      ReadsBack(f);
    } else {
      LongYearRefused(f);
    }
  }

  // ---- the order of texts -------------------------------------------------

  lemma PaddedEqual(m: nat, n: nat, w: nat)
    ensures PadNat(m, w) == PadNat(n, w) <==> m == n
  {
    PadNatValue(m, w);
    PadNatValue(n, w);
  }

  /** Numbers padded to the same width compare as texts the way they compare as numbers. */
  lemma {:induction false} PaddedOrder(m: nat, n: nat, w: nat)
    requires w > 0 && m < Power10(w) && n < Power10(w)
    ensures TextLess(PadNat(m, w), PadNat(n, w)) <==> m < n
  {
    if w == 1 {
      assert Power10(1) == 10 * Power10(0);
      DigitOrder(m, n);
      assert PadNat(m, 1) == [DigitChar(m)] && PadNat(n, 1) == [DigitChar(n)];
    } else {
      PaddedOrder(m / 10, n / 10, w - 1);
      PaddedEqual(m / 10, n / 10, w - 1);
      PadNatWidth(m / 10, w - 1);
      PadNatWidth(n / 10, w - 1);
      DigitOrder(m % 10, n % 10);
      LastDigitOrder(m, n);
      TextLessConcat(PadNat(m / 10, w - 1), [DigitChar(m % 10)], PadNat(n / 10, w - 1), [DigitChar(n % 10)]);
    }
  }

  lemma DigitOrder(a: nat, b: nat)
    requires a < 10 && b < 10
    ensures TextLess([DigitChar(a)], [DigitChar(b)]) <==> a < b
  {
  }

  lemma LastDigitOrder(m: nat, n: nat)
    ensures m < n <==> m / 10 < n / 10 || (m / 10 == n / 10 && m % 10 < n % 10)
  {
  }

  /** One field and its separator decide, or the rest does. */
  lemma FieldOrder(m: nat, n: nat, w: nat, sep: string, a: string, b: string)
    requires w > 0 && m < Power10(w) && n < Power10(w)
    ensures TextLess(PadNat(m, w) + (sep + a), PadNat(n, w) + (sep + b)) <==> m < n || (m == n && TextLess(a, b))
  {
    PaddedOrder(m, n, w);
    PaddedEqual(m, n, w);
    PadNatWidth(m, w);
    PadNatWidth(n, w);
    TextLessConcat(PadNat(m, w), sep + a, PadNat(n, w), sep + b);
    TextLessConcat(sep, a, sep, b);
    TextLessSame(sep);
  }

  function TimeText(f: Fields): string {
    Pad2(f.hour) + (":" + (Pad2(f.minute) + (":" + (Pad2(f.second) + ("Z" + "")))))
  }

  function DateTimeText(f: Fields): string {
    PadInt(f.date.year, 4) + ("-" + AfterYear(f))
  }

  lemma {:induction false} TextByFields(f: Fields)
    ensures FieldsText(f) == DateTimeText(f)
  {
    var date := PadInt(f.date.year, 4) + "-" + Pad2(f.date.month) + "-" + Pad2(f.date.day) + "T";
    NestTime(date, Pad2(f.hour), Pad2(f.minute), Pad2(f.second));
    NestDate(PadInt(f.date.year, 4), Pad2(f.date.month), Pad2(f.date.day), TimeText(f));
    hide Pad2, PadInt;
    assert FieldsText(f) == date + TimeText(f);
  }

  lemma {:induction false} NestTime(date: string, h: string, m: string, s: string)
    ensures date + h + ":" + m + ":" + s + "Z" == date + (h + (":" + (m + (":" + (s + ("Z" + ""))))))
  {
    assert s + ("Z" + "") == s + "Z";
    assert date + h + ":" + m + (":" + (s + "Z")) == date + (h + (":" + (m + (":" + (s + "Z")))));
    assert date + h + ":" + m + ":" + s + "Z" == date + h + ":" + m + (":" + (s + "Z"));
  }

  lemma {:induction false} NestDate(y: string, m: string, d: string, time: string)
    ensures y + "-" + m + "-" + d + "T" + time == y + ("-" + (m + ("-" + (d + ("T" + time)))))
  {
    assert y + "-" + m + "-" + d + "T" + time == y + "-" + m + ("-" + (d + ("T" + time)));
  }

  predicate FieldsLess(f: Fields, g: Fields) {
    Before(f.date, g.date) ||
    (f.date == g.date &&
     (f.hour < g.hour || (f.hour == g.hour && (f.minute < g.minute || (f.minute == g.minute && f.second < g.second)))))
  }

  predicate Sound(f: Fields) {
    Valid(f.date) && f.hour < 24 && f.minute < 60 && f.second < 60
  }

  lemma TimeOrder(f: Fields, g: Fields)
    requires Sound(f) && Sound(g)
    ensures TextLess(TimeText(f), TimeText(g)) <==>
      f.hour < g.hour || (f.hour == g.hour && (f.minute < g.minute || (f.minute == g.minute && f.second < g.second)))
  {
    assert Power10(1) == 10 * Power10(0) && Power10(2) == 10 * Power10(1);
    FieldOrder(f.second, g.second, 2, "Z", "", "");
    FieldOrder(f.minute, g.minute, 2, ":", Pad2(f.second) + ("Z" + ""), Pad2(g.second) + ("Z" + ""));
    FieldOrder(f.hour, g.hour, 2, ":", Pad2(f.minute) + (":" + (Pad2(f.second) + ("Z" + ""))),
               Pad2(g.minute) + (":" + (Pad2(g.second) + ("Z" + ""))));
  }

  /** Everything after the year and its dash. */
  function AfterYear(f: Fields): string {
    Pad2(f.date.month) + ("-" + (Pad2(f.date.day) + ("T" + TimeText(f))))
  }

  /** Within one year the rest of the text compares as the rest of the fields. */
  lemma {:induction false} AfterYearOrder(f: Fields, g: Fields)
    requires Sound(f) && Sound(g)
    ensures TextLess(AfterYear(f), AfterYear(g)) <==> FieldsLess(f, g.(date := g.date.(year := f.date.year)))
  {
    assert Power10(1) == 10 * Power10(0) && Power10(2) == 10 * Power10(1);
    TimeOrder(f, g);
    var tf, tg := TimeText(f), TimeText(g);
    hide TimeText, Power10;
    FieldOrder(f.date.day, g.date.day, 2, "T", tf, tg);
    FieldOrder(f.date.month, g.date.month, 2, "-", Pad2(f.date.day) + ("T" + tf), Pad2(g.date.day) + ("T" + tg));
  }

  lemma {:induction false} FieldsOrder(f: Fields, g: Fields)
    requires Sound(f) && Sound(g) && 0 <= f.date.year <= 9999 && 0 <= g.date.year <= 9999
    ensures TextLess(FieldsText(f), FieldsText(g)) <==> FieldsLess(f, g)
  {
    assert Power10(1) == 10 * Power10(0) && Power10(2) == 10 * Power10(1);
    assert Power10(3) == 10 * Power10(2) && Power10(4) == 10 * Power10(3);
    TextByFields(f);
    TextByFields(g);
    AfterYearOrder(f, g);
    hide AfterYear, TimeText, Power10, FieldsText;
    FieldOrder(f.date.year, g.date.year, 4, "-", AfterYear(f), AfterYear(g));
  }

  lemma SecondsOrder(f: Fields, g: Fields)
    requires Sound(f) && Sound(g) && FieldsLess(f, g)
    ensures SecondsOf(f) < SecondsOf(g)
  {
    if Before(f.date, g.date) {
      DaysMonotone(f.date, g.date);
    }
  }

  /** Between years 0 and 9999, texts compare exactly as the seconds they name. */
  lemma TextOrderIsTimeOrder(s: real, t: real)
    requires 0 <= FieldsOf(s.Floor).date.year <= 9999 && 0 <= FieldsOf(t.Floor).date.year <= 9999
    ensures TextLess(Iso8601(s), Iso8601(t)) <==> s.Floor < t.Floor
  {
    var f, g := FieldsOf(s.Floor), FieldsOf(t.Floor);
    FieldsInvert(s.Floor);
    FieldsInvert(t.Floor);
    FieldsOrder(f, g);
    if FieldsLess(f, g) {
      SecondsOrder(f, g);
    } else if FieldsLess(g, f) {
      SecondsOrder(g, f);
    }
  }

  /** Sorting runs by their creation text, as `runs_for_commit` does, sorts them by time. */
  lemma SortedTextsAreSortedTimes(times: seq<real>)
    requires forall i :: 0 <= i < |times| ==> 0 <= FieldsOf(times[i].Floor).date.year <= 9999
    ensures (forall i, j :: 0 <= i < j < |times| ==> !TextLess(Iso8601(times[j]), Iso8601(times[i])))
      <==> (forall i, j :: 0 <= i < j < |times| ==> times[i].Floor <= times[j].Floor)
  {
    forall i, j | 0 <= i < j < |times|
      ensures TextLess(Iso8601(times[j]), Iso8601(times[i])) <==> times[j].Floor < times[i].Floor
    {
      TextOrderIsTimeOrder(times[j], times[i]);
    }
  }
}
