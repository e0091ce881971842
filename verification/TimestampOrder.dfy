/**
 When sorting timestamps by their texts sorts them by time, over all years. The
 year is the only field of varying width, and the only one with a sign.
 */
module TimestampOrder {
  import opened Decimal
  import opened Strings
  import opened Timestamps

  // ---- numbers of different widths ----------------------------------------

  function DigitCount(n: nat): (k: nat)
    ensures k >= 1
  {
    if n < 10 then 1 else 1 + DigitCount(n / 10)
  }

  /** How many digits a padded number has. */
  function Width(n: nat, w: nat): nat {
    if w > DigitCount(n) then w else DigitCount(n)
  }

  lemma {:induction false} NatTextIsPadded(n: nat)
    ensures |NatText(n)| == DigitCount(n) && NatText(n) == PadNat(n, DigitCount(n))
  {
    if n >= 10 {
      NatTextIsPadded(n / 10);
    }
  }

  /** A padded number is the same number padded to the width that it comes to. */
  lemma {:induction false} PaddedIs(n: nat, w: nat)
    requires w > 0
    ensures var k := Width(n, w);
      |PadNat(n, w)| == k && PadNat(n, w) == PadNat(n, k) && n < Power10(k)
    decreases w
  {
    if w == 1 {
      NatTextIsPadded(n);
    } else {
      PaddedIs(n / 10, w - 1);
    }
    PadNatWidth(n, Width(n, w));
  }

  function Quotient(n: nat, p: nat): nat
    requires p > 0
  {
    n / p
  }

  lemma {:induction false} DivideTwice(n: nat, p: nat)
    requires p > 0
    ensures Quotient(n / 10, p) == Quotient(n, 10 * p)
  {
    var q, r := n / (10 * p), n % (10 * p);
    assert n == 10 * (p * q) + r;
    assert n / 10 == p * q + r / 10 && r / 10 < p;
    QuotientIs(n / 10, p, q, r / 10);
  }

  lemma {:induction false} QuotientIs(n: nat, p: nat, q: nat, r: nat)
    requires n == p * q + r && r < p
    ensures n / p == q
  {
    var d := n / p - q;
    assert p * (n / p) + n % p == n;
    assert p * d == r - n % p;
    if d >= 1 {
      AtLeastOnce(p, d);
    } else if d <= -1 {
      AtLeastOnce(p, -d);
    }
  }

  lemma {:induction false} AtLeastOnce(p: nat, d: int)
    requires p > 0 && d >= 1
    ensures p * d >= p && p * (-d) <= -(p as int)
  {
    assert p * (d - 1) >= 0;
  }

  /** The leading digits of a number are its quotient by a power of ten. */
  lemma {:induction false} LeadingDigits(n: nat, k: nat, j: nat)
    requires 1 <= j <= k && n < Power10(k)
    ensures |PadNat(n, k)| == k && PadNat(n, k)[..j] == PadNat(Quotient(n, Power10(k - j)), j)
    ensures Quotient(n, Power10(k - j)) < Power10(j)
    decreases k
  {
    PadNatWidth(n, k);
    if j < k {
      LeadingDigits(n / 10, k - 1, j);
      DivideTwice(n, Power10(k - 1 - j));
      var text := PadNat(n, k);
      assert text[..k - 1] == PadNat(n / 10, k - 1);
      assert text[..j] == text[..k - 1][..j];
    } else {
      assert PadNat(n, k)[..k] == PadNat(n, k);
    }
  }

  /** A narrower number before a dash compares with the leading digits of a wider one. */
  lemma {:induction false} WiderOrder(m: nat, j: nat, n: nat, k: nat, a: string, b: string)
    requires 1 <= j < k && m < Power10(j) && n < Power10(k)
    ensures var x, y := PadNat(m, j) + ("-" + a), PadNat(n, k) + ("-" + b);
      (TextLess(x, y) <==> m <= Quotient(n, Power10(k - j))) &&
      (TextLess(y, x) <==> Quotient(n, Power10(k - j)) < m)
  {
    hide Quotient;
    var q := Quotient(n, Power10(k - j));
    LeadingDigits(n, k, j);
    PadNatWidth(m, j);
    PadNatWidth(q, j);
    PaddedOrder(m, q, j);
    PaddedOrder(q, m, j);
    PaddedEqual(m, q, j);
    var digits, lead := PadNat(n, k), PadNat(q, j);
    assert Digit(digits[j]);
    var rest := digits[j..];
    assert digits == lead + rest && rest[0] == digits[j];
    hide PadNat, Power10, TextLess;
    LeadDecides(PadNat(m, j), lead, rest, "-" + a, "-" + b);
    assert lead + (rest + ("-" + b)) == digits + ("-" + b);
  }

  /** Texts of one length decide, and after equal ones a dash sorts before a digit. */
  lemma {:induction false} LeadDecides(x: string, lead: string, rest: string, a: string, b: string)
    requires |x| == |lead| && rest != "" && Digit(rest[0]) && a != "" && a[0] == '-'
    ensures TextLess(x + a, lead + (rest + b)) <==> TextLess(x, lead) || x == lead
    ensures TextLess(lead + (rest + b), x + a) <==> TextLess(lead, x)
  {
    TextLessConcat(x, a, lead, rest + b);
    TextLessConcat(lead, rest + b, x, a);
    assert (rest + b)[0] == rest[0];
  }

  // ---- years --------------------------------------------------------------

  /** As many leading digits of `n` as `m` has, when both are padded. */
  function Lead(m: nat, n: nat, w: nat): nat
    requires m <= n
  {
    WidthGrows(m, n, w);
    Quotient(n, Power10(Width(n, w) - Width(m, w)))
  }

  /**
   Whether the texts of two years, the earlier one first, stand in the order of
   time. A sign sorts before every digit; years that are not negative sort by
   their leading digits, and negative ones the other way round.
   */
  predicate YearsInOrder(y: int, z: int)
    requires y <= z
  {
    if y == z || y < 0 <= z then true
    else if y >= 0 then y <= Lead(y, z, 4)
    else Lead(-z, -y, 3) < -z
  }

  lemma {:induction false} WidthGrows(m: nat, n: nat, w: nat)
    requires m <= n
    ensures Width(m, w) <= Width(n, w)
  {
    DigitCountGrows(m, n);
  }

  lemma {:induction false} DigitCountGrows(m: nat, n: nat)
    requires m <= n
    ensures DigitCount(m) <= DigitCount(n)
  {
    if m >= 10 {
      DigitCountGrows(m / 10, n / 10);
    }
  }

  /** Two numbers that are not negative, the smaller one first, each with a dash and more after it. */
  lemma {:induction false} PlainYears(m: nat, n: nat, w: nat, a: string, b: string)
    requires w > 0 && m < n
    ensures var x, y := PadNat(m, w) + ("-" + a), PadNat(n, w) + ("-" + b);
      (TextLess(x, y) <==> m <= Lead(m, n, w)) && (TextLess(y, x) <==> Lead(m, n, w) < m)
  {
    WidthGrows(m, n, w);
    PaddedIs(m, w);
    PaddedIs(n, w);
    var j, k := Width(m, w), Width(n, w);
    assert j >= 1;
    hide Width, PadNat;
    if j == k {
      assert Power10(0) == 1;
      FieldOrder(m, n, k, "-", a, b);
      FieldOrder(n, m, k, "-", b, a);
    } else {
      WiderOrder(m, j, n, k, a, b);
    }
  }

  lemma {:induction false} SignFirst(a: string, b: string)
    ensures TextLess("-" + a, "-" + b) <==> TextLess(a, b)
  {
    TextLessConcat("-", a, "-", b);
    TextLessSame("-");
  }

  /** Different years, the earlier one first, in the text form of a timestamp. */
  lemma {:induction false} YearOrder(y: int, z: int, a: string, b: string)
    requires y < z
    ensures var s, t := PadInt(y, 4) + ("-" + a), PadInt(z, 4) + ("-" + b);
      (TextLess(s, t) <==> YearsInOrder(y, z)) && (TextLess(t, s) <==> !YearsInOrder(y, z))
  {
    if y >= 0 {
      PlainYears(y, z, 4, a, b);
    } else if z >= 0 {
      DashFirst(y, z, a, b);
    } else {
      NegativeYears(-z, -y, b, a);
    }
  }

  lemma {:induction false} DashFirst(y: int, z: int, a: string, b: string)
    requires y < 0 <= z
    ensures var s, t := PadInt(y, 4) + ("-" + a), PadInt(z, 4) + ("-" + b); TextLess(s, t) && !TextLess(t, s)
  {
    var s, t := PadInt(y, 4) + ("-" + a), PadInt(z, 4) + ("-" + b);
    assert Digit(PadNat(z, 4)[0]);
    hide PadNat;
    assert s[0] == '-' && t[0] == PadNat(z, 4)[0];
    hide PadInt;
  }

  lemma {:induction false} NegativeYears(m: nat, n: nat, a: string, b: string)
    requires 0 < m < n
    ensures var x, y := PadInt(-(m as int), 4) + ("-" + a), PadInt(-(n as int), 4) + ("-" + b);
      (TextLess(x, y) <==> m <= Lead(m, n, 3)) && (TextLess(y, x) <==> Lead(m, n, 3) < m)
  {
    var u, v := PadNat(m, 3) + ("-" + a), PadNat(n, 3) + ("-" + b);
    PlainYears(m, n, 3, a, b);
    hide PadNat, TextLess, Lead;
    SignFirst(u, v);
    SignFirst(v, u);
    assert PadInt(-(m as int), 4) + ("-" + a) == "-" + u && PadInt(-(n as int), 4) + ("-" + b) == "-" + v;
    hide PadInt;
  }

  // ---- timestamps ---------------------------------------------------------

  function Year(s: real): int {
    FieldsOf(s.Floor).date.year
  }

  /** An earlier second has the earlier fields. */
  lemma {:induction false} EarlierFields(s: real, t: real)
    requires s.Floor < t.Floor
    ensures var f, g := FieldsOf(s.Floor), FieldsOf(t.Floor);
      Sound(f) && Sound(g) && FieldsLess(f, g) && f.date.year <= g.date.year
  {
    var f, g := FieldsOf(s.Floor), FieldsOf(t.Floor);
    FieldsInvert(s.Floor);
    FieldsInvert(t.Floor);
    hide FieldsOf, SecondsOf;
    if !FieldsLess(f, g) && f != g {
      SecondsOrder(g, f);
    }
  }

  /** Of two different seconds, the text of the earlier one sorts first exactly when the years are in order. */
  lemma {:induction false} OrderExactly(s: real, t: real)
    requires s.Floor < t.Floor
    ensures Year(s) <= Year(t)
    ensures TextLess(Iso8601(s), Iso8601(t)) <==> YearsInOrder(Year(s), Year(t))
    ensures TextLess(Iso8601(t), Iso8601(s)) <==> !YearsInOrder(Year(s), Year(t))
  {
    var f, g := FieldsOf(s.Floor), FieldsOf(t.Floor);
    EarlierFields(s, t);
    TextByFields(f);
    TextByFields(g);
    hide FieldsOf, FieldsText, AfterYear, PadInt, TextLess, YearsInOrder;
    if f.date.year < g.date.year {
      YearOrder(f.date.year, g.date.year, AfterYear(f), AfterYear(g));
    } else {
      WithinYear(f, g);
      SameYearInOrder(f.date.year);
    }
  }

  lemma {:induction false} SameYearInOrder(y: int)
    ensures YearsInOrder(y, y)
  {
  }

  lemma {:induction false} WithinYear(f: Fields, g: Fields)
    requires Sound(f) && Sound(g) && FieldsLess(f, g) && f.date.year == g.date.year
    ensures TextLess(DateTimeText(f), DateTimeText(g)) && !TextLess(DateTimeText(g), DateTimeText(f))
  {
    var year := PadInt(f.date.year, 4);
    AfterYearOrder(f, g);
    AfterYearOrder(g, f);
    hide AfterYear, PadInt, TextLess;
    SignFirst(AfterYear(f), AfterYear(g));
    SignFirst(AfterYear(g), AfterYear(f));
    TextLessConcat(year, "-" + AfterYear(f), year, "-" + AfterYear(g));
    TextLessConcat(year, "-" + AfterYear(g), year, "-" + AfterYear(f));
    TextLessSame(year);
  }

  /** Among the timestamps that read back, only different negative years are out of order. */
  lemma {:induction false} ReadableOrderExactly(s: real, t: real)
    requires s.Floor < t.Floor && -999 <= Year(s) <= 9999 && -999 <= Year(t) <= 9999
    ensures TextLess(Iso8601(s), Iso8601(t)) <==> !(Year(s) < Year(t) < 0)
  {
    OrderExactly(s, t);
    hide Iso8601, TextLess, Year;
    ReadableYears(Year(s), Year(t));
  }

  lemma {:induction false} ReadableYears(y: int, z: int)
    requires -999 <= y <= z <= 9999
    ensures YearsInOrder(y, z) <==> !(y < z < 0)
  {
    assert Power10(0) == 1;
    if y >= 0 {
      FewDigits(y, 4);
      FewDigits(z, 4);
    } else if z < 0 {
      FewDigits(-y, 3);
      FewDigits(-z, 3);
    }
  }

  lemma {:induction false} FewDigits(n: nat, w: nat)
    requires w > 0 && n < if w == 3 then 1000 else 10000
    requires w == 3 || w == 4
    ensures Width(n, w) == w
  {
    assert Power10(3) == 10 * Power10(2) && Power10(2) == 10 * Power10(1) && Power10(1) == 10 * Power10(0);
    assert Power10(4) == 10 * Power10(3);
    PadNatWidth(n, w);
    PaddedIs(n, w);
    hide Width, Power10, PadNat;
  }

  /** Years of the same number of digits, from year 0 on, are in order. */
  lemma {:induction false} SameWidthInOrder(y: nat, z: nat)
    requires y <= z && Width(y, 4) == Width(z, 4)
    ensures YearsInOrder(y, z)
  {
    assert Power10(0) == 1;
  }

  /** From year -999 to year -1, of two timestamps from different years the later one sorts first. */
  lemma {:induction false} NegativeYearsSortBackwards(s: real, t: real)
    requires -999 <= Year(s) < Year(t) < 0
    ensures s.Floor < t.Floor && TextLess(Iso8601(t), Iso8601(s))
  {
    EarlierYear(s, t);
    OrderExactly(s, t);
    ReadableYears(Year(s), Year(t));
  }

  lemma {:induction false} EarlierYear(s: real, t: real)
    requires Year(s) < Year(t)
    ensures s.Floor < t.Floor
  {
    hide FieldsOf;
    if t.Floor < s.Floor {
      EarlierFields(t, s);
    }
  }

  /** Every timestamp of year 10000 sorts before every timestamp of year 9999. */
  lemma {:induction false} LongYearSortsEarly(s: real, t: real)
    requires Year(s) == 9999 && Year(t) == 10000
    ensures s.Floor < t.Floor && TextLess(Iso8601(t), Iso8601(s))
  {
    EarlierYear(s, t);
    OrderExactly(s, t);
    LongYearOutOfOrder();
  }

  lemma {:induction false} LongYearOutOfOrder()
    ensures !YearsInOrder(9999, 10000)
  {
    assert DigitCount(9999) == 4 && DigitCount(10000) == 5;
    assert Power10(1) == 10 * Power10(0);
  }

  predicate SortedByText(times: seq<real>) {
    forall i, j :: 0 <= i < j < |times| ==> !TextLess(Iso8601(times[j]), Iso8601(times[i]))
  }

  predicate SortedByTime(times: seq<real>) {
    forall i, j :: 0 <= i < j < |times| ==> times[i].Floor <= times[j].Floor
  }

  predicate InOrder(s: real, t: real) {
    s.Floor < t.Floor ==> Year(s) <= Year(t) && YearsInOrder(Year(s), Year(t))
  }

  /** A list that was sorted by its texts is sorted by time exactly when every two of its years are in order. */
  lemma {:induction false} TextSortIsTimeSortExactly(times: seq<real>)
    requires SortedByText(times)
    ensures SortedByTime(times) <==> forall i, j :: 0 <= i < |times| && 0 <= j < |times| ==> InOrder(times[i], times[j])
  {
    hide Iso8601, TextLess, Year, YearsInOrder;
    forall i, j | 0 <= i < |times| && 0 <= j < |times| && times[i].Floor < times[j].Floor
      ensures TextLess(Iso8601(times[j]), Iso8601(times[i])) <==> !InOrder(times[i], times[j])
      ensures TextLess(Iso8601(times[i]), Iso8601(times[j])) <==> InOrder(times[i], times[j])
    {
      OrderExactly(times[i], times[j]);
    }
  }
}
