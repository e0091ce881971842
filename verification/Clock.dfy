/**
 The two conversions between day numbers and civil dates. They are proved to be
 each other's inverse and to refine a calendar that counts day by day.
 */
module Clock {

  datatype Date = Date(year: int, month: int, day: int)

  // ---- the naive calendar -------------------------------------------------

  predicate Leap(year: int) {
    year % 4 == 0 && (year % 100 != 0 || year % 400 == 0)
  }

  function DaysIn(year: int, month: int): int {
    if month == 2 then (if Leap(year) then 29 else 28)
    else if month == 4 || month == 6 || month == 9 || month == 11 then 30
    else 31
  }

  predicate Valid(d: Date) {
    1 <= d.month <= 12 && 1 <= d.day <= DaysIn(d.year, d.month)
  }

  function NextDay(d: Date): Date {
    if d.day < DaysIn(d.year, d.month) then d.(day := d.day + 1)
    else if d.month < 12 then Date(d.year, d.month + 1, 1)
    else Date(d.year + 1, 1, 1)
  }

  predicate Before(a: Date, b: Date) {
    a.year < b.year || (a.year == b.year && (a.month < b.month || (a.month == b.month && a.day < b.day)))
  }

  const EPOCH: Date := Date(1970, 1, 1)

  // ---- the conversions ----------------------------------------------------

  /** Division that truncates toward zero, as in Rust. */
  function Quot(a: int, b: int): int
    requires b > 0
  {
    if a >= 0 then a / b else -((-a) / b)
  }

  function DaysFromCivil(d: Date): int {
    var year := if d.month <= 2 then d.year - 1 else d.year;
    var era := Quot(if year >= 0 then year else year - 399, 400);
    var yearOfEra := year - era * 400;
    var dayOfYear := Quot(153 * (if d.month > 2 then d.month - 3 else d.month + 9) + 2, 5) + d.day - 1;
    var dayOfEra := yearOfEra * 365 + Quot(yearOfEra, 4) - Quot(yearOfEra, 100) + dayOfYear;
    era * 146097 + dayOfEra - 719468
  }

  function CivilFromDays(n: int): Date {
    var days := n + 719468;
    var era := Quot(if days >= 0 then days else days - 146096, 146097);
    var dayOfEra := days - era * 146097;
    var yearOfEra := EraYear(dayOfEra);
    var year := yearOfEra + era * 400;
    var dayOfYear := dayOfEra - (365 * yearOfEra + Quot(yearOfEra, 4) - Quot(yearOfEra, 100));
    FromMarch(year, dayOfYear)
  }

  /** `year_of_era` from `day_of_era`. */
  function EraYear(doe: int): int {
    Quot(doe - Quot(doe, 1460) + Quot(doe, 36524) - Quot(doe, 146096), 365)
  }

  /** The date `d` days after 1 March of year `y`: the last four steps of `civil_from_days`. */
  function FromMarch(y: int, d: int): Date {
    var monthPrime := Quot(5 * d + 2, 153);
    var day := d - Quot(153 * monthPrime + 2, 5) + 1;
    var month := if monthPrime < 10 then monthPrime + 3 else monthPrime - 9;
    Date(if month <= 2 then y + 1 else y, month, day)
  }

  // ---- years that begin in March -----------------------------------------

  /** Days from 1 March of year 0 to 1 March of year `y`. */
  function MarchStart(y: int): int {
    365 * y + y / 4 - y / 100 + y / 400
  }

  function MarchYear(d: Date): int {
    if d.month <= 2 then d.year - 1 else d.year
  }

  /** Months since March. */
  function MarchMonth(d: Date): int {
    if d.month > 2 then d.month - 3 else d.month + 9
  }

  /** Days from 1 March to the first of the month `m` months later. */
  function MonthStart(m: int): int
    requires m >= 0
  {
    (153 * m + 2) / 5
  }

  function DayOfMarchYear(d: Date): int
    requires Valid(d)
  {
    MonthStart(MarchMonth(d)) + d.day - 1
  }

  lemma EraOfYear(y: int)
    ensures Quot(if y >= 0 then y else y - 399, 400) == y / 400
  {
    if y < 0 {
      assert -(y - 399) == -y + 399;
    }
  }

  lemma EraOfDays(n: int)
    ensures Quot(if n >= 0 then n else n - 146096, 146097) == n / 146097
  {
    if n < 0 {
      assert -(n - 146096) == -n + 146096;
    }
  }

  /** In closed form, the day number is the March year's start plus the day of that year. */
  lemma DaysClosedForm(d: Date)
    requires Valid(d)
    ensures DaysFromCivil(d) == MarchStart(MarchYear(d)) + DayOfMarchYear(d) - 719468
  {
    var y := MarchYear(d);
    EraOfYear(y);
    var era, r := y / 400, y % 400;
    assert y == 400 * era + r;
    assert y / 4 == 100 * era + r / 4 && y / 100 == 4 * era + r / 100;
  }

  /** The twelve month starts; the last month ends with the year. */
  lemma MonthStarts()
    ensures MonthStart(0) == 0 && MonthStart(1) == 31 && MonthStart(2) == 61 && MonthStart(3) == 92
    ensures MonthStart(4) == 122 && MonthStart(5) == 153 && MonthStart(6) == 184 && MonthStart(7) == 214
    ensures MonthStart(8) == 245 && MonthStart(9) == 275 && MonthStart(10) == 306 && MonthStart(11) == 337
  {
  }

  /** Each month fills the gap to the next month's start; February may be one day longer. */
  lemma MonthFits(d: Date)
    requires Valid(d)
    ensures 0 <= MarchMonth(d) <= 11
    ensures MarchMonth(d) < 11 ==>
      MonthStart(MarchMonth(d)) + DaysIn(d.year, d.month) == MonthStart(MarchMonth(d) + 1)
    ensures MarchMonth(d) == 11 ==>
      MonthStart(11) + DaysIn(d.year, d.month) == MarchStart(MarchYear(d) + 1) - MarchStart(MarchYear(d))
  {
    MonthStarts();
    if d.month == 2 {
      LeapStep(d.year);
    }
  }

  lemma LeapFour(y: int)
    ensures y / 4 - (y - 1) / 4 == if y % 4 == 0 then 1 else 0
    ensures y / 100 - (y - 1) / 100 == if y % 100 == 0 then 1 else 0
    ensures y / 400 - (y - 1) / 400 == if y % 400 == 0 then 1 else 0
  {
  }

  lemma LeapDivides(y: int)
    ensures y % 100 == 0 ==> y % 4 == 0
    ensures y % 400 == 0 ==> y % 100 == 0
  {
    if y % 100 == 0 {
      assert y == 4 * (25 * (y / 100));
    }
    if y % 400 == 0 {
      assert y == 100 * (4 * (y / 400));
    }
  }

  /** A March year has 366 days exactly when it contains a leap February. */
  lemma LeapStep(y: int)
    ensures MarchStart(y) - MarchStart(y - 1) == if Leap(y) then 366 else 365
  {
    LeapFour(y);
    LeapDivides(y);
  }

  // ---- the calendar refinement --------------------------------------------

  /** Going one day forward by the leap-year rules adds exactly one to the day number. */
  lemma NextDayAddsOne(d: Date)
    requires Valid(d)
    ensures Valid(NextDay(d))
    ensures DaysFromCivil(NextDay(d)) == DaysFromCivil(d) + 1
  {
    DaysClosedForm(d);
    DaysClosedForm(NextDay(d));
    MonthFits(d);
    MonthStarts();
    hide DaysFromCivil, MarchStart, MonthStart, Leap;
  }

  lemma EpochIsDayZero()
    ensures DaysFromCivil(EPOCH) == 0 && CivilFromDays(0) == EPOCH
  {
  }

  /** The year of the 400-year era, from the century, four-year cycle, year and day it falls in. */
  lemma YearOfEra(c: int, q: int, r: int, d: int)
    requires 0 <= c <= 3 && 0 <= q <= 24 && 0 <= r <= 3 && 0 <= d <= 365
    requires d == 365 ==> r == 3 && (q < 24 || c == 3)
    ensures var doe := 36524 * c + 1461 * q + 365 * r + d;
      EraYear(doe) == 100 * c + 4 * q + r
  {
    var doe := 36524 * c + 1461 * q + 365 * r + d;
    var t := 24 * c + q + 365 * r + d;
    ShiftedQuotient(25 * c + q, t);
    Centuries(c, doe);
    FewCycles(t, d);
    YearQuotient(100 * c + 4 * q + r, d - t / 1460);
    assert doe / 1460 == 25 * c + q + t / 1460;
    assert doe - doe / 1460 + doe / 36524 - doe / 146096 == 365 * (100 * c + 4 * q + r) + (d - t / 1460);
  }

  lemma Centuries(c: int, doe: int)
    requires 0 <= c <= 3 && 36524 * c <= doe <= 36524 * c + 36524 && (c < 3 ==> doe < 36524 * c + 36524)
    ensures doe / 36524 - doe / 146096 == c
  {
  }

  lemma FewCycles(t: int, d: int)
    requires 0 <= d <= 365 && d <= t <= d + 1191 && (d == 365 ==> t >= 1460)
    ensures 0 <= d - t / 1460 <= 364
  {
  }

  lemma YearQuotient(y: int, k: int)
    requires 0 <= k <= 364
    ensures (365 * y + k) / 365 == y
  {
  }

  lemma ShiftedQuotient(k: int, t: int)
    ensures (1460 * k + t) / 1460 == k + t / 1460
  {
  }

  /** The month found from the day of the March year is the one the day falls in. */
  lemma MonthOfDay(d: int)
    requires 0 <= d <= 365
    ensures var m := (5 * d + 2) / 153;
      0 <= m <= 11 && MonthStart(m) <= d && (m < 11 ==> d < MonthStart(m + 1))
  {
    MonthStarts();
    var m := (5 * d + 2) / 153;
    assert 153 * m <= 5 * d + 2 < 153 * m + 153;
  }

  lemma FromMarchIsDate(y: int, d: int)
    requires 0 <= d <= 365 && (d == 365 ==> Leap(y + 1))
    ensures var date := FromMarch(y, d);
      Valid(date) && MarchYear(date) == y && DayOfMarchYear(date) == d
  {
    MonthOfDay(d);
    MonthStarts();
  }

  /** Century, four-year cycle, year and day within a 400-year era. */
  lemma EraSplit(doe: int) returns (c: int, q: int, r: int, d: int)
    requires 0 <= doe < 146097
    ensures 0 <= c <= 3 && 0 <= q <= 24 && 0 <= r <= 3 && 0 <= d <= 365
    ensures d == 365 ==> r == 3 && (q < 24 || c == 3)
    ensures doe == 36524 * c + 1461 * q + 365 * r + d
  {
    c := if doe / 36524 < 4 then doe / 36524 else 3;
    var dc := doe - 36524 * c;
    q := dc / 1461;
    var dq := dc - 1461 * q;
    r := if dq / 365 < 4 then dq / 365 else 3;
    d := dq - 365 * r;
  }

  lemma CivilByEra(n: int)
    ensures var era, doe := (n + 719468) / 146097, (n + 719468) % 146097;
      var yoe := EraYear(doe);
      CivilFromDays(n) == FromMarch(yoe + era * 400, doe - (365 * yoe + Quot(yoe, 4) - Quot(yoe, 100)))
  {
    var days := n + 719468;
    EraOfDays(days);
    SameEra(days, Quot(if days >= 0 then days else days - 146096, 146097));
  }

  lemma SameEra(days: int, era: int)
    requires era == days / 146097
    ensures days - era * 146097 == days % 146097
  {
  }

  lemma EraPlace(c: int, q: int, r: int, d: int, era: int, doe: int)
    requires 0 <= c <= 3 && 0 <= q <= 24 && 0 <= r <= 3 && 0 <= d <= 365
    requires d == 365 ==> r == 3 && (q < 24 || c == 3)
    requires doe == 36524 * c + 1461 * q + 365 * r + d
    ensures var yoe := EraYear(doe);
      doe - (365 * yoe + Quot(yoe, 4) - Quot(yoe, 100)) == d &&
      era * 146097 + doe == MarchStart(yoe + era * 400) + d
    ensures d == 365 ==> Leap(EraYear(doe) + era * 400 + 1)
  {
    YearOfEra(c, q, r, d);
    EraYearStart(era, c, q, r);
    if d == 365 {
      LeapAtCycleEnd(era, c, q);
    }
  }

  /** The split of a day number into a March year and a day of it. */
  lemma CivilSplit(n: int) returns (y: int, d: int)
    ensures 0 <= d <= 365 && (d == 365 ==> Leap(y + 1))
    ensures n + 719468 == MarchStart(y) + d
    ensures CivilFromDays(n) == FromMarch(y, d)
  {
    hide CivilFromDays, FromMarch, MarchStart, Leap;
    var era, doe := (n + 719468) / 146097, (n + 719468) % 146097;
    CivilByEra(n);
    var c, q, r, day := EraSplit(doe);
    EraPlace(c, q, r, day, era, doe);
    y, d := EraYear(doe) + era * 400, day;
  }

  lemma EraYearStart(era: int, c: int, q: int, r: int)
    requires 0 <= c <= 3 && 0 <= q <= 24 && 0 <= r <= 3
    ensures var yoe := 100 * c + 4 * q + r;
      365 * yoe + yoe / 4 - yoe / 100 == 36524 * c + 1461 * q + 365 * r &&
      MarchStart(400 * era + yoe) == 146097 * era + 36524 * c + 1461 * q + 365 * r
  {
    var yoe := 100 * c + 4 * q + r;
    var y := 400 * era + yoe;
    assert yoe / 4 == 25 * c + q && yoe / 100 == c;
    assert y / 4 == 100 * era + 25 * c + q && y / 100 == 4 * era + c && y / 400 == era;
  }

  lemma LeapAtCycleEnd(era: int, c: int, q: int)
    requires 0 <= c <= 3 && 0 <= q <= 24 && (q < 24 || c == 3)
    ensures Leap(400 * era + (100 * c + 4 * q + 3) + 1)
  {
    var y := 400 * era + 100 * c + 4 * (q + 1);
    assert y == 4 * (100 * era + 25 * c + q + 1);
    if q < 24 {
      assert y == 100 * (4 * era + c) + 4 * (q + 1);
    } else {
      assert y == 400 * (era + 1);
    }
  }

  // ---- the two conversions are inverse ------------------------------------

  /** Every day number converts to a valid date, and back to itself. */
  lemma DaysOfCivil(n: int)
    ensures Valid(CivilFromDays(n)) && DaysFromCivil(CivilFromDays(n)) == n
  {
    var y, d := CivilSplit(n);
    FromMarchIsDate(y, d);
    DaysClosedForm(CivilFromDays(n));
  }

  lemma MarchStartMonotone(x: int, y: int)
    requires x < y
    ensures MarchStart(x + 1) <= MarchStart(y)
    decreases y - x
  {
    if x + 1 < y {
      MarchStartMonotone(x + 1, y);
      LeapStep(x + 2);
    }
  }

  lemma DayOfYearBound(d: Date)
    requires Valid(d)
    ensures 0 <= DayOfMarchYear(d) < MarchStart(MarchYear(d) + 1) - MarchStart(MarchYear(d))
  {
    MonthFits(d);
    MonthStarts();
    LeapStep(MarchYear(d) + 1);
  }

  lemma MonthStartMonotone(a: int, b: int)
    requires 0 <= a < b <= 11
    ensures MonthStart(a + 1) <= MonthStart(b)
  {
  }

  lemma LaterInMarchYears(a: Date, b: Date)
    requires Valid(a) && Valid(b) && Before(a, b)
    ensures MarchYear(a) < MarchYear(b) || (MarchYear(a) == MarchYear(b) && DayOfMarchYear(a) < DayOfMarchYear(b))
  {
    MonthFits(a);
    MonthFits(b);
    if MarchYear(a) == MarchYear(b) && MarchMonth(a) < MarchMonth(b) {
      MonthStartMonotone(MarchMonth(a), MarchMonth(b));
    }
  }

  /** Later dates have larger day numbers. */
  lemma DaysMonotone(a: Date, b: Date)
    requires Valid(a) && Valid(b) && Before(a, b)
    ensures DaysFromCivil(a) < DaysFromCivil(b)
  {
    LaterInMarchYears(a, b);
    DayOfYearBound(a);
    DayOfYearBound(b);
    if MarchYear(a) < MarchYear(b) {
      MarchStartMonotone(MarchYear(a), MarchYear(b));
    }
    DaysClosedForm(a);
    DaysClosedForm(b);
  }

  /** Every valid date converts to a day number, and back to itself. */
  lemma CivilOfDays(d: Date)
    requires Valid(d)
    ensures CivilFromDays(DaysFromCivil(d)) == d
  {
    var back := CivilFromDays(DaysFromCivil(d));
    DaysOfCivil(DaysFromCivil(d));
    if Before(back, d) {
      DaysMonotone(back, d);
    } else if Before(d, back) {
      DaysMonotone(d, back);
    }
  }

  /**
   What makes a pair of conversions a calendar: they are inverse on valid dates,
   and the next date has the next day number.
   */
  ghost predicate Refines(civil: int -> Date, days: Date -> int) {
    (forall n :: Valid(civil(n)) && days(civil(n)) == n) &&
    (forall d :: Valid(d) ==> civil(days(d)) == d) &&
    (forall d :: Valid(d) ==> Valid(NextDay(d)) && days(NextDay(d)) == days(d) + 1)
  }

  lemma ConversionsRefine()
    ensures Refines(CivilFromDays, DaysFromCivil)
  {
    forall n: int
      ensures Valid(CivilFromDays(n)) && DaysFromCivil(CivilFromDays(n)) == n
    {
      DaysOfCivil(n);
    }
    forall d: Date | Valid(d)
      ensures CivilFromDays(DaysFromCivil(d)) == d
      ensures Valid(NextDay(d)) && DaysFromCivil(NextDay(d)) == DaysFromCivil(d) + 1
    {
      CivilOfDays(d);
      NextDayAddsOne(d);
    }
  }

  lemma StepsInOrder(civil: int -> Date, days: Date -> int, n: int)
    requires Refines(civil, days)
    ensures civil(n + 1) == NextDay(civil(n))
  {
    assert civil(days(NextDay(civil(n)))) == NextDay(civil(n));
  }

  /** Consecutive day numbers are consecutive dates, before the epoch as well as after it. */
  lemma CivilSteps(n: int)
    ensures CivilFromDays(n + 1) == NextDay(CivilFromDays(n))
  {
    ConversionsRefine();
    StepsInOrder(CivilFromDays, DaysFromCivil, n);
  }

  /** The day-by-day calendar, counted forward from the epoch. */
  function Calendar(n: nat): Date {
    if n == 0 then EPOCH else NextDay(Calendar(n - 1))
  }

  lemma {:induction false} CountsFrom(civil: int -> Date, days: Date -> int, n: nat)
    requires Refines(civil, days) && civil(0) == EPOCH
    ensures civil(n) == Calendar(n)
  {
    if n > 0 {
      CountsFrom(civil, days, n - 1);
      StepsInOrder(civil, days, n - 1);
    }
  }

  /** From the epoch on, the conversion is the day-by-day count. */
  lemma CivilIsCalendar(n: nat)
    ensures CivilFromDays(n) == Calendar(n)
  {
    ConversionsRefine();
    EpochIsDayZero();
    CountsFrom(CivilFromDays, DaysFromCivil, n);
  }
}
