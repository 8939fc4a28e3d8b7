/**
 * Calendar dates as the portfolio code uses them: `yyyy-MM-dd` text, day-by-day stepping with
 * `Calendar.add(DATE, ±1)`, days of the week, month and year boundaries. Dates are numbered by the
 * days elapsed since 0001-01-01 in the proleptic Gregorian calendar, which was a Monday.
 */
module Calendar {
  import opened Wrappers
  import Text

  datatype Date = Date(year: int, month: int, day: int)

  predicate IsLeapYear(y: int) {
    (y % 4 == 0 && y % 100 != 0) || y % 400 == 0
  }

  function DaysInMonth(y: int, m: int): (n: int)
    requires 1 <= m <= 12
    ensures 28 <= n <= 31
  {
    if m == 2 then (if IsLeapYear(y) then 29 else 28)
    else if m == 4 || m == 6 || m == 9 || m == 11 then 30
    else 31
  }

  function DaysInYear(y: int): int {
    if IsLeapYear(y) then 366 else 365
  }

  predicate ValidDate(d: Date) {
    1 <= d.year && 1 <= d.month <= 12 && 1 <= d.day <= DaysInMonth(d.year, d.month)
  }

  /** A date that exists in the calendar. */
  type Day = d: Date | ValidDate(d) witness Date(1, 1, 1)

  /** Days of the year before the first of month m. */
  function DaysBeforeMonth(y: int, m: int): int
    requires 1 <= m <= 12
  {
    var common :=
      if m == 1 then 0 else if m == 2 then 31 else if m == 3 then 59 else if m == 4 then 90
      else if m == 5 then 120 else if m == 6 then 151 else if m == 7 then 181 else if m == 8 then 212
      else if m == 9 then 243 else if m == 10 then 273 else if m == 11 then 304 else 334;
    common + (if m > 2 && IsLeapYear(y) then 1 else 0)
  }

  /** Days from 0001-01-01 to the first of January of year y. */
  function YearStart(y: int): int
    requires y >= 1
  {
    var p := y - 1;
    365 * p + p / 4 - p / 100 + p / 400
  }

  function DayNumber(d: Date): int
    requires ValidDate(d)
  {
    YearStart(d.year) + DaysBeforeMonth(d.year, d.month) + d.day - 1
  }

  lemma DivStep4(a: nat)
    ensures (a + 1) / 4 == a / 4 + (if (a + 1) % 4 == 0 then 1 else 0)
  {
  }

  lemma DivStep100(a: nat)
    ensures (a + 1) / 100 == a / 100 + (if (a + 1) % 100 == 0 then 1 else 0)
  {
  }

  lemma DivStep400(a: nat)
    ensures (a + 1) / 400 == a / 400 + (if (a + 1) % 400 == 0 then 1 else 0)
  {
  }

  lemma WeekShift(a: int, k: int)
    ensures (a + k) % 7 == (a % 7 + k) % 7
  {
  }

  lemma YearStartStep(y: int)
    requires y >= 1
    ensures YearStart(y + 1) == YearStart(y) + DaysInYear(y)
  {
    var p := y - 1;
    DivStep4(p);
    DivStep100(p);
    DivStep400(p);
  }

  lemma {:induction false} YearStartMonotone(y: int, z: int)
    requires 1 <= y <= z
    ensures YearStart(y) <= YearStart(z)
    decreases z - y
  {
    if y < z {
      YearStartStep(y);
      YearStartMonotone(y + 1, z);
    }
  }

  lemma {:induction false} DayNumberWithinYear(d: Date)
    requires ValidDate(d)
    ensures YearStart(d.year) <= DayNumber(d) < YearStart(d.year) + DaysInYear(d.year)
  {
  }

  lemma YearStartNonNegative(y: int)
    requires y >= 1
    ensures YearStart(y) >= 0
  {
    YearStartMonotone(1, y);
  }

  lemma DaysBeforeMonthOrder(y: int, m: int, n: int)
    requires 1 <= m < n <= 12
    ensures DaysBeforeMonth(y, m) + DaysInMonth(y, m) <= DaysBeforeMonth(y, n)
  {
  }

  /** Distinct dates have distinct numbers, so a date is determined by its number. */
  lemma DayNumberInjective(a: Date, b: Date)
    requires ValidDate(a) && ValidDate(b) && DayNumber(a) == DayNumber(b)
    ensures a == b
  {
    if a.year < b.year {
      DayNumberWithinYear(a);
      DayNumberWithinYear(b);
      YearStartStep(a.year);
      YearStartMonotone(a.year + 1, b.year);
      assert false;
    } else if b.year < a.year {
      DayNumberWithinYear(a);
      DayNumberWithinYear(b);
      YearStartStep(b.year);
      YearStartMonotone(b.year + 1, a.year);
      assert false;
    } else if a.month < b.month {
      DaysBeforeMonthOrder(a.year, a.month, b.month);
      assert false;
    } else if b.month < a.month {
      DaysBeforeMonthOrder(a.year, b.month, a.month);
      assert false;
    }
  }

  /** Two distinct dates in order have numbers in strict order. */
  lemma DayNumberStrict(a: Date, b: Date)
    requires ValidDate(a) && ValidDate(b) && a != b && DayNumber(a) <= DayNumber(b)
    ensures DayNumber(a) < DayNumber(b)
  {
    if DayNumber(a) == DayNumber(b) {
      DayNumberInjective(a, b);
    }
  }

  lemma DayNumberNonNegative(d: Date)
    requires ValidDate(d)
    ensures DayNumber(d) >= 0
  {
    YearStartNonNegative(d.year);
  }

  /** The following day, `Calendar.add(Calendar.DATE, 1)`. */
  function NextDay(d: Date): (r: Date)
    requires ValidDate(d)
    ensures ValidDate(r) && DayNumber(r) == DayNumber(d) + 1
  {
    if d.day < DaysInMonth(d.year, d.month) then
      Date(d.year, d.month, d.day + 1)
    else if d.month < 12 then
      Date(d.year, d.month + 1, 1)
    else
      YearStartStep(d.year);
      Date(d.year + 1, 1, 1)
  }

  /** The date with a given number: the inverse of DayNumber. */
  function FromDayNumber(n: nat): (r: Date)
    ensures ValidDate(r) && DayNumber(r) == n
  {
    if n == 0 then Date(1, 1, 1) else NextDay(FromDayNumber(n - 1))
  }

  lemma FromDayNumberOf(d: Date)
    requires ValidDate(d)
    ensures DayNumber(d) >= 0 && FromDayNumber(DayNumber(d)) == d
  {
    DayNumberNonNegative(d);
    DayNumberInjective(FromDayNumber(DayNumber(d)), d);
  }

  /** The date k days later (earlier for negative k), `Calendar.add(Calendar.DATE, k)`. */
  function AddDays(d: Date, k: int): (r: Date)
    requires ValidDate(d) && DayNumber(d) + k >= 0
    ensures ValidDate(r) && DayNumber(r) == DayNumber(d) + k
  {
    FromDayNumber(DayNumber(d) + k)
  }

  /** The previous day, `Calendar.add(Calendar.DATE, -1)`; day one of the calendar has none. */
  function PrevDay(d: Date): (r: Date)
    requires ValidDate(d) && DayNumber(d) >= 1
    ensures ValidDate(r) && NextDay(r) == d
  {
    var r := AddDays(d, -1);
    DayNumberInjective(NextDay(r), d);
    r
  }

  /**
   * The order of (year, month, day) as one number: a month has at most 31 days and a year 12
   * months, so the factors 32 and 416 keep the three fields apart.
   */
  function Ord(d: Date): int {
    d.year * 416 + d.month * 32 + d.day
  }

  /** `Date.before`: a is an earlier day than b. */
  predicate Before(a: Date, b: Date) {
    Ord(a) < Ord(b)
  }

  /** a is b or an earlier day. */
  predicate NotAfter(a: Date, b: Date) {
    Ord(a) <= Ord(b)
  }

  /** The order of the day numbers is the order of (year, month, day). */
  lemma DayNumberLexicographic(a: Date, b: Date)
    requires ValidDate(a) && ValidDate(b)
    ensures DayNumber(a) < DayNumber(b) <==>
      a.year < b.year || (a.year == b.year && (a.month < b.month || (a.month == b.month && a.day < b.day)))
  {
    DayNumberWithinYear(a);
    DayNumberWithinYear(b);
    if a.year < b.year {
      YearStartStep(a.year);
      YearStartMonotone(a.year + 1, b.year);
    } else if b.year < a.year {
      YearStartStep(b.year);
      YearStartMonotone(b.year + 1, a.year);
    } else if a.month < b.month {
      DaysBeforeMonthOrder(a.year, a.month, b.month);
    } else if b.month < a.month {
      DaysBeforeMonthOrder(a.year, b.month, a.month);
    }
  }

  /** Before and NotAfter compare dates as the days they name: the earlier day number comes first. */
  lemma OrderIsChronological(a: Date, b: Date)
    requires ValidDate(a) && ValidDate(b)
    ensures Before(a, b) <==> DayNumber(a) < DayNumber(b)
    ensures NotAfter(a, b) <==> DayNumber(a) <= DayNumber(b)
  {
    DayNumberLexicographic(a, b);
    DayNumberLexicographic(b, a);
  }

  // ---------------------------------------------------------------------------------------------
  // Days of the week: 0 is Monday, ..., 4 Friday, 5 Saturday, 6 Sunday.

  function DayOfWeek(d: Date): (w: int)
    requires ValidDate(d)
    ensures 0 <= w < 7
  {
    DayNumber(d) % 7
  }

  const Friday := 4
  const Saturday := 5
  const Sunday := 6

  predicate IsWeekend(d: Date)
    requires ValidDate(d)
  {
    DayOfWeek(d) == Saturday || DayOfWeek(d) == Sunday
  }

  lemma NextDayOfWeek(d: Date)
    requires ValidDate(d)
    ensures DayOfWeek(NextDay(d)) == (DayOfWeek(d) + 1) % 7
  {
    WeekShift(DayNumber(d), 1);
  }

  lemma AddDaysOfWeek(d: Date, k: int)
    requires ValidDate(d) && DayNumber(d) + k >= 0
    ensures DayOfWeek(AddDays(d, k)) == (DayOfWeek(d) + k) % 7
  {
    WeekShift(DayNumber(d), k);
  }

  /** 2022-10-31, the last day of the bundled price series, was a Monday. */
  lemma LastBundledDayIsMonday()
    ensures ValidDate(Date(2022, 10, 31)) && DayOfWeek(Date(2022, 10, 31)) == 0
  {
    assert YearStart(2022) == 738155;
    assert DayNumber(Date(2022, 10, 31)) == 738458;
  }

  /**
   * `TemporalAdjusters.next(FRIDAY)`: the first Friday strictly after d (within seven days there is
   * exactly one).
   */
  function NextFridayAfter(d: Date): (r: Date)
    requires ValidDate(d)
    ensures ValidDate(r) && DayOfWeek(r) == Friday
    ensures DayNumber(d) < DayNumber(r) <= DayNumber(d) + 7
  {
    DayNumberNonNegative(d);
    var w := DayOfWeek(d);
    var k := if w < Friday then Friday - w else Friday + 7 - w;
    assert (w + k) % 7 == Friday by {
      assert w + k == Friday || w + k == Friday + 7;
    }
    AddDaysOfWeek(d, k);
    AddDays(d, k)
  }

  // ---------------------------------------------------------------------------------------------
  // Month and year steps

  function LastDayOfMonth(y: int, m: int): (r: Date)
    requires y >= 1 && 1 <= m <= 12
    ensures ValidDate(r) && r.year == y && r.month == m
    ensures ValidDate(NextDay(r)) && NextDay(r).day == 1
  {
    Date(y, m, DaysInMonth(y, m))
  }

  /** `Calendar.add(Calendar.YEAR, 1)`: same month and day next year, 29 February becoming the 28th. */
  function AddYear(d: Date): (r: Date)
    requires ValidDate(d)
    ensures ValidDate(r) && r.year == d.year + 1 && r.month == d.month
    ensures r.day == d.day || (d.month == 2 && d.day == 29 && r.day == 28)
  {
    var n := DaysInMonth(d.year + 1, d.month);
    Date(d.year + 1, d.month, if d.day <= n then d.day else n)
  }

  // ---------------------------------------------------------------------------------------------
  // The `yyyy-MM-dd` text of SimpleDateFormat and LocalDate

  function FormatDate(d: Date): (s: string)
    requires ValidDate(d)
  {
    Text.ZeroPad(d.year, 4) + "-" + Text.ZeroPad(d.month, 2) + "-" + Text.ZeroPad(d.day, 2)
  }

  /** Strict parsing: three dash-separated digit groups naming a real date. */
  function ParseDate(s: string): (r: Option<Date>)
    ensures r.Some? ==> ValidDate(r.value)
  {
    var parts := Text.Split(s, "-");
    if |parts| == 3 && |parts[0]| > 0 && |parts[1]| > 0 && |parts[2]| > 0
      && Text.AllDigits(parts[0]) && Text.AllDigits(parts[1]) && Text.AllDigits(parts[2])
    then
      var d := Date(Text.DigitsValue(parts[0]), Text.DigitsValue(parts[1]), Text.DigitsValue(parts[2]));
      if ValidDate(d) then Some(d) else None
    else None
  }

  lemma ParseFormatDate(d: Date)
    requires ValidDate(d)
    ensures ParseDate(FormatDate(d)) == Some(d)
  {
    var ys, ms, ds := Text.ZeroPad(d.year, 4), Text.ZeroPad(d.month, 2), Text.ZeroPad(d.day, 2);
    var parts := [ys, ms, ds];
    assert Text.Join(parts[1..], "-") == ms + "-" + ds by {
      assert parts[1..][1..] == [ds];
    }
    assert Text.Join(parts, "-") == FormatDate(d);
    forall k, j | 0 <= k < 2 && 0 <= j < |parts[k]| ensures parts[k][j] != "-"[0] {
      assert Text.IsDigit(parts[k][j]);
    }
    forall j | true ensures !Text.OccursAt(ds, "-", j) {
      Text.OccursAtChar(ds, '-', j);
    }
    Text.IndexOfFirst(ds, "-");
    Text.SplitJoin(parts, "-");
    Text.ZeroPadValue(d.year, 4);
    Text.ZeroPadValue(d.month, 2);
    Text.ZeroPadValue(d.day, 2);
  }

  lemma FormatDateInjective(a: Date, b: Date)
    requires ValidDate(a) && ValidDate(b) && FormatDate(a) == FormatDate(b)
    ensures a == b
  {
    ParseFormatDate(a);
    ParseFormatDate(b);
  }
}
