/**
 * The proleptic Gregorian calendar as Python's `datetime.date` implements it:
 * years 1 to 9999, ordering by (year, month, day), and day arithmetic through
 * the ordinal day number (1 January of year 1 is day 1).
 */
module Calendar {
  import opened Wrappers

  const MinYear: int := 1
  const MaxYear: int := 9999

  datatype Ymd = Ymd(year: int, month: int, day: int)

  predicate IsLeapYear(y: int) {
    y % 4 == 0 && (y % 100 != 0 || y % 400 == 0)
  }

  function DaysInMonth(y: int, m: int): (n: int)
    requires 1 <= m <= 12
    ensures 28 <= n <= 31
    ensures n == 29 <==> m == 2 && IsLeapYear(y)
  {
    if m == 2 then (if IsLeapYear(y) then 29 else 28)
    else if m == 4 || m == 6 || m == 9 || m == 11 then 30
    else 31
  }

  /** What the `datetime(year, month, day)` constructor accepts. */
  predicate IsValidDate(y: int, m: int, d: int) {
    MinYear <= y <= MaxYear && 1 <= m <= 12 && 1 <= d <= DaysInMonth(y, m)
  }

  /** A `datetime.date`: only real Gregorian days can be built. */
  type Date = d: Ymd | IsValidDate(d.year, d.month, d.day) witness Ymd(1, 1, 1)

  /** `date.max` */
  const MaxDate: Date := Ymd(MaxYear, 12, 31)

  /** `a < b` on dates: lexicographic on (year, month, day). */
  predicate Before(a: Ymd, b: Ymd) {
    a.year < b.year
    || (a.year == b.year && a.month < b.month)
    || (a.year == b.year && a.month == b.month && a.day < b.day)
  }

  function DaysInYear(y: int): int {
    if IsLeapYear(y) then 366 else 365
  }

  /** Days in the years before `y` (Python's `_days_before_year`). */
  function DaysBeforeYear(y: int): int
    requires y >= 1
  {
    var p := y - 1;
    p * 365 + p / 4 - p / 100 + p / 400
  }

  /** Days in the year before the first of month `m` (`_days_before_month`); month 13 closes the year. */
  function DaysBeforeMonth(y: int, m: int): int
    requires 1 <= m <= 13
  {
    var table := [0, 31, 59, 90, 120, 151, 181, 212, 243, 273, 304, 334, 365];
    table[m - 1] + (if m > 2 && IsLeapYear(y) then 1 else 0)
  }

  /** `d.toordinal()` */
  function Ordinal(d: Date): int {
    DaysBeforeYear(d.year) + DaysBeforeMonth(d.year, d.month) + d.day
  }

  /**
   * `d + timedelta(days=1)`; `None` where Python raises `OverflowError`.
   * The result is the day whose ordinal follows `d`'s.
   */
  function NextDay(d: Date): (r: Option<Date>)
    ensures r.None? <==> d == MaxDate
    ensures r.Some? ==> Ordinal(r.value) == Ordinal(d) + 1 && Before(d, r.value)
  {
    if d.day < DaysInMonth(d.year, d.month) then
      Some(Ymd(d.year, d.month, d.day + 1))
    else if d.month < 12 then
      DaysBeforeMonthStep(d.year, d.month);
      Some(Ymd(d.year, d.month + 1, 1))
    else if d.year < MaxYear then
      DaysBeforeYearStep(d.year);
      Some(Ymd(d.year + 1, 1, 1))
    else
      None
  }

  // ---------------------------------------------------------------------
  // Lemmas

  lemma DaysBeforeMonthStep(y: int, m: int)
    requires 1 <= m <= 12
    ensures DaysBeforeMonth(y, m + 1) == DaysBeforeMonth(y, m) + DaysInMonth(y, m)
  {
  }

  lemma DaysBeforeYearStep(y: int)
    requires y >= 1
    ensures DaysBeforeYear(y + 1) == DaysBeforeYear(y) + DaysInYear(y)
  {
    var p := y - 1;
    assert y / 4 == p / 4 + (if y % 4 == 0 then 1 else 0);
    assert y / 100 == p / 100 + (if y % 100 == 0 then 1 else 0);
    assert y / 400 == p / 400 + (if y % 400 == 0 then 1 else 0);
  }

  lemma {:induction false} DaysBeforeYearMonotone(y: int, z: int)
    requires 1 <= y <= z
    ensures DaysBeforeYear(y) + DaysInYear(y) * (if y < z then 1 else 0) <= DaysBeforeYear(z)
    decreases z - y
  {
    if y < z {
      DaysBeforeYearStep(y);
      if y + 1 < z {
        DaysBeforeYearMonotone(y + 1, z);
      }
    }
  }

  lemma {:induction false} DaysBeforeMonthMonotone(y: int, m: int, n: int)
    requires 1 <= m < n <= 13
    ensures DaysBeforeMonth(y, m) + DaysInMonth(y, m) <= DaysBeforeMonth(y, n)
    decreases n - m
  {
    DaysBeforeMonthStep(y, m);
    if m + 1 < n {
      DaysBeforeMonthMonotone(y, m + 1, n);
    }
  }

  /** Every day of year `y` lies within that year's ordinal range. */
  lemma OrdinalWithinYear(d: Date)
    ensures DaysBeforeYear(d.year) < Ordinal(d) <= DaysBeforeYear(d.year) + DaysInYear(d.year)
  {
    if d.month < 12 {
      DaysBeforeMonthMonotone(d.year, d.month, 13);
    }
  }

  lemma BeforeOrdinal(a: Date, b: Date)
    requires Before(a, b)
    ensures Ordinal(a) < Ordinal(b)
  {
    if a.year < b.year {
      OrdinalWithinYear(a);
      OrdinalWithinYear(b);
      DaysBeforeYearMonotone(a.year, b.year);
    } else if a.month < b.month {
      DaysBeforeMonthMonotone(a.year, a.month, b.month);
    }
  }

  /** Date order and ordinal order agree: `toordinal` is an order isomorphism. */
  lemma OrdinalOrder(a: Date, b: Date)
    ensures Before(a, b) <==> Ordinal(a) < Ordinal(b)
    ensures a == b <==> Ordinal(a) == Ordinal(b)
  {
    if Before(a, b) {
      BeforeOrdinal(a, b);
    } else if Before(b, a) {
      BeforeOrdinal(b, a);
    } else {
      assert a == b;
    }
  }

  /** `NextDay` is the immediate successor: no date lies strictly between `d` and it. */
  lemma NextDayImmediate(d: Date, e: Date)
    requires NextDay(d).Some?
    ensures Before(d, e) <==> e == NextDay(d).value || Before(NextDay(d).value, e)
  {
    var n := NextDay(d).value;
    OrdinalOrder(d, e);
    OrdinalOrder(n, e);
  }
}
