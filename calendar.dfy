/** Dates as the Python `datetime.date` values the module computes with.
    A date is its proleptic Gregorian ordinal (`date.toordinal()`: 0001-01-01 is
    day 1), so `date + timedelta(days=k)` is `d + k` and `(a - b).days` is
    `a - b`; the (year, month, day) view is `FromOrdinal`, whose inverse is
    `ToOrdinal`. */
module Calendar {
  import opened Common

  type Day = int

  /** A value Python can hold in a `date`: day 1 or later. (The upper end,
      9999-12-31, is not enforced.) */
  type Date = d: Day | d >= 1 witness 1

  /** `d + timedelta(days=n)`, which raises OverflowError before 0001-01-01. */
  function AddDays(d: Date, n: int): (r: Option<Date>)
    ensures r.Some? <==> d + n >= 1
    ensures r.Some? ==> r.value - d == n
  {
    if d + n >= 1 then Some(d + n) else None
  }

  datatype Civil = Civil(year: int, month: int, day: int)

  predicate IsLeapYear(y: int)
  {
    y % 4 == 0 && (y % 100 != 0 || y % 400 == 0)
  }

  function DaysInYear(y: int): (n: int)
    ensures n == 365 || n == 366
  {
    if IsLeapYear(y) then 366 else 365
  }

  function DaysInMonth(y: int, m: int): (n: int)
    requires 1 <= m <= 12
    ensures 28 <= n <= 31
    ensures n == 29 <==> m == 2 && IsLeapYear(y)
  {
    if m == 2 then (if IsLeapYear(y) then 29 else 28)
    else if m == 4 || m == 6 || m == 9 || m == 11 then 30
    else 31
  }

  predicate ValidCivil(c: Civil)
  {
    c.year >= 1 && 1 <= c.month <= 12 && 1 <= c.day <= DaysInMonth(c.year, c.month)
  }

  /** Number of days in the years before year `y` (Python's `_days_before_year`). */
  function DaysBeforeYear(y: int): int
    requires y >= 1
  {
    var k := y - 1;
    365 * k + k / 4 - k / 100 + k / 400
  }

  /** Number of days in year `y` before the first of month `m`. */
  function DaysBeforeMonth(y: int, m: int): int
    requires 1 <= m <= 12
  {
    [0, 31, 59, 90, 120, 151, 181, 212, 243, 273, 304, 334][m - 1]
      + (if m > 2 && IsLeapYear(y) then 1 else 0)
  }

  function ToOrdinal(c: Civil): Day
    requires c.year >= 1 && 1 <= c.month <= 12
  {
    DaysBeforeYear(c.year) + DaysBeforeMonth(c.year, c.month) + c.day
  }

  lemma DivSucc(k: int)
    requires k >= 0
    ensures (k + 1) / 4 == k / 4 + (if (k + 1) % 4 == 0 then 1 else 0)
    ensures (k + 1) / 100 == k / 100 + (if (k + 1) % 100 == 0 then 1 else 0)
    ensures (k + 1) / 400 == k / 400 + (if (k + 1) % 400 == 0 then 1 else 0)
  {
  }

  lemma MultipleOf100(y: int)
    requires y % 100 == 0
    ensures y % 4 == 0
  {
    assert y == 4 * (25 * (y / 100));
  }

  lemma MultipleOf400(y: int)
    requires y % 400 == 0
    ensures y % 100 == 0
  {
    assert y == 100 * (4 * (y / 400));
  }

  /** The closed form of `DaysBeforeYear` adds up the lengths of the years. */
  lemma DaysBeforeNextYear(y: int)
    requires y >= 1
    ensures DaysBeforeYear(y + 1) == DaysBeforeYear(y) + DaysInYear(y)
  {
    var k := y - 1;
    DivSucc(k);
    if y % 100 == 0 { MultipleOf100(y); }
    if y % 400 == 0 { MultipleOf400(y); }
  }

  lemma DaysBeforeMonthStep(y: int, m: int)
    requires 1 <= m <= 12
    ensures m < 12 ==> DaysBeforeMonth(y, m + 1) == DaysBeforeMonth(y, m) + DaysInMonth(y, m)
    ensures m == 12 ==> DaysBeforeMonth(y, m) + DaysInMonth(y, m) == DaysInYear(y)
  {
  }

  lemma {:induction false} DaysBeforeYearMonotone(a: int, b: int)
    requires 1 <= a <= b
    ensures DaysBeforeYear(b) >= DaysBeforeYear(a) + 365 * (b - a)
    decreases b - a
  {
    if a < b {
      DaysBeforeYearMonotone(a, b - 1);
      DaysBeforeNextYear(b - 1);
    }
  }

  /** Finds the year holding the n-th day counted from the first of year `y`. */
  function YearAndDay(n: int, y: int): (r: (int, int))
    requires n >= 1 && y >= 1
    ensures r.0 >= y && 1 <= r.1 <= DaysInYear(r.0)
    ensures DaysBeforeYear(r.0) + r.1 == DaysBeforeYear(y) + n
    decreases n
  {
    if n <= DaysInYear(y) then (y, n)
    else
      DaysBeforeNextYear(y);
      YearAndDay(n - DaysInYear(y), y + 1)
  }

  /** Finds the month holding the n-th day counted from the first of month `m` of year `y`. */
  function MonthAndDay(y: int, n: int, m: int): (r: (int, int))
    requires 1 <= m <= 12 && 1 <= n <= DaysInYear(y) - DaysBeforeMonth(y, m)
    ensures m <= r.0 <= 12 && 1 <= r.1 <= DaysInMonth(y, r.0)
    ensures DaysBeforeMonth(y, r.0) + r.1 == DaysBeforeMonth(y, m) + n
    decreases 12 - m
  {
    DaysBeforeMonthStep(y, m);
    if n <= DaysInMonth(y, m) then (m, n)
    else MonthAndDay(y, n - DaysInMonth(y, m), m + 1)
  }

  /** The (year, month, day) of an ordinal (Python's `date.fromordinal`). */
  function FromOrdinal(n: Day): (c: Civil)
    requires n >= 1
    ensures ValidCivil(c) && ToOrdinal(c) == n
  {
    var yd := YearAndDay(n, 1);
    DaysBeforeMonthStep(yd.0, 1);
    var md := MonthAndDay(yd.0, yd.1, 1);
    Civil(yd.0, md.0, md.1)
  }

  /** Every valid date lies strictly after the days of the years before it and
      on or before the last day of its own year. */
  lemma OrdinalWithinYear(c: Civil)
    requires ValidCivil(c)
    ensures DaysBeforeYear(c.year) < ToOrdinal(c) <= DaysBeforeYear(c.year) + DaysInYear(c.year)
  {
    MonthEndWithinYear(c.year, c.month);
  }

  lemma MonthEndWithinYear(y: int, m: int)
    requires 1 <= m <= 12
    ensures DaysBeforeMonth(y, m) + DaysInMonth(y, m) <= DaysInYear(y)
  {
  }

  lemma {:induction false} OrdinalDeterminesYear(c1: Civil, c2: Civil)
    requires ValidCivil(c1) && ValidCivil(c2) && c1.year < c2.year
    ensures ToOrdinal(c1) < ToOrdinal(c2)
  {
    OrdinalWithinYear(c1);
    OrdinalWithinYear(c2);
    DaysBeforeYearMonotone(c1.year + 1, c2.year);
    DaysBeforeNextYear(c1.year);
  }

  lemma OrdinalDeterminesMonth(y: int, m1: int, d1: int, m2: int, d2: int)
    requires ValidCivil(Civil(y, m1, d1)) && ValidCivil(Civil(y, m2, d2)) && m1 < m2
    ensures ToOrdinal(Civil(y, m1, d1)) < ToOrdinal(Civil(y, m2, d2))
  {
    MonthsIncrease(y, m1, m2);
  }

  lemma {:induction false} MonthsIncrease(y: int, m1: int, m2: int)
    requires 1 <= m1 < m2 <= 12
    ensures DaysBeforeMonth(y, m1) + DaysInMonth(y, m1) <= DaysBeforeMonth(y, m2)
    decreases m2 - m1
  {
    DaysBeforeMonthStep(y, m1);
    if m1 + 1 < m2 {
      MonthsIncrease(y, m1 + 1, m2);
    }
  }

  /** Distinct valid dates have distinct ordinals. */
  lemma ToOrdinalInjective(c1: Civil, c2: Civil)
    requires ValidCivil(c1) && ValidCivil(c2) && ToOrdinal(c1) == ToOrdinal(c2)
    ensures c1 == c2
  {
    if c1.year < c2.year { OrdinalDeterminesYear(c1, c2); }
    else if c2.year < c1.year { OrdinalDeterminesYear(c2, c1); }
    else if c1.month < c2.month { OrdinalDeterminesMonth(c1.year, c1.month, c1.day, c2.month, c2.day); }
    else if c2.month < c1.month { OrdinalDeterminesMonth(c1.year, c2.month, c2.day, c1.month, c1.day); }
  }

  /** The round trip in the other direction: the view of a valid date's ordinal is that date. */
  lemma FromToOrdinal(c: Civil)
    requires ValidCivil(c)
    ensures ToOrdinal(c) >= 1 && FromOrdinal(ToOrdinal(c)) == c
  {
    OrdinalWithinYear(c);
    assert DaysBeforeYear(c.year) >= 0;
    ToOrdinalInjective(FromOrdinal(ToOrdinal(c)), c);
  }

  // The view of an ordinal, field by field.

  function YearOf(d: Day): int requires d >= 1 { FromOrdinal(d).year }
  function MonthOf(d: Day): int requires d >= 1 { FromOrdinal(d).month }
  function DayOf(d: Day): int requires d >= 1 { FromOrdinal(d).day }

  /** `d.replace(day=k)`: Python raises ValueError when month `d` has no day `k`. */
  function ReplaceDay(d: Day, k: int): (r: Option<Day>)
    requires d >= 1
    ensures r.Some? <==> 1 <= k <= DaysInMonth(YearOf(d), MonthOf(d))
    ensures r.Some? ==> r.value >= 1 && FromOrdinal(r.value) == Civil(YearOf(d), MonthOf(d), k)
    ensures r.Some? ==> r.value == d - DayOf(d) + k
  {
    var c := FromOrdinal(d);
    if 1 <= k <= DaysInMonth(c.year, c.month) then
      var e := Civil(c.year, c.month, k);
      FromToOrdinal(e);
      Some(ToOrdinal(e))
    else None
  }

  /** `d.replace(day=1)`, which always exists. */
  function FirstOfMonth(d: Day): (r: Day)
    requires d >= 1
    ensures 1 <= r <= d && d - r == DayOf(d) - 1
    ensures FromOrdinal(r) == Civil(YearOf(d), MonthOf(d), 1)
  {
    ReplaceDay(d, 1).value
  }

  /** The last day of the month of `first`, as the module computes it from the
      first of the month: `first.replace(month=m + 1) - 1 day`, or
      `first.replace(year=y + 1, month=1) - 1 day` in December. */
  function MonthEnd(first: Day): (r: Day)
    requires first >= 1
  {
    var c := FromOrdinal(first);
    if c.month == 12 then ToOrdinal(Civil(c.year + 1, 1, 1)) - 1
    else ToOrdinal(Civil(c.year, c.month + 1, 1)) - 1
  }

  /** From the first of a month, `MonthEnd` lands on that month's last day,
      December included. */
  lemma MonthEndIsLastDay(first: Day)
    requires first >= 1
    ensures MonthEnd(first) >= first
    ensures FromOrdinal(MonthEnd(first)) == Civil(YearOf(first), MonthOf(first), DaysInMonth(YearOf(first), MonthOf(first)))
    ensures MonthEnd(first) - first == DaysInMonth(YearOf(first), MonthOf(first)) - DayOf(first)
  {
    var c := FromOrdinal(first);
    var last := Civil(c.year, c.month, DaysInMonth(c.year, c.month));
    DaysBeforeMonthStep(c.year, c.month);
    if c.month == 12 {
      DaysBeforeNextYear(c.year);
    }
    assert MonthEnd(first) == ToOrdinal(last);
    FromToOrdinal(last);
  }

  /** Python's `date.weekday()`: Monday is 0 (0001-01-01 was a Monday). */
  function Weekday(d: Day): (w: int)
    ensures 0 <= w < 7
  {
    (d + 6) % 7
  }

  /** `d - timedelta(days=d.weekday())`: the Monday that starts d's week. */
  function WeekStart(d: Day): (r: Day)
    ensures d - 6 <= r <= d
    ensures Weekday(r) == 0
    ensures forall e :: r <= e <= d ==> Weekday(e) == e - r
  {
    d - Weekday(d)
  }

  /** `strftime('%Y%m%d')` (years are zero-padded to four digits). */
  function YmdText(d: Day): (s: string)
    requires d >= 1
    ensures |s| >= 8
  {
    var c := FromOrdinal(d);
    ZeroPad(c.year as nat, 4) + ZeroPad(c.month as nat, 2) + ZeroPad(c.day as nat, 2)
  }

  /** `str(d)`, the ISO form YYYY-MM-DD. */
  function IsoText(d: Day): (s: string)
    requires d >= 1
    ensures |s| >= 10
  {
    var c := FromOrdinal(d);
    ZeroPad(c.year as nat, 4) + "-" + ZeroPad(c.month as nat, 2) + "-" + ZeroPad(c.day as nat, 2)
  }

  /** `strftime('%B')` in the English locale. */
  function MonthName(m: int): string
    requires 1 <= m <= 12
  {
    ["January", "February", "March", "April", "May", "June", "July",
     "August", "September", "October", "November", "December"][m - 1]
  }
}
