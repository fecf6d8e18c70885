/** The part of JavaScript's `Date` that the finance views use: building a
    local date from (year, month, day) with out-of-range fields carried into
    the neighbouring months, and the day count that orders dates and turns
    them into millisecond instants. Gregorian calendar, months 0..11 as in
    JavaScript, every day exactly 24 hours long (no time zones, no daylight
    saving). */
module Calendar {

  const MsPerDay: int := 86_400_000

  /** A local calendar date as `getFullYear()`, `getMonth()` and `getDate()`
      report it. */
  datatype CivilDate = CivilDate(year: int, month: int, day: int)

  predicate IsLeapYear(y: int) {
    y % 4 == 0 && (y % 100 != 0 || y % 400 == 0)
  }

  function DaysInMonth(y: int, m: int): (n: int)
    requires 0 <= m < 12
    ensures 28 <= n <= 31
    ensures n == 28 <==> m == 1 && !IsLeapYear(y)
  {
    if m == 1 then (if IsLeapYear(y) then 29 else 28)
    else if m == 3 || m == 5 || m == 8 || m == 10 then 30
    else 31
  }

  predicate ValidDate(d: CivilDate) {
    0 <= d.month < 12 && 1 <= d.day <= DaysInMonth(d.year, d.month)
  }

  /** The month before (y, m). */
  function PrevMonth(y: int, m: int): (int, int)
    requires 0 <= m < 12
  {
    if m == 0 then (y - 1, 11) else (y, m - 1)
  }

  /** The month after (y, m). */
  function NextMonth(y: int, m: int): (int, int)
    requires 0 <= m < 12
  {
    if m == 11 then (y + 1, 0) else (y, m + 1)
  }

  /** Day `d` counted from the first of month (y, m): days below 1 borrow
      from the previous months, days past the month's end carry into the
      next ones, as `Date` does. */
  function NormalizeDay(y: int, m: int, d: int): (r: CivilDate)
    requires 0 <= m < 12
    ensures ValidDate(r)
    decreases (if d < 1 then 1 - d else 0), (if d < 1 then 0 else d)
  {
    if d < 1 then
      var (py, pm) := PrevMonth(y, m);
      NormalizeDay(py, pm, d + DaysInMonth(py, pm))
    else if d > DaysInMonth(y, m) then
      var (ny, nm) := NextMonth(y, m);
      NormalizeDay(ny, nm, d - DaysInMonth(y, m))
    else CivilDate(y, m, d)
  }

  /** `new Date(y, m, d)`: the month is normalised first (12 is January of
      the next year, -1 December of the previous one), then the day. */
  function MakeDate(y: int, m: int, d: int): (r: CivilDate)
    ensures ValidDate(r)
  {
    NormalizeDay(y + m / 12, m % 12, d)
  }

  /** A date that is already valid is built unchanged. */
  lemma MakeDateValid(d: CivilDate)
    requires ValidDate(d)
    ensures MakeDate(d.year, d.month, d.day) == d
  {
  }

  // ---------------------------------------------------------------------------
  // Day numbers: days since 1970-01-01

  function YearLength(y: int): int {
    if IsLeapYear(y) then 366 else 365
  }

  /** Day number of January 1 of year `y`. */
  function YearStart(y: int): int
    decreases if y >= 1970 then y - 1970 else 1970 - y
  {
    if y == 1970 then 0
    else if y > 1970 then YearStart(y - 1) + YearLength(y - 1)
    else YearStart(y + 1) - YearLength(y)
  }

  function DaysBeforeMonth(y: int, m: int): int
    requires 0 <= m <= 12
  {
    if m == 0 then 0 else DaysBeforeMonth(y, m - 1) + DaysInMonth(y, m - 1)
  }

  function DayNumber(d: CivilDate): int
    requires 0 <= d.month < 12
  {
    YearStart(d.year) + DaysBeforeMonth(d.year, d.month) + d.day - 1
  }

  /** Local midnight at the start of `d`, in milliseconds. */
  function Midnight(d: CivilDate): int
    requires 0 <= d.month < 12
  {
    DayNumber(d) * MsPerDay
  }

  /** `getDay()`: 0 is Sunday; 1970-01-01 was a Thursday. */
  function DayOfWeek(d: CivilDate): (w: int)
    requires 0 <= d.month < 12
    ensures 0 <= w < 7
  {
    (DayNumber(d) + 4) % 7
  }

  lemma YearStep(y: int)
    ensures YearStart(y + 1) == YearStart(y) + YearLength(y)
  {
  }

  lemma YearDays(y: int)
    ensures DaysBeforeMonth(y, 12) == YearLength(y)
  {
    var feb := DaysInMonth(y, 1);
    assert DaysBeforeMonth(y, 1) == 31;
    assert DaysBeforeMonth(y, 2) == 31 + feb;
    assert DaysBeforeMonth(y, 3) == 62 + feb;
    assert DaysBeforeMonth(y, 4) == 92 + feb;
    assert DaysBeforeMonth(y, 5) == 123 + feb;
    assert DaysBeforeMonth(y, 6) == 153 + feb;
    assert DaysBeforeMonth(y, 7) == 184 + feb;
    assert DaysBeforeMonth(y, 8) == 215 + feb;
    assert DaysBeforeMonth(y, 9) == 245 + feb;
    assert DaysBeforeMonth(y, 10) == 276 + feb;
    assert DaysBeforeMonth(y, 11) == 306 + feb;
  }

  /** The first of the next month is the month's length after the first of
      this month. */
  lemma MonthStep(y: int, m: int)
    requires 0 <= m < 12
    ensures var (ny, nm) := NextMonth(y, m);
            DayNumber(CivilDate(ny, nm, 1)) == DayNumber(CivilDate(y, m, 1)) + DaysInMonth(y, m)
  {
    if m == 11 {
      YearStep(y);
      YearDays(y);
    }
  }

  /** The normaliser agrees with day arithmetic: day `d` of month (y, m) is
      `d - 1` days after the first of that month, whatever `d` is. */
  lemma {:induction false} NormalizeDayNumber(y: int, m: int, d: int)
    requires 0 <= m < 12
    ensures DayNumber(NormalizeDay(y, m, d)) == DayNumber(CivilDate(y, m, 1)) + d - 1
    decreases (if d < 1 then 1 - d else 0), (if d < 1 then 0 else d)
  {
    if d < 1 {
      var (py, pm) := PrevMonth(y, m);
      NormalizeDayNumber(py, pm, d + DaysInMonth(py, pm));
      MonthStep(py, pm);
      assert NextMonth(py, pm) == (y, m);
    } else if d > DaysInMonth(y, m) {
      var (ny, nm) := NextMonth(y, m);
      NormalizeDayNumber(ny, nm, d - DaysInMonth(y, m));
      MonthStep(y, m);
    }
  }

  /** First day of the month `m` months after January of year `y`
      (any integer `m`). */
  function MonthStart(y: int, m: int): (r: CivilDate)
    ensures ValidDate(r)
  {
    CivilDate(y + m / 12, m % 12, 1)
  }

  /** `new Date(y, m, d)` is `d - 1` days after the first of the
      (normalised) month. */
  lemma MakeDateNumber(y: int, m: int, d: int)
    ensures DayNumber(MakeDate(y, m, d)) == DayNumber(MonthStart(y, m)) + d - 1
  {
    NormalizeDayNumber(y + m / 12, m % 12, d);
  }

  /** Consecutive month starts are one month length apart, also across a
      year boundary. */
  lemma MonthStartStep(y: int, m: int)
    ensures var s := MonthStart(y, m);
            DayNumber(MonthStart(y, m + 1)) == DayNumber(s) + DaysInMonth(s.year, s.month)
  {
    var q, r := m / 12, m % 12;
    assert m == 12 * q + r;
    MonthStep(y + q, r);
    if r == 11 {
      assert m + 1 == 12 * (q + 1);
      assert (m + 1) / 12 == q + 1 && (m + 1) % 12 == 0;
    } else {
      assert m + 1 == 12 * q + (r + 1);
      assert (m + 1) / 12 == q && (m + 1) % 12 == r + 1;
    }
  }

  /** Moving the day field of a valid date by `k` moves the date by `k`
      days, across month and year ends. */
  lemma MakeDateShift(d: CivilDate, k: int)
    requires ValidDate(d)
    ensures DayNumber(MakeDate(d.year, d.month, d.day + k)) == DayNumber(d) + k
  {
    FirstOfMonth(d.year, d.month);
    MakeDateNumber(d.year, d.month, d.day + k);
  }

  /** The day before a valid date: the previous day of the month, or the
      last day of the previous month on the first. */
  function PrevDay(d: CivilDate): (r: CivilDate)
    requires ValidDate(d)
    ensures ValidDate(r)
    ensures DayNumber(r) == DayNumber(d) - 1
  {
    if d.day > 1 then CivilDate(d.year, d.month, d.day - 1)
    else
      var (py, pm) := PrevMonth(d.year, d.month);
      MonthStep(py, pm);
      CivilDate(py, pm, DaysInMonth(py, pm))
  }

  /** It is the date `new Date(y, m, d - 1)` builds. */
  lemma PrevDayIsDateBefore(d: CivilDate)
    requires ValidDate(d)
    ensures PrevDay(d) == MakeDate(d.year, d.month, d.day - 1)
  {
    assert d.month / 12 == 0 && d.month % 12 == d.month;
  }

  /** A month index already in 0..11 is its own normalised month. */
  lemma FirstOfMonth(y: int, m: int)
    requires 0 <= m < 12
    ensures MonthStart(y, m) == CivilDate(y, m, 1)
  {
    assert m / 12 == 0 && m % 12 == m;
  }

  /** A local clock reading: today's date and the milliseconds since local
      midnight. It stands for `new Date()`. */
  datatype Clock = Clock(today: CivilDate, msOfDay: int)

  predicate ValidClock(c: Clock) {
    ValidDate(c.today) && 0 <= c.msOfDay < MsPerDay
  }

  /** `now.getTime()` */
  function Instant(c: Clock): int
    requires ValidClock(c)
  {
    Midnight(c.today) + c.msOfDay
  }
}
