/** The local finance database: the record types, the five tables, the
    first-run seeding, `formatCurrency` and the budget-month window
    `getMonthDateRange`. Dates are instants in milliseconds of local time. */
module Db {
  import opened Wrappers
  import opened Numeric
  import opened Text
  import opened Calendar
  import opened Tables

  datatype Priority = Low | Medium | High
  datatype ProjectStatus = Active | Completed | Archived

  datatype AppSettings = AppSettings(
    totalBudget: real, currency: string, currencySymbol: string, monthStartDay: int,
    createdAt: int, updatedAt: int)

  /** `allocation` is the source's `allocated` field (`allocated` is a Dafny
      keyword). It and `percentage` are numbers that a rebalance over a zero
      total turns into NaN or an infinity, so they are `Num`. */
  datatype BudgetCategory = BudgetCategory(
    name: string, icon: string, color: string, allocation: Num, percentage: Num,
    createdAt: int, updatedAt: int)

  datatype Expense = Expense(
    categoryId: int, amount: real, note: string, date: int, createdAt: int, updatedAt: int)

  datatype Project = Project(
    name: string, description: string, color: string, priority: Priority, status: ProjectStatus,
    createdAt: int, updatedAt: int)

  datatype Task = Task(
    projectId: Option<int>, title: string, description: string, priority: Priority,
    dueDate: Option<int>, completed: bool, completedAt: Option<int>, order: int,
    createdAt: int, updatedAt: int)

  /** The database: one auto-incrementing table per record type. */
  class FinanceDB {
    const settings: Table<AppSettings>
    const categories: Table<BudgetCategory>
    const expenses: Table<Expense>
    const projects: Table<Project>
    const tasks: Table<Task>

    ghost predicate Valid()
      reads this, settings, categories, expenses, projects, tasks
    {
      settings.Valid() && categories.Valid() && expenses.Valid() && projects.Valid() && tasks.Valid()
    }

    constructor ()
      ensures Valid()
      ensures settings.rows == map[] && categories.rows == map[] && expenses.rows == map[]
      ensures projects.rows == map[] && tasks.rows == map[]
      ensures fresh(settings) && fresh(categories) && fresh(expenses) && fresh(projects) && fresh(tasks)
    {
      settings := new Table<AppSettings>();
      categories := new Table<BudgetCategory>();
      expenses := new Table<Expense>();
      projects := new Table<Project>();
      tasks := new Table<Task>();
    }
  }

  // ---------------------------------------------------------------------------
  // First-run data

  const DefaultBudget: real := 50000.0

  function DefaultSettings(now: int): (s: AppSettings)
    ensures s.totalBudget == DefaultBudget && s.monthStartDay == 1
    ensures s.currency == "INR" && s.currencySymbol == "\U{20B9}"
  {
    AppSettings(DefaultBudget, "INR", "\U{20B9}", 1, now, now)
  }

  function Category(name: string, icon: string, color: string, amount: real, pct: real, now: int): BudgetCategory {
    BudgetCategory(name, icon, color, Fin(amount), Fin(pct), now, now)
  }

  /** The finite percentage of a category, 0 when it is not finite. */
  function PercentOf(c: BudgetCategory): real {
    if c.percentage.Fin? then c.percentage.v else 0.0
  }

  /** The five starter categories: their percentages add up to 100, each
      allocation is its share of the default budget, and no two share a
      name. */
  function DefaultCategories(now: int): (cs: seq<BudgetCategory>)
    ensures |cs| == 5
    ensures forall i :: 0 <= i < |cs| ==> cs[i].percentage.Fin? && cs[i].allocation.Fin?
    ensures forall i :: 0 <= i < |cs| ==> cs[i].allocation.v == cs[i].percentage.v / 100.0 * DefaultBudget
    ensures cs[0].percentage.v + cs[1].percentage.v + cs[2].percentage.v + cs[3].percentage.v
            + cs[4].percentage.v == 100.0
    ensures forall i, j :: 0 <= i < j < |cs| ==> cs[i].name != cs[j].name
  {
    [ Category("Food", "\U{1F354}", "#84cc16", 15000.0, 30.0, now),
      Category("Dates", "\U{1F49D}", "#f472b6", 5000.0, 10.0, now),
      Category("Accessories", "\U{1F3A7}", "#60a5fa", 5000.0, 10.0, now),
      Category("Savings", "\U{1F4B0}", "#a3e635", 20000.0, 40.0, now),
      Category("Misc", "\U{1F4E6}", "#a78bfa", 5000.0, 10.0, now) ]
  }

  function SampleProject(now: int): (p: Project)
    ensures p.status == Active && p.priority == High
  {
    Project("Personal Goals", "Track personal development goals", "#84cc16", High, Active, now, now)
  }

  /** The two starter tasks of project `projectId`: open, ordered 0 and 1, due
      now and in seven days. */
  function SampleTasks(projectId: int, now: int): (ts: seq<Task>)
    ensures |ts| == 2
    ensures forall i :: 0 <= i < 2 ==> ts[i].projectId == Some(projectId) && ts[i].order == i
    ensures forall i :: 0 <= i < 2 ==> !ts[i].completed && ts[i].completedAt.None?
    ensures ts[0].dueDate == Some(now) && ts[1].dueDate == Some(now + 7 * MsPerDay)
  {
    [ Task(Some(projectId), "Review monthly budget", "Check spending patterns", High,
           Some(now), false, None, 0, now, now),
      Task(Some(projectId), "Set savings goal", "Define target for next month", Medium,
           Some(now + 7 * 24 * 60 * 60 * 1000), false, None, 1, now, now) ]
  }

  /** `initializeDefaultData`: seeds settings, categories, a sample project and
      its tasks, but only while the settings table is empty; afterwards the
      settings table is never empty, so a second run changes nothing. */
  method InitializeDefaultData(db: FinanceDB, now: int)
    requires db.Valid()
    modifies db.settings, db.categories, db.projects, db.tasks
    ensures db.Valid()
    ensures db.settings.rows != map[]
    ensures old(db.settings.rows) != map[] ==>
              unchanged(db.settings, db.categories, db.projects, db.tasks)
    ensures old(db.settings.rows) == map[] ==>
              var pid := old(db.projects.nextId);
              && db.settings.rows == map[old(db.settings.nextId) := DefaultSettings(now)]
              && AddedInOrder(db.categories.rows, old(db.categories.rows), old(db.categories.nextId),
                              DefaultCategories(now))
              && db.projects.rows == old(db.projects.rows)[pid := SampleProject(now)]
              && AddedInOrder(db.tasks.rows, old(db.tasks.rows), old(db.tasks.nextId), SampleTasks(pid, now))
  {
    if db.settings.rows == map[] {
      var settingsId := db.settings.Add(DefaultSettings(now));
      var cats := DefaultCategories(now);
      var _ := db.categories.BulkAdd(cats);
      var projectId := db.projects.Add(SampleProject(now));
      var sample := SampleTasks(projectId, now);
      var _ := db.tasks.BulkAdd(sample);
      assert settingsId in db.settings.rows;
    }
  }

  // ---------------------------------------------------------------------------
  // formatCurrency

  const Rupee: string := "\U{20B9}"

  /** `formatCurrency(amount, symbol = '₹')` for a whole amount: the symbol,
      a minus sign for negative amounts, then the digits in Indian grouping. */
  function FormatCurrency(amount: int, symbol: Option<string>): string
  {
    symbol.GetOr(Rupee) + (if amount < 0 then "-" else "") + IndianGroup(NatToString(if amount < 0 then -amount else amount))
  }

  /** The text starts with the symbol (the rupee sign by default), and taking
      out the group separators after it leaves the plain decimal amount. */
  lemma FormatCurrencyDigits(amount: int, symbol: Option<string>)
    ensures var sym := symbol.GetOr(Rupee);
            var r := FormatCurrency(amount, symbol);
            |r| > |sym| && r[..|sym|] == sym && Remove(',', r[|sym|..]) == IntToString(amount)
    ensures symbol.None? ==> FormatCurrency(amount, symbol)[..1] == Rupee
  {
    var sym := symbol.GetOr(Rupee);
    var digits := NatToString(if amount < 0 then -amount else amount);
    var sign := if amount < 0 then "-" else "";
    var body := sign + IndianGroup(digits);
    assert FormatCurrency(amount, symbol) == sym + body;
    assert Remove(',', body) == IntToString(amount) by {
      assert ',' !in digits by {
        forall i | 0 <= i < |digits| ensures digits[i] != ',' {
          assert IsDigit(digits[i]);
        }
      }
      IndianGroupUngroup(digits);
      RemoveConcat(',', sign, IndianGroup(digits));
      RemoveAbsent(',', sign);
    }
    assert (sym + body)[..|sym|] == sym && (sym + body)[|sym|..] == body;
  }

  // ---------------------------------------------------------------------------
  // getMonthDateRange

  /** A budget month: its first and its last day. */
  datatype DateRange = DateRange(start: CivilDate, end: CivilDate)

  /** `getMonthDateRange(monthStartDay = 1)` on the local date `today`. When
      today is on or after the start day, the period starts this month;
      otherwise it started last month. It ends the day before the start day
      of the following month. */
  function GetMonthDateRange(today: CivilDate, monthStartDay: Option<int>): (r: DateRange)
    requires ValidDate(today)
    ensures ValidDate(r.start) && ValidDate(r.end)
  {
    var msd := monthStartDay.GetOr(1);
    if today.day >= msd then PeriodFrom(today.year, today.month, msd)
    else PeriodFrom(today.year, today.month - 1, msd)
  }

  /** The period from `new Date(y, m, msd)` to `new Date(y, m + 1, msd - 1)`. */
  function PeriodFrom(y: int, m: int, msd: int): (r: DateRange)
    ensures ValidDate(r.start) && ValidDate(r.end)
  {
    DateRange(MakeDate(y, m, msd), MakeDate(y, m + 1, msd - 1))
  }

  /** The period starts `msd - 1` days after the first of month `m`. */
  lemma PeriodStartDay(y: int, m: int, msd: int)
    ensures DayNumber(PeriodFrom(y, m, msd).start) == DayNumber(MonthStart(y, m)) + msd - 1
  {
    MakeDateNumber(y, m, msd);
  }

  /** The period ends `msd - 2` days after the first of month `m + 1`. */
  lemma PeriodEndDay(y: int, m: int, msd: int)
    ensures DayNumber(PeriodFrom(y, m, msd).end) == DayNumber(MonthStart(y, m + 1)) + msd - 2
  {
    MakeDateNumber(y, m + 1, msd - 1);
  }

  /** In days: when today has reached the start day `msd`, the period starts
      `msd - 1` days after the first of this month; otherwise `msd - 1` days
      after the first of last month. It ends `msd - 2` days after the first
      of the month after the one it starts in. */
  lemma MonthDateRangeDays(today: CivilDate, monthStartDay: Option<int>)
    requires ValidDate(today)
    ensures var msd := monthStartDay.GetOr(1);
            var r := GetMonthDateRange(today, monthStartDay);
            today.day >= msd ==>
              && DayNumber(r.start) == DayNumber(MonthStart(today.year, today.month)) + msd - 1
              && DayNumber(r.end) == DayNumber(MonthStart(today.year, today.month + 1)) + msd - 2
    ensures var msd := monthStartDay.GetOr(1);
            var r := GetMonthDateRange(today, monthStartDay);
            today.day < msd ==>
              && DayNumber(r.start) == DayNumber(MonthStart(today.year, today.month - 1)) + msd - 1
              && DayNumber(r.end) == DayNumber(MonthStart(today.year, today.month)) + msd - 2
  {
    if today.day >= monthStartDay.GetOr(1) {
      RangeReachedDays(today, monthStartDay);
    } else {
      RangeNotReachedDays(today, monthStartDay);
    }
  }

  lemma RangeReachedDays(today: CivilDate, monthStartDay: Option<int>)
    requires ValidDate(today) && today.day >= monthStartDay.GetOr(1)
    ensures var msd := monthStartDay.GetOr(1);
            var r := GetMonthDateRange(today, monthStartDay);
            && DayNumber(r.start) == DayNumber(MonthStart(today.year, today.month)) + msd - 1
            && DayNumber(r.end) == DayNumber(MonthStart(today.year, today.month + 1)) + msd - 2
  {
    RangeReachedStart(today, monthStartDay);
    RangeReachedEnd(today, monthStartDay);
  }

  lemma RangeReachedStart(today: CivilDate, monthStartDay: Option<int>)
    requires ValidDate(today) && today.day >= monthStartDay.GetOr(1)
    ensures DayNumber(GetMonthDateRange(today, monthStartDay).start)
            == DayNumber(MonthStart(today.year, today.month)) + monthStartDay.GetOr(1) - 1
  {
    PeriodStartDay(today.year, today.month, monthStartDay.GetOr(1));
  }

  lemma RangeReachedEnd(today: CivilDate, monthStartDay: Option<int>)
    requires ValidDate(today) && today.day >= monthStartDay.GetOr(1)
    ensures DayNumber(GetMonthDateRange(today, monthStartDay).end)
            == DayNumber(MonthStart(today.year, today.month + 1)) + monthStartDay.GetOr(1) - 2
  {
    PeriodEndDay(today.year, today.month, monthStartDay.GetOr(1));
  }

  lemma RangeNotReachedDays(today: CivilDate, monthStartDay: Option<int>)
    requires ValidDate(today) && today.day < monthStartDay.GetOr(1)
    ensures var msd := monthStartDay.GetOr(1);
            var r := GetMonthDateRange(today, monthStartDay);
            && DayNumber(r.start) == DayNumber(MonthStart(today.year, today.month - 1)) + msd - 1
            && DayNumber(r.end) == DayNumber(MonthStart(today.year, today.month)) + msd - 2
  {
    RangeNotReachedStart(today, monthStartDay);
    RangeNotReachedEnd(today, monthStartDay);
  }

  lemma RangeNotReachedStart(today: CivilDate, monthStartDay: Option<int>)
    requires ValidDate(today) && today.day < monthStartDay.GetOr(1)
    ensures DayNumber(GetMonthDateRange(today, monthStartDay).start)
            == DayNumber(MonthStart(today.year, today.month - 1)) + monthStartDay.GetOr(1) - 1
  {
    PeriodStartDay(today.year, today.month - 1, monthStartDay.GetOr(1));
  }

  lemma RangeNotReachedEnd(today: CivilDate, monthStartDay: Option<int>)
    requires ValidDate(today) && today.day < monthStartDay.GetOr(1)
    ensures DayNumber(GetMonthDateRange(today, monthStartDay).end)
            == DayNumber(MonthStart(today.year, today.month)) + monthStartDay.GetOr(1) - 2
  {
    PeriodEndDay(today.year, today.month - 1, monthStartDay.GetOr(1));
    SameMonthStart(today.year, today.month - 1 + 1, today.month);
  }

  /** With the default start day 1 the period is exactly the calendar month. */
  lemma CalendarMonthRange(today: CivilDate, monthStartDay: Option<int>)
    requires ValidDate(today)
    requires monthStartDay.GetOr(1) == 1
    ensures GetMonthDateRange(today, monthStartDay)
            == DateRange(CivilDate(today.year, today.month, 1),
                         CivilDate(today.year, today.month, DaysInMonth(today.year, today.month)))
  {
    var y, m := today.year, today.month;
    MakeDateValid(CivilDate(y, m, 1));
    if m < 11 {
      assert (m + 1) / 12 == 0 && (m + 1) % 12 == m + 1;
      assert NormalizeDay(y, m + 1, 0) == NormalizeDay(y, m, DaysInMonth(y, m));
    } else {
      assert (m + 1) / 12 == 1 && (m + 1) % 12 == 0;
      assert NormalizeDay(y + 1, 0, 0) == NormalizeDay(y, 11, 31);
    }
  }

  /** For start days 1..28, which every month has, the period contains today
      and is exactly as long as the month it starts in. */
  lemma MonthDateRangeContainsToday(today: CivilDate, monthStartDay: Option<int>)
    requires ValidDate(today)
    requires 1 <= monthStartDay.GetOr(1) <= 28
    ensures var r := GetMonthDateRange(today, monthStartDay);
            && DayNumber(r.start) <= DayNumber(today) <= DayNumber(r.end)
            && DayNumber(r.end) - DayNumber(r.start) + 1 == DaysInMonth(r.start.year, r.start.month)
  {
    if today.day >= monthStartDay.GetOr(1) {
      ReachedContainsToday(today, monthStartDay);
    } else {
      NotReachedContainsToday(today, monthStartDay);
    }
  }

  lemma ReachedContainsToday(today: CivilDate, monthStartDay: Option<int>)
    requires ValidDate(today)
    requires 1 <= monthStartDay.GetOr(1) <= today.day && monthStartDay.GetOr(1) <= 28
    ensures var r := GetMonthDateRange(today, monthStartDay);
            && DayNumber(r.start) <= DayNumber(today) <= DayNumber(r.end)
            && DayNumber(r.end) - DayNumber(r.start) + 1 == DaysInMonth(r.start.year, r.start.month)
  {
    ReachedStartsBefore(today, monthStartDay);
    ReachedLength(today, monthStartDay);
  }

  lemma ReachedStartsBefore(today: CivilDate, monthStartDay: Option<int>)
    requires ValidDate(today)
    requires 1 <= monthStartDay.GetOr(1) <= today.day
    ensures DayNumber(GetMonthDateRange(today, monthStartDay).start) <= DayNumber(today)
  {
    FirstOfMonth(today.year, today.month);
    RangeReachedStart(today, monthStartDay);
  }

  lemma ReachedLength(today: CivilDate, monthStartDay: Option<int>)
    requires ValidDate(today)
    requires 1 <= monthStartDay.GetOr(1) <= today.day && monthStartDay.GetOr(1) <= 28
    ensures var r := GetMonthDateRange(today, monthStartDay);
            && DayNumber(today) <= DayNumber(r.end)
            && DayNumber(r.end) - DayNumber(r.start) + 1 == DaysInMonth(r.start.year, r.start.month)
  {
    var r := GetMonthDateRange(today, monthStartDay);
    FirstOfMonth(today.year, today.month);
    RangeReachedDays(today, monthStartDay);
    PeriodThisMonth(today, monthStartDay.GetOr(1), r.start);
  }

  lemma NotReachedContainsToday(today: CivilDate, monthStartDay: Option<int>)
    requires ValidDate(today)
    requires today.day < monthStartDay.GetOr(1) <= 28
    ensures var r := GetMonthDateRange(today, monthStartDay);
            && DayNumber(r.start) <= DayNumber(today) <= DayNumber(r.end)
            && DayNumber(r.end) - DayNumber(r.start) + 1 == DaysInMonth(r.start.year, r.start.month)
  {
    NotReachedStartsBefore(today, monthStartDay);
    NotReachedEndsAfter(today, monthStartDay);
    NotReachedLength(today, monthStartDay);
  }

  lemma NotReachedEndsAfter(today: CivilDate, monthStartDay: Option<int>)
    requires ValidDate(today)
    requires today.day < monthStartDay.GetOr(1)
    ensures DayNumber(today) <= DayNumber(GetMonthDateRange(today, monthStartDay).end)
  {
    FirstOfMonth(today.year, today.month);
    RangeNotReachedEnd(today, monthStartDay);
  }

  lemma NotReachedStartsBefore(today: CivilDate, monthStartDay: Option<int>)
    requires ValidDate(today)
    requires today.day < monthStartDay.GetOr(1) <= 28
    ensures DayNumber(GetMonthDateRange(today, monthStartDay).start) <= DayNumber(today)
  {
    var r := GetMonthDateRange(today, monthStartDay);
    FirstOfMonth(today.year, today.month);
    RangeNotReachedStart(today, monthStartDay);
    PeriodLastMonth(today, monthStartDay.GetOr(1), r.start);
  }

  lemma NotReachedLength(today: CivilDate, monthStartDay: Option<int>)
    requires ValidDate(today)
    requires today.day < monthStartDay.GetOr(1) <= 28
    ensures var r := GetMonthDateRange(today, monthStartDay);
            DayNumber(r.end) - DayNumber(r.start) + 1 == DaysInMonth(r.start.year, r.start.month)
  {
    var r := GetMonthDateRange(today, monthStartDay);
    RangeNotReachedDays(today, monthStartDay);
    PeriodLastMonth(today, monthStartDay.GetOr(1), r.start);
  }

  /** The period starting on day `msd` of today's month: it starts in that
      month, whose length separates its first day from the next month's. */
  lemma PeriodThisMonth(today: CivilDate, msd: int, start: CivilDate)
    requires ValidDate(today) && 1 <= msd <= 28
    requires start == MakeDate(today.year, today.month, msd)
    ensures start.year == today.year && start.month == today.month
    ensures DayNumber(MonthStart(today.year, today.month + 1))
            == DayNumber(MonthStart(today.year, today.month)) + DaysInMonth(start.year, start.month)
  {
    FirstOfMonth(today.year, today.month);
    MonthStartStep(today.year, today.month);
    NormalizeNoCarry(today.year, today.month, msd);
  }

  /** The period starting on day `msd` of the month before today's: it
      starts in that month, whose length separates its first day from the
      first of today's month. */
  lemma PeriodLastMonth(today: CivilDate, msd: int, start: CivilDate)
    requires ValidDate(today) && 1 <= msd <= 28
    requires start == MakeDate(today.year, today.month - 1, msd)
    ensures var p := MonthStart(today.year, today.month - 1);
            start.year == p.year && start.month == p.month
    ensures DayNumber(MonthStart(today.year, today.month))
            == DayNumber(MonthStart(today.year, today.month - 1)) + DaysInMonth(start.year, start.month)
  {
    var y, mo := today.year, today.month;
    var p := MonthStart(y, mo - 1);
    assert start.year == p.year && start.month == p.month by {
      NormalizeNoCarry(p.year, p.month, msd);
    }
    MonthBefore(y, mo);
  }

  /** The first of month `m` is the previous month's length after the first
      of that previous month. */
  lemma MonthBefore(y: int, m: int)
    ensures var p := MonthStart(y, m - 1);
            DayNumber(MonthStart(y, m)) == DayNumber(p) + DaysInMonth(p.year, p.month)
  {
    MonthStartStep(y, m - 1);
    SameMonthStart(y, m - 1 + 1, m);
  }

  /** Equal month offsets give the same month. */
  lemma SameMonthStart(y: int, a: int, b: int)
    requires a == b
    ensures MonthStart(y, a) == MonthStart(y, b)
  {
  }

  /** A day that exists in its month is not carried anywhere. */
  lemma NormalizeNoCarry(y: int, m: int, d: int)
    requires 0 <= m < 12 && 1 <= d <= DaysInMonth(y, m)
    ensures NormalizeDay(y, m, d) == CivilDate(y, m, d)
  {
  }

  // ---------------------------------------------------------------------------
  // A start day the previous month does not have

  /** March 1, 2023 with start day 31: today is before the start day, so the
      period starts on "February 31", which the date normaliser carries to
      March 3; the period then starts after today and does not contain it. */
  lemma LateStartDayMissesToday()
    ensures var today := CivilDate(2023, 2, 1);
            var r := GetMonthDateRange(today, Some(31));
            r.start == CivilDate(2023, 2, 3) && DayNumber(r.start) > DayNumber(today)
  {
    var today := CivilDate(2023, 2, 1);
    assert MakeDate(2023, 1, 31) == NormalizeDay(2023, 1, 31);
    assert NormalizeDay(2023, 1, 31) == NormalizeDay(2023, 2, 3);
    assert NormalizeDay(2023, 2, 3) == CivilDate(2023, 2, 3);
  }

  /** Day `msd` of month (y, m), moved back to the month's last day when the
      month is shorter and up to day 1 when `msd` is below 1. */
  function ClampedStart(y: int, m: int, msd: int): (r: CivilDate)
    requires 0 <= m < 12
    ensures ValidDate(r) && r.year == y && r.month == m
    ensures 1 <= msd <= DaysInMonth(y, m) ==> r.day == msd
  {
    var dim := DaysInMonth(y, m);
    CivilDate(y, m, if msd < 1 then 1 else if msd > dim then dim else msd)
  }

  /** The budget month with the start day clamped into each month: it starts
      on this month's start day when today has reached it, otherwise on last
      month's, and it ends the day before the next start day. */
  function GetMonthDateRangeClamped(today: CivilDate, monthStartDay: Option<int>): (r: DateRange)
    requires ValidDate(today)
    ensures ValidDate(r.start) && ValidDate(r.end)
  {
    var msd := monthStartDay.GetOr(1);
    var here := ClampedStart(today.year, today.month, msd);
    if today.day >= here.day then
      var (ny, nm) := NextMonth(today.year, today.month);
      DateRange(here, PrevDay(ClampedStart(ny, nm, msd)))
    else
      var (py, pm) := PrevMonth(today.year, today.month);
      DateRange(ClampedStart(py, pm, msd), PrevDay(here))
  }

  /** Whatever the start day, the clamped period contains today. */
  lemma ClampedRangeContainsToday(today: CivilDate, monthStartDay: Option<int>)
    requires ValidDate(today)
    ensures var r := GetMonthDateRangeClamped(today, monthStartDay);
            DayNumber(r.start) <= DayNumber(today) <= DayNumber(r.end)
  {
    var y, mo := today.year, today.month;
    if today.day >= ClampedStart(y, mo, monthStartDay.GetOr(1)).day {
      MonthStep(y, mo);
    } else {
      var (py, pm) := PrevMonth(y, mo);
      MonthStep(py, pm);
    }
  }

  // ---------------------------------------------------------------------------
  // The period as a range of instants

  /** The instants of an expense query over the period, as written: from
      midnight at the start of the first day to midnight at the start of the
      last day, both included. */
  function PeriodInstants(r: DateRange): (w: (int, int))
    requires ValidDate(r.start) && ValidDate(r.end)
    ensures w.0 % MsPerDay == 0 && w.1 % MsPerDay == 0
  {
    (Midnight(r.start), Midnight(r.end))
  }

  /** As written, everything after midnight on the period's last day falls
      outside it: noon of that day, a day of the period, is not included. */
  lemma PeriodInstantsDropLastDay(r: DateRange)
    requires ValidDate(r.start) && ValidDate(r.end)
    ensures var t := Midnight(r.end) + MsPerDay / 2;
            var w := PeriodInstants(r);
            t / MsPerDay == DayNumber(r.end) && !(w.0 <= t <= w.1)
  {
  }

  /** The instants of the whole days of the period: from the first
      millisecond of the first day to the last millisecond of the last. */
  function PeriodInstantsWholeDays(r: DateRange): (w: (int, int))
    requires ValidDate(r.start) && ValidDate(r.end)
    ensures forall t :: w.0 <= t <= w.1 <==> DayNumber(r.start) <= t / MsPerDay <= DayNumber(r.end)
  {
    (Midnight(r.start), Midnight(r.end) + MsPerDay - 1)
  }
}
