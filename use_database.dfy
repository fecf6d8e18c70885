/** The data hooks over the local database: the writes each hook performs
    (settings, categories, expenses, projects and tasks, with the category
    rebalance, the project cascade and the task ordering rules) and the
    values derived from the rows they read (the expenses of the budget
    month, spending per category, task counts and due-date sets, and the
    analytics). A hook's "now" is a parameter. */
module UseDatabase {
  import opened Wrappers
  import opened Numeric
  import opened Text
  import opened Sequences
  import opened Calendar
  import opened Tables
  import opened Db

  // ---------------------------------------------------------------------------
  // Partial updates (`Partial<T>`): a field that is present replaces the
  // stored one; `updatedAt` is always stamped with the time of the update.

  datatype SettingsPatch = SettingsPatch(
    totalBudget: Option<real>, currency: Option<string>, currencySymbol: Option<string>,
    monthStartDay: Option<int>, createdAt: Option<int>)

  function PatchSettings(s: AppSettings, p: SettingsPatch, now: int): AppSettings {
    AppSettings(p.totalBudget.GetOr(s.totalBudget), p.currency.GetOr(s.currency),
                p.currencySymbol.GetOr(s.currencySymbol), p.monthStartDay.GetOr(s.monthStartDay),
                p.createdAt.GetOr(s.createdAt), now)
  }

  datatype CategoryPatch = CategoryPatch(
    name: Option<string>, icon: Option<string>, color: Option<string>, allocation: Option<Num>,
    percentage: Option<Num>, createdAt: Option<int>)

  function PatchCategory(c: BudgetCategory, p: CategoryPatch, now: int): BudgetCategory {
    BudgetCategory(p.name.GetOr(c.name), p.icon.GetOr(c.icon), p.color.GetOr(c.color),
                   p.allocation.GetOr(c.allocation), p.percentage.GetOr(c.percentage),
                   p.createdAt.GetOr(c.createdAt), now)
  }

  datatype ExpensePatch = ExpensePatch(
    categoryId: Option<int>, amount: Option<real>, note: Option<string>, date: Option<int>,
    createdAt: Option<int>)

  function PatchExpense(e: Expense, p: ExpensePatch, now: int): Expense {
    Expense(p.categoryId.GetOr(e.categoryId), p.amount.GetOr(e.amount), p.note.GetOr(e.note),
            p.date.GetOr(e.date), p.createdAt.GetOr(e.createdAt), now)
  }

  datatype ProjectPatch = ProjectPatch(
    name: Option<string>, description: Option<string>, color: Option<string>,
    priority: Option<Priority>, status: Option<ProjectStatus>, createdAt: Option<int>)

  function PatchProject(pr: Project, p: ProjectPatch, now: int): Project {
    Project(p.name.GetOr(pr.name), p.description.GetOr(pr.description), p.color.GetOr(pr.color),
            p.priority.GetOr(pr.priority), p.status.GetOr(pr.status), p.createdAt.GetOr(pr.createdAt), now)
  }

  /** Nullable task fields are `Option<Option<_>>` here: absent, or present
      with a value or with null. */
  datatype TaskPatch = TaskPatch(
    projectId: Option<Option<int>>, title: Option<string>, description: Option<string>,
    priority: Option<Priority>, dueDate: Option<Option<int>>, completed: Option<bool>,
    completedAt: Option<Option<int>>, order: Option<int>, createdAt: Option<int>)

  function PatchTask(t: Task, p: TaskPatch, now: int): Task {
    Task(p.projectId.GetOr(t.projectId), p.title.GetOr(t.title), p.description.GetOr(t.description),
         p.priority.GetOr(t.priority), p.dueDate.GetOr(t.dueDate), p.completed.GetOr(t.completed),
         p.completedAt.GetOr(t.completedAt), p.order.GetOr(t.order), p.createdAt.GetOr(t.createdAt), now)
  }

  /** The patch as a row transformation, for `Table.Update`. */
  function SettingsWith(p: SettingsPatch, now: int): AppSettings -> AppSettings { s => PatchSettings(s, p, now) }
  function CategoryWith(p: CategoryPatch, now: int): BudgetCategory -> BudgetCategory { c => PatchCategory(c, p, now) }
  function ExpenseWith(p: ExpensePatch, now: int): Expense -> Expense { e => PatchExpense(e, p, now) }
  function ProjectWith(p: ProjectPatch, now: int): Project -> Project { pr => PatchProject(pr, p, now) }
  function TaskWith(p: TaskPatch, now: int): Task -> Task { t => PatchTask(t, p, now) }

  // ---------------------------------------------------------------------------
  // useSettings

  /** `updateSettings`: patches the first settings row; with no settings row
      nothing is written. */
  method UpdateSettings(db: FinanceDB, updates: SettingsPatch, now: int)
    requires db.Valid()
    modifies db.settings
    ensures db.Valid() && db.settings.nextId == old(db.settings.nextId)
    ensures old(db.settings.rows) == map[] ==> db.settings.rows == old(db.settings.rows)
    ensures old(db.settings.rows) != map[] ==>
              var first := old(db.settings.First()).value;
              db.settings.rows == old(db.settings.rows)[first.id := PatchSettings(first.row, updates, now)]
  {
    var current := db.settings.First();
    if current.Some? && current.value.id != 0 {
      db.settings.Update(current.value.id, SettingsWith(updates, now));
    }
  }

  // ---------------------------------------------------------------------------
  // useCategories

  /** `addCategory`: stores the category stamped with the creation time under
      a key above every existing key. */
  method AddCategory(db: FinanceDB, category: BudgetCategory, now: int) returns (id: int)
    requires db.Valid()
    modifies db.categories
    ensures db.Valid()
    ensures id == old(db.categories.nextId) && forall k :: k in old(db.categories.rows) ==> k < id
    ensures db.categories.rows == old(db.categories.rows)[id := category.(createdAt := now, updatedAt := now)]
  {
    id := db.categories.Add(category.(createdAt := now, updatedAt := now));
  }

  /** `updateCategory`: patches the category if it exists. */
  method UpdateCategory(db: FinanceDB, id: int, updates: CategoryPatch, now: int)
    requires db.Valid()
    modifies db.categories
    ensures db.Valid() && db.categories.nextId == old(db.categories.nextId)
    ensures db.categories.rows == if id in old(db.categories.rows)
                                  then old(db.categories.rows)[id := PatchCategory(old(db.categories.rows)[id], updates, now)]
                                  else old(db.categories.rows)
  {
    db.categories.Update(id, CategoryWith(updates, now));
  }

  method DeleteCategory(db: FinanceDB, id: int)
    requires db.Valid()
    modifies db.categories
    ensures db.Valid() && db.categories.nextId == old(db.categories.nextId)
    ensures db.categories.rows == old(db.categories.rows) - {id}
  {
    db.categories.Delete(id);
  }

  /** `cats.reduce((sum, c) => sum + c.percentage, 0)`, added left to right. */
  function TotalPercentage(cats: seq<Keyed<BudgetCategory>>): (p: Num)
    ensures AllFinite(cats) ==> p.Fin?
  {
    if cats == [] then Fin(0.0)
    else Plus(TotalPercentage(cats[..|cats| - 1]), cats[|cats| - 1].row.percentage)
  }

  predicate AllFinite(cats: seq<Keyed<BudgetCategory>>) {
    forall i :: 0 <= i < |cats| ==> cats[i].row.percentage.Fin?
  }

  /** One category after a rebalance over the total `total`: its share of the
      total as a percentage, and that percentage of `budget` rounded to a
      whole amount. Name, icon, colour and creation time are kept. A zero
      total is not guarded against and leaves NaN or an infinity. */
  function Rebalanced(c: BudgetCategory, total: Num, budget: real, now: int): (r: BudgetCategory)
    ensures r.name == c.name && r.icon == c.icon && r.color == c.color
    ensures r.createdAt == c.createdAt && r.updatedAt == now
    ensures c.percentage.Fin? && total.Fin? && total.v != 0.0 ==> r.percentage == Fin(ShareOf(c.percentage.v, total.v))
    ensures r.percentage.Fin? ==> r.allocation == Fin(Round(PercentOfBudget(r.percentage.v, budget)) as real)
    ensures total == Fin(0.0) ==> !r.percentage.Fin? && !r.allocation.Fin?
  {
    var pct := Scale(Quot(c.percentage, total), 100.0);
    c.(percentage := pct, allocation := AllocationFor(pct, budget), updatedAt := now)
  }

  /** `Math.round((percentage / 100) * budget)` */
  function AllocationFor(pct: Num, budget: real): (a: Num)
    ensures pct.Fin? ==> a == Fin(Round(PercentOfBudget(pct.v, budget)) as real)
    ensures !pct.Fin? ==> !a.Fin?
  {
    var amount := Scale(Quot(pct, Fin(100.0)), budget);
    assert pct.Fin? ==> amount == Fin(PercentOfBudget(pct.v, budget));
    RoundNum(amount)
  }

  function RebalanceWith(total: Num, budget: real, now: int): BudgetCategory -> BudgetCategory {
    c => Rebalanced(c, total, budget, now)
  }

  /** The hook's `for (const c of cats) await table.update(c.id, ...)` loop:
      rewrites, one by one, every row of a complete listing of the table. */
  method UpdateListed<T>(table: Table<T>, listing: seq<Keyed<T>>, f: T -> T)
    requires table.Valid()
    requires forall i :: 0 <= i < |listing| ==> listing[i].id in table.rows
    requires forall k :: k in table.rows ==> Keyed(k, table.rows[k]) in listing
    requires forall i, j :: 0 <= i < j < |listing| ==> listing[i].id < listing[j].id
    modifies table
    ensures table.Valid() && table.nextId == old(table.nextId)
    ensures table.rows == MapValues(old(table.rows), f)
  {
    ghost var m0 := table.rows;
    var i := 0;
    while i < |listing|
      invariant 0 <= i <= |listing|
      invariant table.Valid() && table.nextId == old(table.nextId)
      invariant table.rows.Keys == m0.Keys
      invariant forall j :: 0 <= j < i ==> table.rows[listing[j].id] == f(m0[listing[j].id])
      invariant forall j :: i <= j < |listing| ==> table.rows[listing[j].id] == m0[listing[j].id]
    {
      table.Update(listing[i].id, f);
      i := i + 1;
    }
    forall k | k in m0 ensures table.rows[k] == f(m0[k]) {
      var j :| 0 <= j < |listing| && listing[j] == Keyed(k, m0[k]);
    }
    MapValuesUnique(table.rows, m0, f);
  }

  /** `rebalanceCategories(totalBudget)`: reads all categories, sums their
      percentages, then rewrites every category with its rebalanced
      percentage and allocation. */
  method RebalanceCategories(db: FinanceDB, totalBudget: real, now: int)
    requires db.Valid()
    modifies db.categories
    ensures db.Valid() && db.categories.nextId == old(db.categories.nextId)
    ensures db.categories.rows ==
              MapValues(old(db.categories.rows),
                        RebalanceWith(TotalPercentage(old(db.categories.ToArray())), totalBudget, now))
  {
    var cats := db.categories.ToArray();
    var total := TotalPercentage(cats);
    UpdateListed(db.categories, cats, RebalanceWith(total, totalBudget, now));
  }

  /** Rebalancing the listing row by row scales its total the same way: the
      new total is the old total over `total`, times 100. */
  lemma {:induction false} RebalancedTotal(cats: seq<Keyed<BudgetCategory>>, total: Num, budget: real, now: int)
    requires AllFinite(cats) && total.Fin? && total.v != 0.0
    ensures TotalPercentage(MapRows(cats, RebalanceWith(total, budget, now)))
            == Fin(ShareOf(TotalPercentage(cats).v, total.v))
  {
    var f := RebalanceWith(total, budget, now);
    if cats != [] {
      var n := |cats| - 1;
      var init := cats[..n];
      assert AllFinite(init);
      RebalancedTotal(init, total, budget, now);
      var mapped := MapRows(cats, f);
      var a, b, t := TotalPercentage(init).v, cats[n].row.percentage.v, total.v;
      assert TotalPercentage(mapped) == Fin(ShareOf(a, t) + ShareOf(b, t)) by {
        assert mapped[..n] == MapRows(init, f);
        assert mapped[n].row.percentage == Fin(ShareOf(b, t));
      }
      assert TotalPercentage(cats).v == a + b;
      ShareAdd(a, b, t);
    }
  }

  /** Every key of the table lies below the counter and every percentage is
      finite. */
  ghost predicate FiniteTable(m: map<int, BudgetCategory>, next: int) {
    forall k :: k in m ==> 1 <= k < next && m[k].percentage.Fin?
  }

  lemma ListingFinite(m: map<int, BudgetCategory>, next: int)
    requires FiniteTable(m, next)
    ensures AllFinite(Rows(m, 1, next))
  {
    RowsListing(m, 1, next);
  }

  /** With finite percentages and a non-zero total, the percentages after a
      rebalance add up to 100. */
  lemma RebalanceSumsTo100(m: map<int, BudgetCategory>, next: int, budget: real, now: int)
    requires FiniteTable(m, next)
    requires TotalPercentage(Rows(m, 1, next)) != Fin(0.0)
    ensures var t := TotalPercentage(Rows(m, 1, next));
            TotalPercentage(Rows(MapValues(m, RebalanceWith(t, budget, now)), 1, next)) == Fin(100.0)
  {
    ListingFinite(m, next);
    var t := TotalPercentage(Rows(m, 1, next));
    RowsMapValues(m, RebalanceWith(t, budget, now), 1, next);
    RebalancedTotal(Rows(m, 1, next), t, budget, now);
    ShareOfWhole(t.v);
  }

  /** Rebalancing a second time with the same budget and no edits in between
      changes no percentage and no allocation, because the total is then
      100. */
  lemma RebalanceIdempotent(m: map<int, BudgetCategory>, next: int, budget: real, now1: int, now2: int)
    requires FiniteTable(m, next)
    requires TotalPercentage(Rows(m, 1, next)) != Fin(0.0)
    ensures var t := TotalPercentage(Rows(m, 1, next));
            var m1 := MapValues(m, RebalanceWith(t, budget, now1));
            var t1 := TotalPercentage(Rows(m1, 1, next));
            var m2 := MapValues(m1, RebalanceWith(t1, budget, now2));
            forall k :: k in m ==> m2[k] == m1[k].(updatedAt := now2)
  {
    ListingFinite(m, next);
    var t := TotalPercentage(Rows(m, 1, next));
    var m1 := MapValues(m, RebalanceWith(t, budget, now1));
    RebalanceSumsTo100(m, next, budget, now1);
    var t1 := TotalPercentage(Rows(m1, 1, next));
    assert t1 == Fin(100.0);
    forall k | k in m
      ensures MapValues(m1, RebalanceWith(t1, budget, now2))[k] == m1[k].(updatedAt := now2)
    {
      assert m1[k].percentage.Fin?;
      assert ShareOf(m1[k].percentage.v, 100.0) == m1[k].percentage.v;
    }
  }

  // ---------------------------------------------------------------------------
  // useExpenses

  /** The start day stored in the first settings row, if there is one. */
  function StartDayOf(settings: Option<Keyed<AppSettings>>): Option<int> {
    if settings.Some? then Some(settings.value.row.monthStartDay) else None
  }

  function InWindow(lo: int, hi: int): Keyed<Expense> -> bool {
    (e: Keyed<Expense>) => lo <= e.row.date <= hi
  }

  /** `expenses`: the expenses dated between the budget month's two
      midnights, both included, for the start day of the settings row (1
      without one). They are listed in key order; the source's index query
      lists them by date. */
  function MonthExpenses(all: seq<Keyed<Expense>>, settings: Option<Keyed<AppSettings>>, today: CivilDate): (r: seq<Keyed<Expense>>)
    requires ValidDate(today)
    ensures var range := GetMonthDateRange(today, StartDayOf(settings));
            && (forall i :: 0 <= i < |r| ==> r[i] in all && Midnight(range.start) <= r[i].row.date <= Midnight(range.end))
            && (forall i :: 0 <= i < |all| && Midnight(range.start) <= all[i].row.date <= Midnight(range.end) ==> all[i] in r)
  {
    var w := PeriodInstants(GetMonthDateRange(today, StartDayOf(settings)));
    FilterKeeps(all, InWindow(w.0, w.1));
    Filter(all, InWindow(w.0, w.1))
  }

  method AddExpense(db: FinanceDB, expense: Expense, now: int) returns (id: int)
    requires db.Valid()
    modifies db.expenses
    ensures db.Valid()
    ensures id == old(db.expenses.nextId) && forall k :: k in old(db.expenses.rows) ==> k < id
    ensures db.expenses.rows == old(db.expenses.rows)[id := expense.(createdAt := now, updatedAt := now)]
  {
    id := db.expenses.Add(expense.(createdAt := now, updatedAt := now));
  }

  method UpdateExpense(db: FinanceDB, id: int, updates: ExpensePatch, now: int)
    requires db.Valid()
    modifies db.expenses
    ensures db.Valid() && db.expenses.nextId == old(db.expenses.nextId)
    ensures db.expenses.rows == if id in old(db.expenses.rows)
                                then old(db.expenses.rows)[id := PatchExpense(old(db.expenses.rows)[id], updates, now)]
                                else old(db.expenses.rows)
  {
    db.expenses.Update(id, ExpenseWith(updates, now));
  }

  method DeleteExpense(db: FinanceDB, id: int)
    requires db.Valid()
    modifies db.expenses
    ensures db.Valid() && db.expenses.nextId == old(db.expenses.nextId)
    ensures db.expenses.rows == old(db.expenses.rows) - {id}
  {
    db.expenses.Delete(id);
  }

  function CategoryOf(e: Keyed<Expense>): int {
    e.row.categoryId
  }

  function CategoryIs(c: int): (p: Keyed<Expense> -> bool)
    ensures forall e :: p(e) <==> e.row.categoryId == c
  {
    KeyIs(CategoryOf, c)
  }

  function CategoryIsNot(c: int): (p: Keyed<Expense> -> bool)
    ensures forall e :: p(e) <==> e.row.categoryId != c
  {
    KeyIsNot(CategoryOf, c)
  }

  function AmountOf(e: Keyed<Expense>): real {
    e.row.amount
  }

  /** `getExpensesByCategory(c)`: the expenses of category `c`, in the order
      of `exps`. */
  function ExpensesByCategory(exps: seq<Keyed<Expense>>, c: int): (r: seq<Keyed<Expense>>)
    ensures forall i :: 0 <= i < |r| ==> r[i] in exps && r[i].row.categoryId == c
    ensures forall i :: 0 <= i < |exps| && exps[i].row.categoryId == c ==> exps[i] in r
  {
    FilterKeeps(exps, CategoryIs(c));
    Filter(exps, CategoryIs(c))
  }

  /** `getTotalSpent()` */
  function TotalSpent(exps: seq<Keyed<Expense>>): real {
    SumOf(exps, AmountOf)
  }

  /** `getSpentByCategory(c)`: the total of the expenses of category `c`; an
      id that no expense carries gives 0. */
  function SpentByCategory(exps: seq<Keyed<Expense>>, c: int): (r: real)
    ensures (forall i :: 0 <= i < |exps| ==> exps[i].row.categoryId != c) ==> r == 0.0
  {
    var mine := Filter(exps, CategoryIs(c));
    assert (forall i :: 0 <= i < |exps| ==> exps[i].row.categoryId != c) ==> mine == [] by {
      if |mine| > 0 {
        assert mine[0] in exps && mine[0].row.categoryId == c;
      }
    }
    SumOf(mine, AmountOf)
  }

  predicate NonNegativeAmounts(exps: seq<Keyed<Expense>>) {
    forall i :: 0 <= i < |exps| ==> exps[i].row.amount >= 0.0
  }

  lemma {:induction false} SumNonNegative(exps: seq<Keyed<Expense>>)
    requires NonNegativeAmounts(exps)
    ensures TotalSpent(exps) >= 0.0
  {
    if exps != [] {
      assert NonNegativeAmounts(exps[1..]);
      SumNonNegative(exps[1..]);
    }
  }

  lemma FilterNonNegative(exps: seq<Keyed<Expense>>, p: Keyed<Expense> -> bool)
    requires NonNegativeAmounts(exps)
    ensures NonNegativeAmounts(Filter(exps, p))
  {
  }

  /** With no negative amounts, one category never spends more than the
      total. */
  lemma SpentWithinTotal(exps: seq<Keyed<Expense>>, c: int)
    requires NonNegativeAmounts(exps)
    ensures 0.0 <= SpentByCategory(exps, c) <= TotalSpent(exps)
  {
    SumOfPartition(exps, CategoryIs(c), CategoryIsNot(c), AmountOf);
    FilterNonNegative(exps, CategoryIs(c));
    FilterNonNegative(exps, CategoryIsNot(c));
    SumNonNegative(Filter(exps, CategoryIs(c)));
    SumNonNegative(Filter(exps, CategoryIsNot(c)));
  }

  /** The spending of each category in `ids`, added up. */
  function SpentOver(ids: seq<int>, exps: seq<Keyed<Expense>>): real {
    if ids == [] then 0.0 else SpentByCategory(exps, ids[0]) + SpentOver(ids[1..], exps)
  }

  /** When every expense belongs to one of the categories `ids` and no id is
      listed twice, the per-category spending adds up to the total. */
  lemma {:induction false} SpendSplitsByCategory(ids: seq<int>, exps: seq<Keyed<Expense>>)
    requires forall i, j :: 0 <= i < j < |ids| ==> ids[i] != ids[j]
    requires forall i :: 0 <= i < |exps| ==> exps[i].row.categoryId in ids
    ensures SpentOver(ids, exps) == TotalSpent(exps)
  {
    SpentOverKeys(ids, exps);
    SumByKeys(ids, exps, CategoryOf, AmountOf);
  }

  lemma {:induction false} SpentOverKeys(ids: seq<int>, exps: seq<Keyed<Expense>>)
    ensures SpentOver(ids, exps) == SumOverKeys(ids, exps, CategoryOf, AmountOf)
  {
    if ids != [] {
      SpentOverKeys(ids[1..], exps);
    }
  }

  // ---------------------------------------------------------------------------
  // useProjects

  method AddProject(db: FinanceDB, project: Project, now: int) returns (id: int)
    requires db.Valid()
    modifies db.projects
    ensures db.Valid()
    ensures id == old(db.projects.nextId) && forall k :: k in old(db.projects.rows) ==> k < id
    ensures db.projects.rows == old(db.projects.rows)[id := project.(createdAt := now, updatedAt := now)]
  {
    id := db.projects.Add(project.(createdAt := now, updatedAt := now));
  }

  method UpdateProject(db: FinanceDB, id: int, updates: ProjectPatch, now: int)
    requires db.Valid()
    modifies db.projects
    ensures db.Valid() && db.projects.nextId == old(db.projects.nextId)
    ensures db.projects.rows == if id in old(db.projects.rows)
                                then old(db.projects.rows)[id := PatchProject(old(db.projects.rows)[id], updates, now)]
                                else old(db.projects.rows)
  {
    db.projects.Update(id, ProjectWith(updates, now));
  }

  function BelongsTo(projectId: int): Task -> bool {
    (t: Task) => t.projectId == Some(projectId)
  }

  /** The tasks that do not belong to project `projectId`, unchanged. */
  function WithoutProjectTasks(tasks: map<int, Task>, projectId: int): (r: map<int, Task>)
    ensures forall k :: k in r ==> k in tasks && r[k] == tasks[k] && r[k].projectId != Some(projectId)
    ensures forall k :: k in tasks && tasks[k].projectId != Some(projectId) ==> k in r
  {
    map k | k in tasks && tasks[k].projectId != Some(projectId) :: tasks[k]
  }

  /** `deleteProject(id)`: deletes the project's tasks, then the project. */
  method DeleteProject(db: FinanceDB, id: int)
    requires db.Valid()
    modifies db.tasks, db.projects
    ensures db.Valid()
    ensures db.tasks.nextId == old(db.tasks.nextId) && db.projects.nextId == old(db.projects.nextId)
    ensures db.tasks.rows == WithoutProjectTasks(old(db.tasks.rows), id)
    ensures db.projects.rows == old(db.projects.rows) - {id}
  {
    db.tasks.DeleteWhere(BelongsTo(id));
    db.projects.Delete(id);
  }

  /** Every task that names a project names one that exists. */
  ghost predicate NoOrphans(tasks: map<int, Task>, projects: map<int, Project>) {
    forall k :: k in tasks && tasks[k].projectId.Some? ==> tasks[k].projectId.value in projects
  }

  /** The cascade keeps every task reference pointing at an existing
      project. */
  lemma CascadeLeavesNoOrphans(tasks: map<int, Task>, projects: map<int, Project>, id: int)
    requires NoOrphans(tasks, projects)
    ensures NoOrphans(WithoutProjectTasks(tasks, id), projects - {id})
  {
  }

  // ---------------------------------------------------------------------------
  // useTasks

  /** `orderBy('order').last()?.order`: the largest order, if any task exists. */
  function MaxOrder(ts: seq<Keyed<Task>>): (r: Option<int>)
    ensures r.None? <==> ts == []
    ensures r.Some? ==> forall i :: 0 <= i < |ts| ==> ts[i].row.order <= r.value
    ensures r.Some? ==> exists i :: 0 <= i < |ts| && ts[i].row.order == r.value
  {
    if ts == [] then None
    else
      var rest := MaxOrder(ts[1..]);
      if rest.None? || ts[0].row.order >= rest.value then Some(ts[0].row.order)
      else
        assert forall i :: 1 <= i < |ts| ==> ts[i] == ts[1..][i - 1];
        var j :| 0 <= j < |ts[1..]| && ts[1..][j].row.order == rest.value;
        assert ts[j + 1].row.order == rest.value;
        rest
  }

  /** `(maxOrder?.order ?? -1) + 1` */
  function NextOrder(ts: seq<Keyed<Task>>): (o: int)
    ensures forall i :: 0 <= i < |ts| ==> ts[i].row.order < o
    ensures ts == [] ==> o == 0
  {
    MaxOrder(ts).GetOr(-1) + 1
  }

  /** `addTask`: the new task goes after every existing one in the order. */
  method AddTask(db: FinanceDB, task: Task, now: int) returns (id: int)
    requires db.Valid()
    modifies db.tasks
    ensures db.Valid()
    ensures id == old(db.tasks.nextId) && forall k :: k in old(db.tasks.rows) ==> k < id
    ensures db.tasks.rows == old(db.tasks.rows)[id := task.(order := NextOrder(old(db.tasks.ToArray())),
                                                            createdAt := now, updatedAt := now)]
    ensures forall k :: k in old(db.tasks.rows) ==> old(db.tasks.rows)[k].order < db.tasks.rows[id].order
    ensures old(db.tasks.rows) == map[] ==> db.tasks.rows[id].order == 0
  {
    var all := db.tasks.ToArray();
    var order := NextOrder(all);
    forall k | k in db.tasks.rows ensures db.tasks.rows[k].order < order {
      var j :| 0 <= j < |all| && all[j] == Keyed(k, db.tasks.rows[k]);
    }
    assert db.tasks.rows == map[] ==> all == [] by {
      if all != [] {
        assert all[0].id in db.tasks.rows;
      }
    }
    id := db.tasks.Add(task.(order := order, createdAt := now, updatedAt := now));
  }

  method UpdateTask(db: FinanceDB, id: int, updates: TaskPatch, now: int)
    requires db.Valid()
    modifies db.tasks
    ensures db.Valid() && db.tasks.nextId == old(db.tasks.nextId)
    ensures db.tasks.rows == if id in old(db.tasks.rows)
                             then old(db.tasks.rows)[id := PatchTask(old(db.tasks.rows)[id], updates, now)]
                             else old(db.tasks.rows)
  {
    db.tasks.Update(id, TaskWith(updates, now));
  }

  /** A task with its completion flipped: the completion time is set exactly
      when it becomes completed and cleared otherwise. */
  function Toggled(t: Task, now: int): (r: Task)
    ensures r.completed == !t.completed
    ensures r.completedAt.Some? <==> r.completed
    ensures r.completed ==> r.completedAt == Some(now)
    ensures r.(completed := t.completed, completedAt := t.completedAt, updatedAt := t.updatedAt) == t
  {
    t.(completed := !t.completed, completedAt := if !t.completed then Some(now) else None, updatedAt := now)
  }

  /** `toggleTask(id)`; a missing id is left alone. */
  method ToggleTask(db: FinanceDB, id: int, now: int)
    requires db.Valid()
    modifies db.tasks
    ensures db.Valid() && db.tasks.nextId == old(db.tasks.nextId)
    ensures db.tasks.rows == if id in old(db.tasks.rows)
                             then old(db.tasks.rows)[id := Toggled(old(db.tasks.rows)[id], now)]
                             else old(db.tasks.rows)
  {
    var task := db.tasks.Get(id);
    if task.Some? {
      var t := task.value;
      db.tasks.Update(id, _ => t.(completed := !t.completed,
                                  completedAt := if !t.completed then Some(now) else None,
                                  updatedAt := now));
    }
  }

  /** Completed exactly when a completion time is recorded. */
  ghost predicate CompletionInSync(tasks: map<int, Task>) {
    forall k :: k in tasks ==> (tasks[k].completed <==> tasks[k].completedAt.Some?)
  }

  lemma ToggleKeepsSync(tasks: map<int, Task>, id: int, now: int)
    requires CompletionInSync(tasks)
    ensures CompletionInSync(if id in tasks then tasks[id := Toggled(tasks[id], now)] else tasks)
  {
  }

  /** `update(id, { order, updatedAt })` on a task map; a missing id is left
      alone. */
  function SetOrder(m: map<int, Task>, id: int, order: int, now: int): map<int, Task> {
    if id in m then m[id := m[id].(order := order, updatedAt := now)] else m
  }

  /** The tasks after giving `ids[0]`, `ids[1]`, ... the orders 0, 1, ... in
      turn. */
  function Reordered(m: map<int, Task>, ids: seq<int>, now: int): map<int, Task>
    decreases |ids|
  {
    if ids == [] then m
    else SetOrder(Reordered(m, ids[..|ids| - 1], now), ids[|ids| - 1], |ids| - 1, now)
  }

  /** The last position of `k` in `ids`, or -1. */
  function LastIndexOf(ids: seq<int>, k: int): (r: int)
    ensures -1 <= r < |ids|
    ensures r >= 0 ==> ids[r] == k && forall j :: r < j < |ids| ==> ids[j] != k
    ensures r == -1 <==> k !in ids
  {
    if ids == [] then -1
    else if ids[|ids| - 1] == k then |ids| - 1
    else LastIndexOf(ids[..|ids| - 1], k)
  }

  /** After a reorder each listed task has the order of its last position in
      the list (later duplicates win) and every other task is unchanged. */
  lemma {:induction false} ReorderedOrders(m: map<int, Task>, ids: seq<int>, now: int)
    ensures var r := Reordered(m, ids, now);
            && (forall k :: k in r <==> k in m)
            && (forall k :: k in m && k !in ids ==> r[k] == m[k])
            && (forall k :: k in m && k in ids ==> r[k] == m[k].(order := LastIndexOf(ids, k), updatedAt := now))
    decreases |ids|
  {
    if ids != [] {
      var n := |ids| - 1;
      ReorderedOrders(m, ids[..n], now);
      forall k | k in m
        ensures k !in ids ==> Reordered(m, ids, now)[k] == m[k]
        ensures k in ids ==> Reordered(m, ids, now)[k] == m[k].(order := LastIndexOf(ids, k), updatedAt := now)
      {
        if k != ids[n] {
          assert k in ids <==> k in ids[..n] by {
            assert ids == ids[..n] + [ids[n]];
          }
        }
      }
    }
  }

  /** `reorderTasks(taskIds)` */
  method ReorderTasks(db: FinanceDB, taskIds: seq<int>, now: int)
    requires db.Valid()
    modifies db.tasks
    ensures db.Valid() && db.tasks.nextId == old(db.tasks.nextId)
    ensures db.tasks.rows == Reordered(old(db.tasks.rows), taskIds, now)
  {
    var i := 0;
    while i < |taskIds|
      invariant 0 <= i <= |taskIds|
      invariant db.tasks.Valid() && db.tasks.nextId == old(db.tasks.nextId)
      invariant db.tasks.rows == Reordered(old(db.tasks.rows), taskIds[..i], now)
    {
      assert taskIds[..i + 1][..i] == taskIds[..i];
      db.tasks.Update(taskIds[i], (t: Task) => t.(order := i, updatedAt := now));
      i := i + 1;
    }
    assert taskIds[..|taskIds|] == taskIds;
  }

  method DeleteTask(db: FinanceDB, id: int)
    requires db.Valid()
    modifies db.tasks
    ensures db.Valid() && db.tasks.nextId == old(db.tasks.nextId)
    ensures db.tasks.rows == old(db.tasks.rows) - {id}
  {
    db.tasks.Delete(id);
  }

  function IsDone(t: Keyed<Task>): bool { t.row.completed }
  function IsOpen(t: Keyed<Task>): bool { !t.row.completed }

  /** `getCompletedCount()`: the number of completed tasks. */
  function CompletedCount(ts: seq<Keyed<Task>>): (n: nat)
    ensures n <= |ts|
    ensures n == |set i | 0 <= i < |ts| && ts[i].row.completed|
  {
    FilterCountOf(ts, IsDone, set i | 0 <= i < |ts| && ts[i].row.completed);
    |Filter(ts, IsDone)|
  }

  /** `getPendingCount()`: the number of tasks not completed. */
  function PendingCount(ts: seq<Keyed<Task>>): (n: nat)
    ensures n <= |ts|
    ensures n == |set i | 0 <= i < |ts| && !ts[i].row.completed|
  {
    FilterCountOf(ts, IsOpen, set i | 0 <= i < |ts| && !ts[i].row.completed);
    |Filter(ts, IsOpen)|
  }

  /** Every task is either completed or pending. */
  lemma CountsPartition(ts: seq<Keyed<Task>>)
    ensures CompletedCount(ts) + PendingCount(ts) == |ts|
  {
    FilterPartitionLength(ts, IsDone, IsOpen);
  }

  /** `tomorrow`: today's date with the day advanced by one. */
  function Tomorrow(today: CivilDate): CivilDate {
    MakeDate(today.year, today.month, today.day + 1)
  }

  lemma TomorrowMidnight(today: CivilDate)
    requires ValidDate(today)
    ensures Midnight(Tomorrow(today)) == Midnight(today) + MsPerDay
  {
    MakeDateShift(today, 1);
  }

  function DueIn(lo: int, hi: int): Keyed<Task> -> bool {
    (t: Keyed<Task>) => t.row.dueDate.Some? && lo <= t.row.dueDate.value < hi
  }

  function OverdueBefore(t0: int): Keyed<Task> -> bool {
    (t: Keyed<Task>) => !t.row.completed && t.row.dueDate.Some? && t.row.dueDate.value < t0
  }

  /** `getTodayTasks()`: the tasks due from today's midnight up to, not
      including, tomorrow's, completed or not. */
  function TodayTasks(ts: seq<Keyed<Task>>, today: CivilDate): (r: seq<Keyed<Task>>)
    requires ValidDate(today)
    ensures forall i :: 0 <= i < |r| ==>
              r[i] in ts && r[i].row.dueDate.Some? && r[i].row.dueDate.value / MsPerDay == DayNumber(today)
    ensures forall i ::
              0 <= i < |ts| && ts[i].row.dueDate.Some? && ts[i].row.dueDate.value / MsPerDay == DayNumber(today)
              ==> ts[i] in r
  {
    TomorrowMidnight(today);
    FilterKeeps(ts, DueIn(Midnight(today), Midnight(Tomorrow(today))));
    Filter(ts, DueIn(Midnight(today), Midnight(Tomorrow(today))))
  }

  /** `getOverdueTasks()`: open tasks due before today's midnight. */
  function OverdueTasks(ts: seq<Keyed<Task>>, today: CivilDate): (r: seq<Keyed<Task>>)
    requires ValidDate(today)
    ensures forall i :: 0 <= i < |r| ==>
              r[i] in ts && !r[i].row.completed && r[i].row.dueDate.Some? &&
              r[i].row.dueDate.value / MsPerDay < DayNumber(today)
    ensures forall i ::
              0 <= i < |ts| && !ts[i].row.completed && ts[i].row.dueDate.Some? &&
              ts[i].row.dueDate.value / MsPerDay < DayNumber(today)
              ==> ts[i] in r
  {
    FilterKeeps(ts, OverdueBefore(Midnight(today)));
    Filter(ts, OverdueBefore(Midnight(today)))
  }

  /** No task is both due today and overdue. */
  lemma TodayNotOverdue(ts: seq<Keyed<Task>>, today: CivilDate)
    requires ValidDate(today)
    ensures forall t :: t in TodayTasks(ts, today) ==> t !in OverdueTasks(ts, today)
  {
    var a, b := TodayTasks(ts, today), OverdueTasks(ts, today);
    forall t | t in a ensures t !in b {
      var i :| 0 <= i < |a| && a[i] == t;
      forall j | 0 <= j < |b| ensures b[j] != t {
      }
    }
  }

  // ---------------------------------------------------------------------------
  // useAnalytics

  /** `settings?.totalBudget ?? 0` */
  function TotalBudget(settings: Option<Keyed<AppSettings>>): real {
    if settings.Some? then settings.value.row.totalBudget else 0.0
  }

  /** `savingsRate`: the unspent share of the budget in percent; 0 for a
      budget that is not positive. */
  function SavingsRate(totalBudget: real, totalSpent: real): (r: real)
    ensures totalBudget <= 0.0 ==> r == 0.0
    ensures totalBudget > 0.0 && 0.0 <= totalSpent <= totalBudget ==> 0.0 <= r <= 100.0
    ensures totalBudget > 0.0 ==> (r == 100.0 <==> totalSpent == 0.0)
    ensures totalBudget > 0.0 ==> (r < 0.0 <==> totalSpent > totalBudget)
  {
    var totalSaved := totalBudget - totalSpent;
    if totalBudget > 0.0 then (totalSaved / totalBudget) * 100.0 else 0.0
  }

  /** A row of `categoryBreakdown`. */
  datatype CategorySpend = CategorySpend(id: int, category: BudgetCategory, spent: real, remaining: Num, percentSpent: Num)

  function SpendOf(c: Keyed<BudgetCategory>, exps: seq<Keyed<Expense>>): (r: CategorySpend)
    ensures r.id == c.id && r.category == c.row && r.spent == SpentByCategory(exps, c.id)
    ensures c.row.allocation.Fin? ==> r.remaining == Fin(c.row.allocation.v - r.spent)
    ensures !IsPositive(c.row.allocation) ==> r.percentSpent == Fin(0.0)
    ensures c.row.allocation.Fin? && c.row.allocation.v > 0.0 ==>
              r.percentSpent == Fin(ShareOf(r.spent, c.row.allocation.v))
  {
    var spent := SpentByCategory(exps, c.id);
    CategorySpend(c.id, c.row, spent, Plus(c.row.allocation, Fin(-spent)),
                  if IsPositive(c.row.allocation) then Scale(Quot(Fin(spent), c.row.allocation), 100.0) else Fin(0.0))
  }

  /** `categoryBreakdown`: one row per category, in order. */
  function Breakdown(cats: seq<Keyed<BudgetCategory>>, exps: seq<Keyed<Expense>>): (r: seq<CategorySpend>)
    ensures |r| == |cats|
    ensures forall i :: 0 <= i < |r| ==> r[i] == SpendOf(cats[i], exps)
  {
    seq(|cats|, i requires 0 <= i < |cats| => SpendOf(cats[i], exps))
  }

  /** Spending within a finite positive allocation is between 0 and 100
      percent of it, and leaves a remainder that is not negative. */
  lemma PercentSpentBounds(c: Keyed<BudgetCategory>, exps: seq<Keyed<Expense>>)
    requires c.row.allocation.Fin? && c.row.allocation.v > 0.0
    requires NonNegativeAmounts(exps) && SpentByCategory(exps, c.id) <= c.row.allocation.v
    ensures var s := SpendOf(c, exps);
            s.percentSpent.Fin? && 0.0 <= s.percentSpent.v <= 100.0 && s.remaining.v >= 0.0
  {
    SpentWithinTotal(exps, c.id);
    ShareBounds(SpentByCategory(exps, c.id), c.row.allocation.v);
  }

  datatype WeekSpend = WeekSpend(week: string, spent: real)

  /** The Sunday that starts the week `i` weeks before the current one. */
  function WeekStart(today: CivilDate, i: int): (d: CivilDate)
    requires ValidDate(today)
    ensures ValidDate(d)
  {
    MakeDate(today.year, today.month, today.day - i * 7 - DayOfWeek(today))
  }

  /** 23:59:59.999 on the sixth day after `ws`. */
  function WeekEndInstant(ws: CivilDate): int
    requires ValidDate(ws)
  {
    Midnight(MakeDate(ws.year, ws.month, ws.day + 6)) + 23 * 3_600_000 + 59 * 60_000 + 59 * 1000 + 999
  }

  /** The spending of the week that started `i` weeks before this one. */
  function WeekSpent(exps: seq<Keyed<Expense>>, today: CivilDate, i: int): real
    requires ValidDate(today)
  {
    var ws := WeekStart(today, i);
    TotalSpent(Filter(exps, InWindow(Midnight(ws), WeekEndInstant(ws))))
  }

  /** `weeklyData()`: the spending of the last four Sunday-to-Saturday weeks,
      oldest first, labelled "Week 1" to "Week 4". */
  method WeeklyData(exps: seq<Keyed<Expense>>, today: CivilDate) returns (weeks: seq<WeekSpend>)
    requires ValidDate(today)
    ensures |weeks| == 4
    ensures forall j :: 0 <= j < 4 ==> weeks[j] == WeekRow(exps, today, j)
  {
    weeks := [];
    var i := 3;
    while i >= 0
      invariant -1 <= i <= 3
      invariant |weeks| == 3 - i
      invariant WeeksListed(weeks, exps, today)
    {
      var weekStart := WeekStart(today, i);
      var lo := Midnight(weekStart);
      var hi := WeekEndInstant(weekStart);
      var weekExpenses := Filter(exps, InWindow(lo, hi));
      var week := WeekSpend("Week " + IntToString(4 - i), TotalSpent(weekExpenses));
      WeekEntry(exps, today, i, |weeks|);
      ListWeek(weeks, week, exps, today);
      weeks := weeks + [week];
      i := i - 1;
    }
  }

  /** Row `j` of the chart: "Week j+1" and the spending of the week that
      started `3 - j` weeks before this one. */
  function WeekRow(exps: seq<Keyed<Expense>>, today: CivilDate, j: int): WeekSpend
    requires ValidDate(today)
  {
    WeekSpend("Week " + IntToString(j + 1), WeekSpent(exps, today, 3 - j))
  }

  /** Every entry of `weeks` is the row its position names. */
  ghost predicate WeeksListed(weeks: seq<WeekSpend>, exps: seq<Keyed<Expense>>, today: CivilDate)
    requires ValidDate(today)
  {
    forall j :: 0 <= j < |weeks| ==> weeks[j] == WeekRow(exps, today, j)
  }

  lemma ListWeek(weeks: seq<WeekSpend>, week: WeekSpend, exps: seq<Keyed<Expense>>, today: CivilDate)
    requires ValidDate(today) && WeeksListed(weeks, exps, today)
    requires week == WeekRow(exps, today, |weeks|)
    ensures WeeksListed(weeks + [week], exps, today)
  {
    var ws := weeks + [week];
    forall j | 0 <= j < |ws| ensures ws[j] == WeekRow(exps, today, j) {
      if j < |weeks| {
        assert ws[j] == weeks[j];
      }
    }
  }

  /** The entry computed for the week `i` weeks back is the one listed at
      position `j = 3 - i`. */
  lemma WeekEntry(exps: seq<Keyed<Expense>>, today: CivilDate, i: int, j: int)
    requires ValidDate(today) && i + j == 3
    ensures var ws := WeekStart(today, i);
            WeekSpend("Week " + IntToString(4 - i), TotalSpent(Filter(exps, InWindow(Midnight(ws), WeekEndInstant(ws)))))
            == WeekRow(exps, today, j)
  {
    assert 4 - i == j + 1 && 3 - j == i;
  }

  /** Each week starts on a Sunday, `7 i` days plus the weekday before today. */
  lemma WeekStartIsSunday(today: CivilDate, i: int)
    requires ValidDate(today)
    ensures DayNumber(WeekStart(today, i)) == DayNumber(today) - 7 * i - DayOfWeek(today)
    ensures DayOfWeek(WeekStart(today, i)) == 0
  {
    var w := DayOfWeek(today);
    MakeDateShift(today, -i * 7 - w);
    var n := DayNumber(today);
    assert (n + 4) % 7 == w;
    assert (n - 7 * i - w + 4) % 7 == 0 by {
      assert n + 4 == 7 * ((n + 4) / 7) + w;
      assert n - 7 * i - w + 4 == 7 * ((n + 4) / 7 - i);
    }
  }

  /** A week that starts on the valid date `ws` ends one millisecond before
      seven whole days have passed. */
  lemma WeekEndsAfterSevenDays(ws: CivilDate)
    requires ValidDate(ws)
    ensures WeekEndInstant(ws) == Midnight(ws) + 7 * MsPerDay - 1
  {
    var n := DayNumber(ws);
    MakeDateShift(ws, 6);
    assert Midnight(MakeDate(ws.year, ws.month, ws.day + 6)) == (n + 6) * MsPerDay;
    assert (n + 6) * MsPerDay == n * MsPerDay + 6 * MsPerDay;
  }

  /** A week is seven whole days, and it ends one millisecond before the
      next week starts, so the four buckets are adjacent. */
  lemma WeeksAdjacent(today: CivilDate, i: int)
    requires ValidDate(today)
    ensures WeekEndInstant(WeekStart(today, i)) == Midnight(WeekStart(today, i)) + 7 * MsPerDay - 1
    ensures WeekEndInstant(WeekStart(today, i + 1)) + 1 == Midnight(WeekStart(today, i))
  {
    var ws := WeekStart(today, i);
    var ws1 := WeekStart(today, i + 1);
    WeekEndsAfterSevenDays(ws);
    WeekEndsAfterSevenDays(ws1);
    WeekStartIsSunday(today, i);
    WeekStartIsSunday(today, i + 1);
    var n1 := DayNumber(ws1);
    assert DayNumber(ws) == n1 + 7;
    assert Midnight(ws1) + 7 * MsPerDay == (n1 + 7) * MsPerDay;
  }

  /** The current week (the last bucket) contains the present instant. */
  lemma CurrentWeekContainsNow(c: Clock)
    requires ValidClock(c)
    ensures Midnight(WeekStart(c.today, 0)) <= Instant(c) <= WeekEndInstant(WeekStart(c.today, 0))
  {
    WeekStartIsSunday(c.today, 0);
    WeeksAdjacent(c.today, 0);
  }

  /** `productivityScore()`: the completed share of all tasks in whole
      percent, 100 when there are none. */
  function ProductivityScore(ts: seq<Keyed<Task>>): (r: int)
    ensures 0 <= r <= 100
    ensures ts == [] ==> r == 100
    ensures ts != [] && CompletedCount(ts) == |ts| ==> r == 100
    ensures ts != [] && CompletedCount(ts) == 0 ==> r == 0
  {
    var total := |ts|;
    if total == 0 then 100
    else
      var x := ShareOf(CompletedCount(ts) as real, total as real);
      ShareBounds(CompletedCount(ts) as real, total as real);
      RoundBounds(x, 0, 100);
      Round(x)
  }
}
