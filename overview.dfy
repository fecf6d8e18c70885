/** The overview page: the savings ring (spent, saved and the percentage
    saved), the 28-day activity grid, the top four spending categories with
    their bar heights, and the count of projects still open. */
module OverviewPage {
  import opened Wrappers
  import opened Numeric
  import opened Sequences
  import opened Calendar
  import opened Documents
  import opened Grouping
  import opened MoneyPage
  import opened ProjectsPage

  /** A transaction as the overview keeps it: the amount as `Number(x) || 0`
      and the date as an instant in milliseconds. The page itself adds the
      amount without `|| 0`, so a missing amount would be NaN there. */
  datatype Row = Row(categoryName: Option<string>, amount: real, date: int)

  function RowOf(d: TxDoc): Option<Row> {
    if d.date.Stamp? then Some(Row(d.categoryName, NumberOrZero(d.amount), d.date.ms)) else None
  }

  /** The snapshot mapping `date: d.data().date.toDate()`: a document whose
      date is not a `Timestamp` makes the mapping throw, and the page keeps
      the list it had (`None`). */
  function Rows(docs: seq<TxDoc>): (r: Option<seq<Row>>)
    ensures r.Some? <==> forall i :: 0 <= i < |docs| ==> docs[i].date.Stamp?
    ensures r.Some? ==> |r.value| == |docs| && forall i :: 0 <= i < |docs| ==> Some(r.value[i]) == RowOf(docs[i])
  {
    if docs == [] then Some([])
    else
      match (RowOf(docs[0]), Rows(docs[1..]))
      case (Some(x), Some(rest)) => Some([x] + rest)
      case _ => None
  }

  /** The budget: `Number(totalBudget) || 0` from the settings document when
      it exists; otherwise the budget stays what it was (0 at first). */
  function Budget(exists_: bool, totalBudget: Value, current: real): (b: real)
    ensures exists_ ==> b == NumberOrZero(totalBudget)
    ensures !exists_ ==> b == current
  {
    if exists_ then NumberOrZero(totalBudget) else current
  }

  // ---------------------------------------------------------------------------
  // Savings

  function RowAmount(t: Row): real {
    t.amount
  }

  /** `spent`: the amounts added up. */
  function Spent(txs: seq<Row>): real {
    SumOf(txs, RowAmount)
  }

  /** `saved = Math.max(0, budget - spent)` */
  function Saved(budget: real, spent: real): (r: real)
    ensures r >= 0.0 && r >= budget - spent
    ensures r == 0.0 || r == budget - spent
  {
    Max(0.0, budget - spent)
  }

  /** `budget > 0 ? Math.min(100, Math.max(0, (saved / budget) * 100)) : 0` */
  function PercentageSaved(budget: real, spent: real): (r: real)
    ensures 0.0 <= r <= 100.0
    ensures budget <= 0.0 ==> r == 0.0
  {
    if budget > 0.0 then Min(100.0, Max(0.0, ShareOf(Saved(budget, spent), budget))) else 0.0
  }

  /** Within the budget the percentage saved is the unspent share of the
      budget; overspending gives 0 and a negative spending (refunds) 100. */
  lemma PercentageSavedMeaning(budget: real, spent: real)
    requires budget > 0.0
    ensures 0.0 <= spent <= budget ==> PercentageSaved(budget, spent) == ShareOf(budget - spent, budget)
    ensures spent >= budget ==> PercentageSaved(budget, spent) == 0.0
    ensures spent <= 0.0 ==> PercentageSaved(budget, spent) == 100.0
  {
    if 0.0 <= spent <= budget {
      ShareBounds(budget - spent, budget);
    }
    if spent <= 0.0 {
      assert (budget - spent) / budget >= 1.0 by {
        assert (budget - spent) / budget * budget == budget - spent;
      }
    }
  }

  // ---------------------------------------------------------------------------
  // The 28-day activity grid

  /** `Math.ceil(Math.abs(today - date) / MsPerDay)`: whole days started
      between the two instants, in either direction. */
  function DaysAway(now: int, date: int): (d: nat)
    ensures d == 0 <==> date == now
  {
    (Dist(now, date) + MsPerDay - 1) / MsPerDay
  }

  /** A row `d > 0` days away lies more than `d - 1` and at most `d` whole
      days from now. */
  lemma DaysAwayBounds(now: int, date: int)
    ensures var d := DaysAway(now, date);
      d > 0 ==> (d - 1) * MsPerDay < Dist(now, date) <= d * MsPerDay
  {
  }

  function Dist(a: int, b: int): nat {
    if a >= b then a - b else b - a
  }

  /** A date in the future is as many days away as one equally far in the
      past. */
  lemma FutureCountsLikePast(now: int, gap: nat)
    ensures DaysAway(now, now + gap) == DaysAway(now, now - gap)
  {
  }

  /** The cell index as written, `28 - diffDays`, for `diffDays <= 28`. */
  function CellAsWritten(d: nat): int
    requires d <= 28
  {
    28 - d
  }

  /** The grid as written: 28 cells starting at 0, each row at most 28 days
      away added to cell `28 - d`. A row at the very instant of `now`
      (d = 0) writes past the end: the array grows a 29th cell holding
      `undefined + amount`, which is NaN, and the grid then shows 29 dots. */
  function CellsAsWritten(txs: seq<Row>, now: int): (r: seq<Num>)
    ensures |r| == 28 || |r| == 29
  {
    if txs == [] then seq(28, _ => Fin(0.0))
    else
      var days := CellsAsWritten(txs[..|txs| - 1], now);
      var t := txs[|txs| - 1];
      var d := DaysAway(now, t.date);
      if d > 28 then days
      else if CellAsWritten(d) < |days| then days[CellAsWritten(d) := Plus(days[CellAsWritten(d)], Fin(t.amount))]
      else days + [NaN]
  }

  /** A single transaction dated exactly now gives the grid a 29th cell,
      and that cell is NaN. */
  lemma RowAtNowOverflows(t: Row, now: int)
    requires t.date == now
    ensures |CellsAsWritten([t], now)| == 29
    ensures CellsAsWritten([t], now)[28] == NaN
  {
    assert [t][..0] == [];
  }

  /** The cell a row lands in, as intended: days 1 to 28 back fill cells
      27 down to 0, and a row at the instant of `now` counts as today (cell
      27); older rows fall outside the grid. */
  function Cell(d: nat): (r: Option<nat>)
    ensures r.Some? <==> d <= 28
    ensures r.Some? ==> r.value < 28
    ensures 1 <= d <= 28 ==> r == Some(CellAsWritten(d))
    ensures d == 0 ==> r == Some(27)
  {
    if d > 28 then None else if d == 0 then Some(27) else Some(28 - d)
  }

  /** The intended grid, one row at a time. */
  function DailyTotals(txs: seq<Row>, now: int): (r: seq<real>)
    ensures |r| == 28
  {
    if txs == [] then seq(28, _ => 0.0)
    else
      var days := DailyTotals(txs[..|txs| - 1], now);
      var t := txs[|txs| - 1];
      match Cell(DaysAway(now, t.date))
      case None => days
      case Some(k) => days[k := days[k] + t.amount]
  }

  function InCell(now: int, k: nat): (p: Row -> bool)
    ensures forall t :: p(t) <==> Cell(DaysAway(now, t.date)) == Some(k)
  {
    (t: Row) => Cell(DaysAway(now, t.date)) == Some(k)
  }

  /** `dailyActivity`, corrected: fills the 28 cells in place. Cell `k`
      holds the amounts of exactly the rows whose day falls in it. */
  method DailyActivity(txs: seq<Row>, now: int) returns (days: seq<real>)
    ensures days == DailyTotals(txs, now)
    ensures forall k :: 0 <= k < 28 ==> days[k] == SumOf(Filter(txs, InCell(now, k)), RowAmount)
  {
    var cells := new real[28](_ => 0.0);
    for i := 0 to |txs|
      invariant cells[..] == DailyTotals(txs[..i], now)
    {
      assert txs[..i + 1][..i] == txs[..i];
      var d := DaysAway(now, txs[i].date);
      match Cell(d)
      case None =>
      case Some(k) =>
        cells[k] := cells[k] + txs[i].amount;
    }
    assert txs[..|txs|] == txs;
    days := cells[..];
    DailyCells(txs, now);
  }

  /** Each cell of the grid is the sum of the rows that fall in it. */
  lemma DailyCells(txs: seq<Row>, now: int)
    ensures forall k :: 0 <= k < 28 ==> DailyTotals(txs, now)[k] == SumOf(Filter(txs, InCell(now, k)), RowAmount)
  {
    forall k | 0 <= k < 28
      ensures DailyTotals(txs, now)[k] == SumOf(Filter(txs, InCell(now, k)), RowAmount)
    {
      DailyCell(txs, now, k);
    }
  }

  lemma {:induction false} DailyCell(txs: seq<Row>, now: int, k: nat)
    requires k < 28
    ensures DailyTotals(txs, now)[k] == SumOf(Filter(txs, InCell(now, k)), RowAmount)
  {
    if txs != [] {
      DailyCell(txs[..|txs| - 1], now, k);
      FilterSumLast(txs, InCell(now, k), RowAmount);
      DailyLast(txs, now, k);
    }
  }

  /** The last row adds its amount to cell `k` exactly when it falls in it. */
  lemma DailyLast(txs: seq<Row>, now: int, k: nat)
    requires txs != [] && k < 28
    ensures var t := txs[|txs| - 1];
            DailyTotals(txs, now)[k] == DailyTotals(txs[..|txs| - 1], now)[k] + (if InCell(now, k)(t) then RowAmount(t) else 0.0)
  {
  }

  function Real(x: real): real {
    x
  }

  function Recent(now: int): (p: Row -> bool)
    ensures forall t :: p(t) <==> DaysAway(now, t.date) <= 28
  {
    (t: Row) => DaysAway(now, t.date) <= 28
  }

  /** The grid adds up to the amounts of the rows at most 28 days away;
      older rows are left out. */
  lemma {:induction false} DailyTotalsSum(txs: seq<Row>, now: int)
    ensures SumOf(DailyTotals(txs, now), Real) == SumOf(Filter(txs, Recent(now)), RowAmount)
  {
    if txs != [] {
      var init := txs[..|txs| - 1];
      var t := txs[|txs| - 1];
      DailyTotalsSum(init, now);
      GridStep(init, t, now);
      assert txs == init + [t];
      FilterConcat(init, [t], Recent(now));
      var tail := if Recent(now)(t) then [t] else [];
      assert Filter([t], Recent(now)) == tail && SumOf(tail, RowAmount) == (if Recent(now)(t) then t.amount else 0.0) by {
        assert [t][1..] == [];
      }
      SumOfConcat(Filter(init, Recent(now)), tail, RowAmount);
    } else {
      SumBounds(DailyTotals(txs, now), Real, 0.0, 0.0);
    }
  }

  /** One more row adds its amount to the grid's total when it is recent. */
  lemma GridStep(init: seq<Row>, t: Row, now: int)
    ensures SumOf(DailyTotals(init + [t], now), Real) == SumOf(DailyTotals(init, now), Real) + (if Recent(now)(t) then t.amount else 0.0)
  {
    var txs := init + [t];
    assert txs[..|txs| - 1] == init;
    var days := DailyTotals(init, now);
    match Cell(DaysAway(now, t.date))
    case None =>
    case Some(k) =>
      AddToCell(days, k, t.amount);
  }

  lemma AddToCell(days: seq<real>, k: nat, a: real)
    requires k < |days|
    ensures SumOf(days[k := days[k] + a], Real) == SumOf(days, Real) + a
  {
    SumOfUpdate(days, k, days[k] + a, Real);
  }

  /** Where no row is dated exactly now, the grid as written has the 28
      cells of the intended one. */
  lemma {:induction false} AsWrittenAgrees(txs: seq<Row>, now: int)
    requires forall i :: 0 <= i < |txs| ==> txs[i].date != now
    ensures CellsAsWritten(txs, now) == Image(DailyTotals(txs, now), (x: real) => Fin(x))
  {
    if txs != [] {
      AsWrittenAgrees(txs[..|txs| - 1], now);
    }
  }

  // ---------------------------------------------------------------------------
  // Top categories

  /** `t.categoryName || 'General'` */
  function GeneralOr(t: Row): string {
    TextOr(t.categoryName, "General")
  }

  /** `topCategories`: the totals per category name (a missing name counts
      as 'General'), largest first, cut to the first four. Fewer than four
      entries means every name is shown, and a name left out totals no more
      than any name shown. */
  method TopCategories(txs: seq<Row>) returns (top: seq<NamedTotal>)
    ensures |top| <= 4
    ensures NonIncreasing(top, ValueOf)
    ensures AllPairs(top, DifferentNames())
    ensures forall j :: 0 <= j < |top| ==> top[j].name in Image(txs, GeneralOr)
    ensures forall j :: 0 <= j < |top| ==> top[j].value == SumOf(Filter(txs, KeyIs(GeneralOr, top[j].name)), RowAmount)
    ensures |top| < 4 ==> forall i :: 0 <= i < |txs| ==> GeneralOr(txs[i]) in NamesOf(top)
    ensures forall i, j :: 0 <= i < |txs| && GeneralOr(txs[i]) !in NamesOf(top) && 0 <= j < |top| ==>
              SumOf(Filter(txs, KeyIs(GeneralOr, GeneralOr(txs[i]))), RowAmount) <= top[j].value
  {
    var groups := GroupTotals(txs, GeneralOr, RowAmount);
    var sorted := SortDesc(groups, ValueOf);
    SortedGrouping(groups, txs, GeneralOr, RowAmount);
    top := Top(sorted, 4);
    TopOfGrouping(sorted, 4, txs, GeneralOr, RowAmount);
  }

  /** `maxCatVal = Math.max(...topCategories.map(c => c.val), 1)` */
  function MaxCatVal(top: seq<NamedTotal>): (m: real)
    ensures m >= 1.0
    ensures forall j :: 0 <= j < |top| ==> top[j].value <= m
  {
    MaxWith(Image(top, ValueOf), 1.0)
  }

  /** The bar at position `i` shows the entry of rank `[2, 1, 0, 3][i]`:
      `Math.max(15, (val / maxCatVal) * 100)`, or 10 when there is no such
      entry. */
  function BarHeight(top: seq<NamedTotal>, i: nat): (h: real)
    requires i < 4
    ensures var rank := [2, 1, 0, 3][i];
      if rank < |top| then 15.0 <= h <= 100.0 else h == 10.0
  {
    var rank := [2, 1, 0, 3][i];
    if rank < |top| then
      var m := MaxCatVal(top);
      ShareAtMostWhole(top[rank].value, m);
      Max(15.0, ShareOf(top[rank].value, m))
    else 10.0
  }

  /** The middle bar shows the largest category; once that total reaches 1
      it is the scale, and its bar is full height. */
  lemma LargestBarFull(top: seq<NamedTotal>)
    requires NonIncreasing(top, ValueOf)
    requires |top| > 0 && top[0].value >= 1.0
    ensures BarHeight(top, 2) == 100.0
  {
    var m := MaxCatVal(top);
    assert [2, 1, 0, 3][2] == 0;
    assert m == top[0].value by {
      var vals := Image(top, ValueOf);
      assert m == 1.0 || m in vals;
      forall j | 0 <= j < |top| ensures top[j].value <= top[0].value {
        if j > 0 {
          assert ValueOf(top[j]) <= ValueOf(top[0]);
        }
      }
    }
    ShareOfWhole(m);
  }

  // ---------------------------------------------------------------------------
  // Open projects

  function NotCompleted(): (f: ProjectDoc -> bool)
    ensures forall p :: f(p) <==> p.status != Some("Completed")
  {
    (p: ProjectDoc) => p.status != Some("Completed")
  }

  /** `projects.filter(p => p.status !== 'Completed').length` */
  function ActiveProjectCount(ps: seq<ProjectDoc>): nat {
    |Filter(ps, NotCompleted())|
  }

  /** Every project is either completed or counted as open, and the open
      count includes every project whose status is 'Active' (as well as
      any with another status, such as 'active' or none). */
  lemma OpenProjects(ps: seq<ProjectDoc>)
    ensures ActiveProjectCount(ps) + |CompletedProjects(ps)| == |ps|
    ensures ActiveProjectCount(ps) >= |ActiveProjects(ps)|
  {
    FilterPartitionLength(ps, StatusIs("Completed"), NotCompleted());
    FilterFilter(ps, NotCompleted(), StatusIs("Active"));
    assert |Filter(Filter(ps, NotCompleted()), StatusIs("Active"))| <= |Filter(ps, NotCompleted())|;
  }
}
