/** The money page: the user's transactions as the snapshot callback
    normalises them, the budget hero (total spent, remaining, utilisation
    and the liquidity dot), the spending per category name, the search
    over category names and notes, the CSV export, and each category's
    share of the spending. */
module MoneyPage {
  import opened Wrappers
  import opened Numeric
  import opened Text
  import opened Sequences
  import opened Documents
  import opened Grouping

  /** A transaction document as the page reads it. */
  datatype TxDoc = TxDoc(categoryName: Option<string>, note: Option<string>, amount: Value, date: Value)

  /** A transaction after the snapshot mapping: the amount is a number and
      the date an instant in milliseconds. */
  datatype Tx = Tx(categoryName: Option<string>, note: Option<string>, amount: real, date: int)

  /** `ToIntegerOrInfinity`: truncation toward zero. */
  function Trunc(x: real): (r: int)
    ensures x >= 0.0 ==> r as real <= x < r as real + 1.0
    ensures x < 0.0 ==> r as real - 1.0 < x <= r as real
  {
    if x >= 0.0 then x.Floor else -((-x).Floor)
  }

  /** The date of a transaction: a `Timestamp` gives its instant; another
      truthy value goes through `new Date(value)` (a text through
      `parseDate`, a number truncated to whole milliseconds, `true` as 1);
      a falsy or missing date becomes `now`. */
  function DateOf(v: Value, now: int, parseDate: string -> int): int {
    match v
    case Stamp(ms) => ms
    case Str(s) => if s != "" then parseDate(s) else now
    case Number(x) => if x != 0.0 then Trunc(x) else now
    case Bool(b) => if b then 1 else now
    case Absent => now
    case Null => now
  }

  /** The snapshot mapping of one document. */
  function Normalize(d: TxDoc, now: int, parseDate: string -> int): (t: Tx)
    ensures t.categoryName == d.categoryName && t.note == d.note
    ensures t.amount == NumberOrZero(d.amount)
    ensures d.date.Stamp? ==> t.date == d.date.ms
    ensures !Truthy(d.date) ==> t.date == now
  {
    Tx(d.categoryName, d.note, NumberOrZero(d.amount), DateOf(d.date, now, parseDate))
  }

  // ---------------------------------------------------------------------------
  // The budget hero

  function AmountOf(t: Tx): real {
    t.amount
  }

  /** `transactions.reduce((acc, t) => acc + Number(t.amount || 0), 0)`;
      after the mapping every amount is a number, so this is the sum of the
      amounts. */
  function TotalSpent(txs: seq<Tx>): real {
    SumOf(txs, AmountOf)
  }

  /** `Math.max(0, budget - totalSpent)` */
  function Remaining(budget: real, spent: real): (r: real)
    ensures r >= 0.0
    ensures spent <= budget ==> r == budget - spent
    ensures spent >= budget ==> r == 0.0
  {
    Max(0.0, budget - spent)
  }

  /** `budget > 0 ? (totalSpent / budget) * 100 : 0` */
  function Progress(budget: real, spent: real): (r: real)
    ensures budget <= 0.0 ==> r == 0.0
    ensures budget > 0.0 ==> r == ShareOf(spent, budget)
  {
    if budget > 0.0 then ShareOf(spent, budget) else 0.0
  }

  /** Within the budget the utilisation lies between 0 and 100 and reaches
      100 exactly when the whole budget is spent. */
  lemma ProgressWithinBudget(budget: real, spent: real)
    requires budget > 0.0 && 0.0 <= spent <= budget
    ensures 0.0 <= Progress(budget, spent) <= 100.0
    ensures Progress(budget, spent) == 100.0 <==> spent == budget
  {
    ShareBounds(spent, budget);
    if Progress(budget, spent) == 100.0 {
      assert spent / budget == 1.0;
      assert spent == spent / budget * budget;
    }
  }

  /** The liquidity dot as written: red when `remaining < 0`. */
  predicate DotRedAsWritten(budget: real, spent: real) {
    Remaining(budget, spent) < 0.0
  }

  /** The dot as written never turns red, not even when the spending
      exceeds the budget (here 150 of 100). */
  lemma DotNeverRed(budget: real, spent: real)
    ensures !DotRedAsWritten(budget, spent)
    ensures spent > budget ==> !DotRedAsWritten(budget, spent)
    ensures !DotRedAsWritten(100.0, 150.0) && 150.0 > 100.0
  {
  }

  /** The dot as intended: red when the balance before clamping is
      negative. */
  predicate DotRed(budget: real, spent: real) {
    budget - spent < 0.0
  }

  /** The intended dot is red exactly when the spending exceeds the budget,
      which is exactly when the shown remaining amount has been clamped to 0
      from below. */
  lemma DotRedIffOverBudget(budget: real, spent: real)
    ensures DotRed(budget, spent) <==> spent > budget
    ensures DotRed(budget, spent) ==> Remaining(budget, spent) == 0.0 && Remaining(budget, spent) != budget - spent
  {
  }

  datatype Hero = Hero(spent: real, remaining: real, progress: real, red: bool)

  /** The hero card's figures as the page shows them: the total spent, the
      clamped remaining amount, the utilisation, and the dot that tests the
      clamped amount, so that it stays green even past the budget. */
  function HeroOf(txs: seq<Tx>, budget: real): (h: Hero)
    ensures h.spent == TotalSpent(txs)
    ensures h.remaining >= 0.0
    ensures h.progress == Progress(budget, h.spent)
    ensures h.spent <= budget ==> h.remaining == budget - h.spent
    ensures h.spent > budget ==> h.remaining == 0.0 && !h.red
    ensures !h.red
  {
    var spent := TotalSpent(txs);
    DotNeverRed(budget, spent);
    Hero(spent, Remaining(budget, spent), Progress(budget, spent), DotRedAsWritten(budget, spent))
  }

  // ---------------------------------------------------------------------------
  // Spending per category name

  /** `t.categoryName || 'Uncategorized'` */
  function CategoryNameOr(t: Tx): string {
    TextOr(t.categoryName, "Uncategorized")
  }

  /** The `categories` memo: one entry per distinct category name (a
      missing name counts as 'Uncategorized') holding the spending under
      that name, the entries sorted by spending, largest first; together
      they add up to the total spent. */
  method Categories(txs: seq<Tx>) returns (cats: seq<NamedTotal>)
    ensures IsGrouping(cats, txs, CategoryNameOr, AmountOf)
    ensures NonIncreasing(cats, ValueOf)
    ensures SumOf(cats, ValueOf) == TotalSpent(txs)
  {
    var groups := GroupTotals(txs, CategoryNameOr, AmountOf);
    cats := SortDesc(groups, ValueOf);
    SortedGrouping(groups, txs, CategoryNameOr, AmountOf);
    GroupingSum(cats, txs, CategoryNameOr, AmountOf);
  }

  function ShareIn(total: real): NamedTotal -> Num {
    (g: NamedTotal) => Share(g.value, total)
  }

  /** A category card's share: `(value / totalSpent) * 100 || 0`. NaN (0 of
      0) and 0 give 0; a non-zero value of a zero total is an infinity. */
  function Share(value: real, total: real): (r: Num)
    ensures total != 0.0 ==> r == Fin(ShareOf(value, total))
    ensures total == 0.0 && value == 0.0 ==> r == Fin(0.0)
    ensures total == 0.0 && value != 0.0 ==> r == Inf(value > 0.0)
  {
    var q := Scale(Quot(Fin(value), Fin(total)), 100.0);
    if q.NaN? || q == Fin(0.0) then Fin(0.0) else q
  }

  function FiniteShare(total: real): NamedTotal -> real
    requires total != 0.0
  {
    (g: NamedTotal) => ShareOf(g.value, total)
  }

  lemma {:induction false} SharesAdd(cats: seq<NamedTotal>, total: real)
    requires total != 0.0
    ensures SumOf(cats, FiniteShare(total)) == ShareOf(SumOf(cats, ValueOf), total)
  {
    if cats != [] {
      SharesAdd(cats[1..], total);
      ShareAdd(cats[0].value, SumOf(cats[1..], ValueOf), total);
    }
  }

  /** When something was spent in total, the category shares are finite
      and add up to 100. */
  lemma SharesSumTo100(cats: seq<NamedTotal>, txs: seq<Tx>)
    requires IsGrouping(cats, txs, CategoryNameOr, AmountOf)
    requires TotalSpent(txs) != 0.0
    ensures forall j :: 0 <= j < |cats| ==> Share(cats[j].value, TotalSpent(txs)) == Fin(ShareOf(cats[j].value, TotalSpent(txs)))
    ensures SumOf(cats, FiniteShare(TotalSpent(txs))) == 100.0
  {
    var total := TotalSpent(txs);
    GroupingSum(cats, txs, CategoryNameOr, AmountOf);
    SharesAdd(cats, total);
    ShareOfWhole(total);
  }

  // ---------------------------------------------------------------------------
  // Search

  /** `f && f.toLowerCase().includes(q.toLowerCase())` */
  predicate FieldMatches(f: Option<string>, q: string) {
    f.Some? && f.value != "" && Contains(Lower(f.value), Lower(q))
  }

  function Matches(q: string): (p: Tx -> bool)
    ensures forall t :: p(t) <==> FieldMatches(t.categoryName, q) || FieldMatches(t.note, q)
  {
    (t: Tx) => FieldMatches(t.categoryName, q) || FieldMatches(t.note, q)
  }

  /** `filteredTransactions`: the transactions, in order, whose category
      name or note contains the query, ignoring the case of A-Z. */
  function FilteredTransactions(txs: seq<Tx>, q: string): (r: seq<Tx>)
    ensures forall i :: 0 <= i < |r| ==> r[i] in txs && (FieldMatches(r[i].categoryName, q) || FieldMatches(r[i].note, q))
    ensures forall i :: 0 <= i < |txs| && (FieldMatches(txs[i].categoryName, q) || FieldMatches(txs[i].note, q)) ==> txs[i] in r
    ensures KeepsInOrder(r, txs, Matches(q))
  {
    FilterKeeps(txs, Matches(q));
    FilterInOrder(txs, Matches(q));
    Filter(txs, Matches(q))
  }

  function HasText(): (p: Tx -> bool)
    ensures forall t :: p(t) <==> (t.categoryName.Some? && t.categoryName.value != "") || (t.note.Some? && t.note.value != "")
  {
    (t: Tx) => (t.categoryName.Some? && t.categoryName.value != "") || (t.note.Some? && t.note.value != "")
  }

  /** The empty query keeps exactly the transactions with a non-empty
      category name or note. */
  lemma EmptyQuery(txs: seq<Tx>)
    ensures FilteredTransactions(txs, "") == Filter(txs, HasText())
  {
    forall t: Tx ensures Matches("")(t) == HasText()(t) {
      if t.categoryName.Some? {
        ContainsEmpty(Lower(t.categoryName.value));
      }
      if t.note.Some? {
        ContainsEmpty(Lower(t.note.value));
      }
    }
    FilterSame(txs, Matches(""), HasText());
  }

  /** The search ignores the case of the query. */
  lemma QueryCaseInsensitive(txs: seq<Tx>, q: string)
    ensures FilteredTransactions(txs, Lower(q)) == FilteredTransactions(txs, q)
  {
    LowerIdempotent(q);
    FilterSame(txs, Matches(Lower(q)), Matches(q));
  }

  // ---------------------------------------------------------------------------
  // CSV export

  const CsvPrefix: string := "data:text/csv;charset=utf-8,"
  const CsvHeader: seq<string> := ["Date", "Category", "Note", "Amount"]

  /** One row: the localised date, the category name, the note and the
      amount, comma-joined without quoting; a missing name or note is empty
      (`join` prints `undefined` and `null` as nothing). Printing dates and
      numbers is left to `showDate` and `showNumber`. */
  function CsvRow(t: Tx, showDate: int -> string, showNumber: real -> string): string {
    Join([showDate(t.date), t.categoryName.GetOr(""), t.note.GetOr(""), showNumber(t.amount)], ",")
  }

  function CsvLines(txs: seq<Tx>, showDate: int -> string, showNumber: real -> string): (r: seq<string>)
    ensures |r| == |txs| + 1
    ensures r[0] == Join(CsvHeader, ",")
    ensures forall i :: 0 <= i < |txs| ==> r[i + 1] == CsvRow(txs[i], showDate, showNumber)
  {
    [Join(CsvHeader, ",")] + Image(txs, (t: Tx) => CsvRow(t, showDate, showNumber))
  }

  /** The header and one row per transaction, joined with newlines, behind
      the data-URL prefix. */
  function Csv(txs: seq<Tx>, showDate: int -> string, showNumber: real -> string): string {
    CsvPrefix + Join(CsvLines(txs, showDate, showNumber), "\n")
  }

  /** No field of the row contains a newline. */
  predicate SingleLineFields(t: Tx, showDate: int -> string, showNumber: real -> string) {
    && '\n' !in showDate(t.date) && '\n' !in t.categoryName.GetOr("")
    && '\n' !in t.note.GetOr("") && '\n' !in showNumber(t.amount)
  }

  lemma HeaderSingleLine()
    ensures Count('\n', Join(CsvHeader, ",")) == 0
  {
    forall k | 0 <= k < |CsvHeader| ensures Count('\n', CsvHeader[k]) == 0 {
      CountAbsent('\n', CsvHeader[k]);
    }
    CountAbsent('\n', ",");
    JoinFree(CsvHeader, ",", '\n');
  }

  lemma RowSingleLine(t: Tx, showDate: int -> string, showNumber: real -> string)
    requires SingleLineFields(t, showDate, showNumber)
    ensures Count('\n', CsvRow(t, showDate, showNumber)) == 0
  {
    var fields := [showDate(t.date), t.categoryName.GetOr(""), t.note.GetOr(""), showNumber(t.amount)];
    forall k | 0 <= k < |fields| ensures Count('\n', fields[k]) == 0 {
      CountAbsent('\n', fields[k]);
    }
    CountAbsent('\n', ",");
    JoinFree(fields, ",", '\n');
  }

  /** When no field contains a newline, the export has one line for the
      header and one per transaction: `|txs|` newlines after the prefix. */
  lemma CsvLineCount(txs: seq<Tx>, showDate: int -> string, showNumber: real -> string)
    requires forall i :: 0 <= i < |txs| ==> SingleLineFields(txs[i], showDate, showNumber)
    ensures Csv(txs, showDate, showNumber)[..|CsvPrefix|] == CsvPrefix
    ensures Count('\n', Csv(txs, showDate, showNumber)[|CsvPrefix|..]) == |txs|
  {
    var lines := CsvLines(txs, showDate, showNumber);
    forall i | 0 <= i < |lines| ensures Count('\n', lines[i]) == 0 {
      if i == 0 {
        HeaderSingleLine();
      } else {
        RowSingleLine(txs[i - 1], showDate, showNumber);
      }
    }
    JoinCount(lines, '\n');
    assert Csv(txs, showDate, showNumber)[|CsvPrefix|..] == Join(lines, "\n");
  }

  /** `handleExportCSV` exports the transactions the search shows. */
  function Export(txs: seq<Tx>, q: string, showDate: int -> string, showNumber: real -> string): string {
    Csv(FilteredTransactions(txs, q), showDate, showNumber)
  }

  /** The export holds one line per transaction the search keeps, after the
      header line. */
  lemma ExportLineCount(txs: seq<Tx>, q: string, showDate: int -> string, showNumber: real -> string)
    requires forall i :: 0 <= i < |txs| ==> SingleLineFields(txs[i], showDate, showNumber)
    ensures Count('\n', Export(txs, q, showDate, showNumber)[|CsvPrefix|..]) == |FilteredTransactions(txs, q)|
  {
    var shown := FilteredTransactions(txs, q);
    forall i | 0 <= i < |shown| ensures SingleLineFields(shown[i], showDate, showNumber) {
      var k :| 0 <= k < |txs| && txs[k] == shown[i];
    }
    CsvLineCount(shown, showDate, showNumber);
  }
}
