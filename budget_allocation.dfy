/** The budget allocation panel: the categories loaded from the user's
    category documents, the spending of each category over the user's
    transactions, the per-category view (allocation, remaining, share spent,
    bar width), and the two writes: setting one category's percentage and
    resetting the seven default categories. */
module BudgetAllocation {
  import opened Wrappers
  import opened Numeric
  import opened Text
  import opened Sequences
  import opened Documents

  /** A category as the panel holds it; `allocation` stands for the
      document's `allocated` field and is absent on the built-in defaults. */
  datatype UiCategory = UiCategory(id: string, name: string, icon: string, percentage: real, allocation: Option<real>)

  function PercentageOf(c: UiCategory): real {
    c.percentage
  }

  function IdOf(c: UiCategory): string {
    c.id
  }

  /** `DEFAULT_CATEGORIES` */
  function DefaultCategories(): seq<UiCategory> {
    [ UiCategory("cat_food", "Food & Dining", "🍔", 20.0, None),
      UiCategory("cat_transport", "Transportation", "🚗", 15.0, None),
      UiCategory("cat_shopping", "Shopping", "🛍️", 15.0, None),
      UiCategory("cat_fun", "Entertainment", "🎬", 10.0, None),
      UiCategory("cat_bills", "Bills & Utilities", "💡", 25.0, None),
      UiCategory("cat_health", "Health & Wellness", "🏥", 10.0, None),
      UiCategory("cat_others", "Others", "📦", 5.0, None) ]
  }

  /** The default percentages add up to 100 and the default ids are
      distinct. */
  lemma DefaultsWellFormed()
    ensures SumOf(DefaultCategories(), PercentageOf) == 100.0
    ensures forall i, j :: 0 <= i < j < |DefaultCategories()| ==> DefaultCategories()[i].id != DefaultCategories()[j].id
  {
    DefaultIdsDistinct();
    var d := DefaultCategories();
    assert SumOf(d[6..], PercentageOf) == 5.0;
    assert SumOf(d[5..], PercentageOf) == 15.0;
    assert SumOf(d[4..], PercentageOf) == 40.0;
    assert SumOf(d[3..], PercentageOf) == 50.0;
    assert SumOf(d[2..], PercentageOf) == 65.0;
    assert SumOf(d[1..], PercentageOf) == 80.0;
  }

  lemma DefaultIdsDistinct()
    ensures forall i, j :: 0 <= i < j < |DefaultCategories()| ==> DefaultCategories()[i].id != DefaultCategories()[j].id
  {
    var ids := Image(DefaultCategories(), IdOf);
    assert ids == ["cat_food", "cat_transport", "cat_shopping", "cat_fun", "cat_bills", "cat_health", "cat_others"];
    forall i, j | 0 <= i < j < |ids| ensures ids[i] != ids[j] {
      assert ids[i][4] != ids[j][4] || |ids[i]| != |ids[j]|;
    }
  }

  // ---------------------------------------------------------------------------
  // Loading

  /** A category document as stored: the fields the panel reads, and every
      other field. */
  datatype CategoryDoc = CategoryDoc(name: Option<string>, icon: Option<string>, percentage: Value, allocation: Value,
                                     others: map<string, Value>)

  /** One document of the category snapshot, defaulted field by field. */
  function LoadCategory(id: string, d: CategoryDoc): (c: UiCategory)
    ensures c.id == id && c.name != "" && c.icon != ""
    ensures c.percentage == NumberOrZero(d.percentage)
    ensures c.allocation == Some(NumberOrZero(d.allocation))
  {
    UiCategory(id, TextOr(d.name, "Category"), TextOr(d.icon, "📦"), NumberOrZero(d.percentage), Some(NumberOrZero(d.allocation)))
  }

  function LoadEntry(e: (string, CategoryDoc)): UiCategory {
    LoadCategory(e.0, e.1)
  }

  /** The category snapshot callback: an empty snapshot keeps the current
      list; otherwise every document is loaded and the list is sorted by
      percentage, largest first. */
  function LoadCategories(current: seq<UiCategory>, snapshot: seq<(string, CategoryDoc)>): (r: seq<UiCategory>)
    ensures snapshot == [] ==> r == current
    ensures snapshot != [] ==> multiset(r) == multiset(Image(snapshot, LoadEntry)) && NonIncreasing(r, PercentageOf)
  {
    if snapshot == [] then current else SortDesc(Image(snapshot, LoadEntry), PercentageOf)
  }

  /** Every loaded category has a name and an icon, and its id is one of the
      snapshot's document ids. */
  lemma LoadedCategoriesNamed(current: seq<UiCategory>, snapshot: seq<(string, CategoryDoc)>)
    requires snapshot != []
    ensures var r := LoadCategories(current, snapshot);
            forall i :: 0 <= i < |r| ==> r[i].name != "" && r[i].icon != "" && exists j :: 0 <= j < |snapshot| && snapshot[j].0 == r[i].id
  {
    var r := LoadCategories(current, snapshot);
    var loaded := Image(snapshot, LoadEntry);
    forall i | 0 <= i < |r|
      ensures r[i].name != "" && r[i].icon != "" && exists j :: 0 <= j < |snapshot| && snapshot[j].0 == r[i].id
    {
      assert r[i] in multiset(loaded);
      var j :| 0 <= j < |loaded| && loaded[j] == r[i];
      assert snapshot[j].0 == r[i].id;
    }
  }

  /** The settings snapshot: `totalBudget` when it is truthy, otherwise the
      legacy `budget` field when that is truthy; otherwise (and when the
      document does not exist) the budget stays. `None` stands for NaN. */
  function LoadedBudget(docExists: bool, totalBudget: Value, budget: Value, current: real): (r: Option<real>)
    ensures !docExists ==> r == Some(current)
    ensures docExists && totalBudget.Number? && totalBudget.x != 0.0 ==> r == Some(totalBudget.x)
    ensures docExists && !Truthy(totalBudget) && budget.Number? && budget.x != 0.0 ==> r == Some(budget.x)
    ensures docExists && !Truthy(totalBudget) && !Truthy(budget) ==> r == Some(current)
  {
    if !docExists then Some(current)
    else if Truthy(totalBudget) then ToNumber(totalBudget)
    else if Truthy(budget) then ToNumber(budget)
    else Some(current)
  }

  // ---------------------------------------------------------------------------
  // Spending per category

  /** A transaction document as the panel reads it. */
  datatype TxDoc = TxDoc(categoryId: IdValue, amount: Value)

  function AmountOrZero(t: TxDoc): real {
    NumberOrZero(t.amount)
  }

  function InCategory(catId: string): (p: TxDoc -> bool)
    ensures forall t :: p(t) <==> IdMatches(t.categoryId, catId)
  {
    (t: TxDoc) => IdMatches(t.categoryId, catId)
  }

  /** `getSpentByCategory(catId)`: the amounts (non-numbers counting 0) of
      the transactions whose id matches after string coercion; a category
      no transaction names gets 0. */
  function SpentByCategory(txs: seq<TxDoc>, catId: string): (r: real)
    ensures (forall i :: 0 <= i < |txs| ==> !IdMatches(txs[i].categoryId, catId)) ==> r == 0.0
  {
    var mine := Filter(txs, InCategory(catId));
    assert (forall i :: 0 <= i < |txs| ==> !IdMatches(txs[i].categoryId, catId)) ==> mine == [] by {
      if |mine| > 0 {
        assert mine[0] in txs;
      }
    }
    SumOf(mine, AmountOrZero)
  }

  function NumberOrTextId(i: int): (p: TxDoc -> bool)
    ensures forall t :: p(t) <==> t.categoryId == IdNumber(i) || t.categoryId == IdText(IntToString(i))
  {
    (t: TxDoc) => t.categoryId == IdNumber(i) || t.categoryId == IdText(IntToString(i))
  }

  /** For a category whose id is the printed integer `i`, the spending is
      the total of the transactions whose `categoryId` is the number `i` or
      its text. */
  lemma SpentByPrintedId(txs: seq<TxDoc>, i: int)
    ensures SpentByCategory(txs, IntToString(i)) == SumOf(Filter(txs, NumberOrTextId(i)), AmountOrZero)
  {
    forall t: TxDoc ensures InCategory(IntToString(i))(t) == NumberOrTextId(i)(t) {
      IdMatchesPrinted(t.categoryId, i);
    }
    FilterSame(txs, InCategory(IntToString(i)), NumberOrTextId(i));
  }

  // ---------------------------------------------------------------------------
  // The per-category view

  datatype CategoryView = CategoryView(spent: real, allocation: int, remaining: real, percentSpent: real,
                                       overspent: bool, barWidth: real)

  /** The view of one category: the allocation is recomputed from the
      percentage and the budget (the stored `allocated` is not used). */
  function ViewOf(c: UiCategory, spent: real, totalBudget: real): (v: CategoryView)
    ensures v.spent == spent
    ensures v.allocation == Round(PercentOfBudget(c.percentage, totalBudget))
    ensures v.remaining == v.allocation as real - spent
    ensures v.overspent <==> spent > v.allocation as real
    ensures v.allocation <= 0 ==> v.percentSpent == 0.0
    ensures v.allocation > 0 ==> v.percentSpent == ShareOf(spent, v.allocation as real)
    ensures v.barWidth <= 100.0 && v.barWidth <= v.percentSpent && (v.barWidth == 100.0 || v.barWidth == v.percentSpent)
  {
    var allocation := Round(PercentOfBudget(c.percentage, totalBudget));
    var remaining := allocation as real - spent;
    var percentSpent := if allocation > 0 then ShareOf(spent, allocation as real) else 0.0;
    CategoryView(spent, allocation, remaining, percentSpent, remaining < 0.0, Min(percentSpent, 100.0))
  }

  /** The stored allocation does not influence the view. */
  lemma ViewIgnoresStoredAllocation(c: UiCategory, stored: Option<real>, spent: real, totalBudget: real)
    ensures ViewOf(c.(allocation := stored), spent, totalBudget) == ViewOf(c, spent, totalBudget)
  {
  }

  /** Within its allocation a category is not overspent and its bar shows
      the share spent, between 0 and 100. */
  lemma ViewWithinAllocation(c: UiCategory, spent: real, totalBudget: real)
    requires 0.0 <= spent
    requires spent <= ViewOf(c, spent, totalBudget).allocation as real
    ensures var v := ViewOf(c, spent, totalBudget);
            !v.overspent && 0.0 <= v.percentSpent <= 100.0 && v.barWidth == v.percentSpent
  {
    var v := ViewOf(c, spent, totalBudget);
    if v.allocation > 0 {
      ShareBounds(spent, v.allocation as real);
    }
  }

  /** Past its allocation the bar is full. */
  lemma ViewOverspent(c: UiCategory, spent: real, totalBudget: real)
    requires ViewOf(c, spent, totalBudget).allocation > 0
    requires spent > ViewOf(c, spent, totalBudget).allocation as real
    ensures ViewOf(c, spent, totalBudget).overspent && ViewOf(c, spent, totalBudget).barWidth == 100.0
  {
    var a := ViewOf(c, spent, totalBudget).allocation as real;
    assert ShareOf(spent, a) > 100.0 by {
      assert spent / a > 1.0 by {
        assert spent / a * a == spent;
      }
    }
  }

  // ---------------------------------------------------------------------------
  // Writes

  /** `setDoc(ref, { percentage, allocated }, { merge: true })`: the two
      fields are written, every other field is kept; a missing document is
      created with only these two fields. */
  function MergePercentage(d: Option<CategoryDoc>, p: real, allocation: int): (r: CategoryDoc)
    ensures r.percentage == Number(p) && r.allocation == Number(allocation as real)
    ensures d.Some? ==> r.name == d.value.name && r.icon == d.value.icon && r.others == d.value.others
    ensures d.None? ==> r.name.None? && r.icon.None? && r.others == map[]
  {
    match d
    case Some(doc) => doc.(percentage := Number(p), allocation := Number(allocation as real))
    case None => CategoryDoc(None, None, Number(p), Number(allocation as real), map[])
  }

  /** `{ ...cat, allocated }` as written by the reset: the category's own
      fields (its `id` among the other fields) and the allocation for the
      budget. */
  function DefaultDoc(c: UiCategory, totalBudget: real): CategoryDoc {
    CategoryDoc(Some(c.name), Some(c.icon), Number(c.percentage),
                Number(Round(PercentOfBudget(c.percentage, totalBudget)) as real), map["id" := Str(c.id)])
  }

  /** The batch of `set` writes for `cats`, one per id (a later write to the
      same id replaces an earlier one). */
  function BatchOf(cats: seq<UiCategory>, totalBudget: real): map<string, CategoryDoc> {
    if cats == [] then map[]
    else BatchOf(cats[..|cats| - 1], totalBudget)[cats[|cats| - 1].id := DefaultDoc(cats[|cats| - 1], totalBudget)]
  }

  /** With distinct ids the batch writes exactly the ids of `cats`, each
      with its own document. */
  lemma {:induction false} BatchContents(cats: seq<UiCategory>, totalBudget: real)
    requires forall i, j :: 0 <= i < j < |cats| ==> cats[i].id != cats[j].id
    ensures forall id :: id in BatchOf(cats, totalBudget) <==> id in Image(cats, IdOf)
    ensures forall i :: 0 <= i < |cats| ==> BatchOf(cats, totalBudget)[cats[i].id] == DefaultDoc(cats[i], totalBudget)
  {
    if cats != [] {
      var init := cats[..|cats| - 1];
      BatchContents(init, totalBudget);
      assert Image(cats, IdOf) == Image(init, IdOf) + [cats[|cats| - 1].id];
      forall i | 0 <= i < |cats| ensures BatchOf(cats, totalBudget)[cats[i].id] == DefaultDoc(cats[i], totalBudget) {
        if i < |cats| - 1 {
          assert cats[i] == init[i];
        }
      }
    }
  }

  /** Reading back a category written by the reset gives the default
      category with its allocation for the budget. */
  lemma ResetReadBack(c: UiCategory, totalBudget: real)
    requires c.name != "" && c.icon != ""
    ensures LoadCategory(c.id, DefaultDoc(c, totalBudget))
         == c.(allocation := Some(Round(PercentOfBudget(c.percentage, totalBudget)) as real))
  {
  }

  /** Reading back a category after its percentage was set gives that
      percentage and the matching allocation; its name and icon are as
      before. */
  lemma SetPercentageReadBack(id: string, d: CategoryDoc, p: real, totalBudget: real)
    ensures var c := LoadCategory(id, MergePercentage(Some(d), p, Round(PercentOfBudget(p, totalBudget))));
            c.percentage == p && c.allocation == Some(Round(PercentOfBudget(p, totalBudget)) as real)
            && c == LoadCategory(id, d).(percentage := p, allocation := c.allocation)
  {
  }

  /** The user's category documents, by document id. */
  class CategoryStore {
    var docs: map<string, CategoryDoc>

    constructor (initial: map<string, CategoryDoc>)
      ensures docs == initial
    {
      docs := initial;
    }

    /** `handlePercentageChange(id, p)`: nothing without a signed-in user;
        otherwise the percentage and its allocation are merged into that one
        document. */
    method SetPercentage(signedIn: bool, id: string, p: real, totalBudget: real)
      modifies this
      ensures !signedIn ==> docs == old(docs)
      ensures signedIn ==> docs == old(docs)[id := MergePercentage(if id in old(docs) then Some(old(docs)[id]) else None,
                                                                  p, Round(PercentOfBudget(p, totalBudget)))]
    {
      if !signedIn {
        return;
      }
      var newAllocated := Round(PercentOfBudget(p, totalBudget));
      var current := if id in docs then Some(docs[id]) else None;
      docs := docs[id := MergePercentage(current, p, newAllocated)];
    }

    /** `handleRebalance()`: nothing without a signed-in user or without
        confirmation; otherwise a batch that overwrites the seven default
        categories, built in a loop and committed at once. Other documents
        stay. */
    method ResetToDefaults(signedIn: bool, confirmed: bool, totalBudget: real)
      modifies this
      ensures docs == if signedIn && confirmed then old(docs) + BatchOf(DefaultCategories(), totalBudget) else old(docs)
    {
      if !signedIn || !confirmed {
        return;
      }
      var cats := DefaultCategories();
      var batch: map<string, CategoryDoc> := map[];
      for i := 0 to |cats|
        invariant batch == BatchOf(cats[..i], totalBudget)
      {
        var cat := cats[i];
        batch := batch[cat.id := DefaultDoc(cat, totalBudget)];
        assert cats[..i + 1][..i] == cats[..i];
      }
      assert cats[..|cats|] == cats;
      docs := docs + batch;
    }
  }

  /** After the reset, the seven default ids hold the defaults (percentages
      adding up to 100, each allocation the rounded share of the budget) and
      every other document is unchanged. */
  lemma ResetResult(before: map<string, CategoryDoc>, totalBudget: real)
    ensures var after := before + BatchOf(DefaultCategories(), totalBudget);
            && (forall i :: 0 <= i < |DefaultCategories()| ==>
                  DefaultCategories()[i].id in after && after[DefaultCategories()[i].id] == DefaultDoc(DefaultCategories()[i], totalBudget))
            && (forall id :: id !in Image(DefaultCategories(), IdOf) ==>
                  (id in after <==> id in before) && (id in before ==> after[id] == before[id]))
            && SumOf(DefaultCategories(), PercentageOf) == 100.0
  {
    DefaultsWellFormed();
    BatchMerge(before, DefaultCategories(), totalBudget);
  }

  /** A batch of categories with distinct ids, merged over the stored
      documents, writes each of them and leaves every other id as it was. */
  lemma BatchMerge(before: map<string, CategoryDoc>, cats: seq<UiCategory>, totalBudget: real)
    requires forall i, j :: 0 <= i < j < |cats| ==> cats[i].id != cats[j].id
    ensures var after := before + BatchOf(cats, totalBudget);
            && (forall i :: 0 <= i < |cats| ==> cats[i].id in after && after[cats[i].id] == DefaultDoc(cats[i], totalBudget))
            && (forall id :: id !in Image(cats, IdOf) ==> (id in after <==> id in before) && (id in before ==> after[id] == before[id]))
  {
    BatchContents(cats, totalBudget);
    forall i | 0 <= i < |cats| ensures cats[i].id in BatchOf(cats, totalBudget) {
      assert Image(cats, IdOf)[i] == cats[i].id;
    }
  }
}
