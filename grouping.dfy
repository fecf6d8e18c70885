/** Totals per name: the dictionary loop the pages use to group
    transactions by category name,

      cats[name] = (cats[name] || 0) + amount   for each row,

    followed by `Object.entries(cats)`, a sort by value (largest first) and,
    on the overview, the first few entries. */
module Grouping {
  import opened Numeric
  import opened Sequences

  /** One entry of `Object.entries(cats)`: a name and its running total. */
  datatype NamedTotal = NamedTotal(name: string, value: real)

  function ValueOf(g: NamedTotal): real {
    g.value
  }

  function DifferentNames(): (NamedTotal, NamedTotal) -> bool {
    (a: NamedTotal, b: NamedTotal) => a.name != b.name
  }

  function NamesOf(groups: seq<NamedTotal>): (r: seq<string>)
    ensures |r| == |groups|
    ensures forall j :: 0 <= j < |groups| ==> r[j] == groups[j].name
  {
    seq(|groups|, j requires 0 <= j < |groups| => groups[j].name)
  }

  /** `groups` totals `s` by `name`: one entry per distinct name occurring in
      `s`, holding the sum of `value` over the elements with that name. */
  ghost predicate IsGrouping<T>(groups: seq<NamedTotal>, s: seq<T>, name: T -> string, value: T -> real) {
    && AllPairs(groups, DifferentNames())
    && (forall i :: 0 <= i < |s| ==> name(s[i]) in NamesOf(groups))
    && (forall j :: 0 <= j < |groups| ==> groups[j].name in Image(s, name))
    && (forall j :: 0 <= j < |groups| ==> groups[j].value == SumOf(Filter(s, KeyIs(name, groups[j].name)), value))
  }

  /** `Object.entries(totals)` for keys created in the order `order`. */
  function Entries(order: seq<string>, totals: map<string, real>): (r: seq<NamedTotal>)
    requires forall j :: 0 <= j < |order| ==> order[j] in totals
    ensures |r| == |order|
    ensures forall j :: 0 <= j < |order| ==> r[j] == NamedTotal(order[j], totals[order[j]])
  {
    seq(|order|, j requires 0 <= j < |order| => NamedTotal(order[j], totals[order[j]]))
  }

  /** The dictionary state after the rows `s`: `order` lists the keys in
      the order they were created, and each key holds the total of its rows. */
  ghost predicate Accumulated<T>(totals: map<string, real>, order: seq<string>, s: seq<T>, name: T -> string, value: T -> real) {
    KeyOrder(totals, order, s, name) && TotalsAreSums(totals, s, name, value)
  }

  /** The keys are the names of `s`, each listed once in `order`. */
  ghost predicate KeyOrder<T>(totals: map<string, real>, order: seq<string>, s: seq<T>, name: T -> string) {
    && (forall a, b :: 0 <= a < b < |order| ==> order[a] != order[b])
    && (forall n :: n in totals <==> n in order)
    && (forall k :: 0 <= k < |s| ==> name(s[k]) in totals)
    && (forall j :: 0 <= j < |order| ==> order[j] in Image(s, name))
  }

  /** Each key holds the total of the rows with that name. */
  ghost predicate TotalsAreSums<T>(totals: map<string, real>, s: seq<T>, name: T -> string, value: T -> real) {
    forall n :: n in totals ==> totals[n] == SumOf(Filter(s, KeyIs(name, n)), value)
  }

  /** The `forEach` loop that accumulates one total per name, then the
      entries of the dictionary. */
  method GroupTotals<T>(s: seq<T>, name: T -> string, value: T -> real) returns (groups: seq<NamedTotal>)
    ensures IsGrouping(groups, s, name, value)
  {
    var totals: map<string, real> := map[];
    var order: seq<string> := [];
    for i := 0 to |s|
      invariant Accumulated(totals, order, s[..i], name, value)
    {
      totals, order := AddRow(totals, order, s[..i], s[i], name, value);
      TakeOneMore(s, i);
    }
    assert s[..|s|] == s;
    groups := Entries(order, totals);
    EntriesGrouping(totals, order, s, name, value);
  }

  /** One turn of the loop: `cats[name] = (cats[name] || 0) + amount`, the
      name being appended to the key order when it is new. */
  method AddRow<T>(totals: map<string, real>, order: seq<string>, s: seq<T>, x: T, name: T -> string, value: T -> real)
      returns (totals': map<string, real>, order': seq<string>)
    requires Accumulated(totals, order, s, name, value)
    ensures Accumulated(totals', order', s + [x], name, value)
  {
    var n := name(x);
    var before := if n in totals then totals[n] else 0.0;
    order' := order;
    if n !in totals {
      order' := order + [n];
    }
    totals' := totals[n := before + value(x)];
    AccumulateStep(totals, order, s, x, name, value, before, order', s + [x]);
  }

  lemma EntriesGrouping<T>(totals: map<string, real>, order: seq<string>, s: seq<T>, name: T -> string, value: T -> real)
    requires Accumulated(totals, order, s, name, value)
    ensures forall j :: 0 <= j < |order| ==> order[j] in totals
    ensures IsGrouping(Entries(order, totals), s, name, value)
  {
    var groups := Entries(order, totals);
    assert NamesOf(groups) == order;
  }

  /** Adding the row `x` to the dictionary: its name's total grows by its
      value (a new name starts from 0 and is appended to the key order). */
  lemma AccumulateStep<T>(totals: map<string, real>, order: seq<string>, s: seq<T>, x: T, name: T -> string, value: T -> real,
                          before: real, order': seq<string>, s': seq<T>)
    requires Accumulated(totals, order, s, name, value)
    requires s' == s + [x]
    requires before == if name(x) in totals then totals[name(x)] else 0.0
    requires order' == if name(x) in totals then order else order + [name(x)]
    ensures Accumulated(totals[name(x) := before + value(x)], order', s', name, value)
  {
    var n := name(x);
    var totals' := totals[n := before + value(x)];
    StepKeys(totals, order, s, x, name, totals', order', s');
    if n !in totals {
      NoneOfName(s, name, n);
    }
    StepTotals(totals, s, x, name, value, totals', s');
  }

  lemma StepKeys<T>(totals: map<string, real>, order: seq<string>, s: seq<T>, x: T, name: T -> string,
                    totals': map<string, real>, order': seq<string>, s': seq<T>)
    requires KeyOrder(totals, order, s, name)
    requires totals'.Keys == totals.Keys + {name(x)}
    requires order' == if name(x) in totals then order else order + [name(x)]
    requires s' == s + [x]
    ensures KeyOrder(totals', order', s', name)
  {
    assert Image(s', name) == Image(s, name) + [name(x)];
    forall k | 0 <= k < |s'| ensures name(s'[k]) in totals' {
      if k < |s| {
        assert s'[k] == s[k];
      }
    }
  }

  lemma StepTotals<T>(totals: map<string, real>, s: seq<T>, x: T, name: T -> string, value: T -> real,
                      totals': map<string, real>, s': seq<T>)
    requires TotalsAreSums(totals, s, name, value)
    requires name(x) !in totals ==> Filter(s, KeyIs(name, name(x))) == []
    requires totals' == totals[name(x) := (if name(x) in totals then totals[name(x)] else 0.0) + value(x)]
    requires s' == s + [x]
    ensures TotalsAreSums(totals', s', name, value)
  {
    forall m | m in totals'
      ensures totals'[m] == SumOf(Filter(s', KeyIs(name, m)), value)
    {
      StepTotal(totals, s, x, name, value, totals', m);
    }
  }

  /** The step for one key `m`. */
  lemma StepTotal<T>(totals: map<string, real>, s: seq<T>, x: T, name: T -> string, value: T -> real,
                     totals': map<string, real>, m: string)
    requires m in totals ==> totals[m] == SumOf(Filter(s, KeyIs(name, m)), value)
    requires name(x) !in totals ==> Filter(s, KeyIs(name, name(x))) == []
    requires totals' == totals[name(x) := (if name(x) in totals then totals[name(x)] else 0.0) + value(x)]
    requires m in totals'
    ensures totals'[m] == SumOf(Filter(s + [x], KeyIs(name, m)), value)
  {
    GroupStep(s, x, name, value, m);
  }

  /** No element of `s` has name `n`, so none is selected. */
  lemma NoneOfName<T>(s: seq<T>, name: T -> string, n: string)
    ensures (forall k :: 0 <= k < |s| ==> name(s[k]) != n) ==> Filter(s, KeyIs(name, n)) == []
  {
    var r := Filter(s, KeyIs(name, n));
    if |r| > 0 {
      assert r[0] in s;
    }
  }

  /** One more element adds its value to the total of its own name and
      leaves the other totals alone. */
  lemma GroupStep<T>(s: seq<T>, x: T, name: T -> string, value: T -> real, n: string)
    ensures SumOf(Filter(s + [x], KeyIs(name, n)), value)
         == SumOf(Filter(s, KeyIs(name, n)), value) + (if name(x) == n then value(x) else 0.0)
  {
    FilterConcat(s, [x], KeyIs(name, n));
    var tail: seq<T> := if name(x) == n then [x] else [];
    assert Filter([x], KeyIs(name, n)) == tail;
    SumOfConcat(Filter(s, KeyIs(name, n)), tail, value);
  }

  /** The totals of a grouping add up to the sum over all elements. */
  lemma GroupingSum<T>(groups: seq<NamedTotal>, s: seq<T>, name: T -> string, value: T -> real)
    requires IsGrouping(groups, s, name, value)
    ensures SumOf(groups, ValueOf) == SumOf(s, value)
  {
    var ks := NamesOf(groups);
    forall i, j | 0 <= i < j < |ks| ensures ks[i] != ks[j] {
      assert DifferentNames()(groups[i], groups[j]);
    }
    SumByKeys(ks, s, name, value);
    TotalsOverNames(groups, s, name, value);
  }

  lemma {:induction false} TotalsOverNames<T>(groups: seq<NamedTotal>, s: seq<T>, name: T -> string, value: T -> real)
    requires forall j :: 0 <= j < |groups| ==> groups[j].value == SumOf(Filter(s, KeyIs(name, groups[j].name)), value)
    ensures SumOverKeys(NamesOf(groups), s, name, value) == SumOf(groups, ValueOf)
  {
    if groups != [] {
      TotalsOverNames(groups[1..], s, name, value);
      assert NamesOf(groups)[1..] == NamesOf(groups[1..]);
    }
  }

  /** Sorting the entries by value keeps them a grouping of the same
      elements. */
  lemma SortedGrouping<T>(groups: seq<NamedTotal>, s: seq<T>, name: T -> string, value: T -> real)
    requires IsGrouping(groups, s, name, value)
    ensures IsGrouping(SortDesc(groups, ValueOf), s, name, value)
  {
    var sorted := SortDesc(groups, ValueOf);
    SortKeepsPairs(groups, ValueOf, DifferentNames());
    SameEntries(groups, sorted, s, name, value);
    SameNames(groups, sorted, s, name);
  }

  lemma SameEntries<T>(groups: seq<NamedTotal>, other: seq<NamedTotal>, s: seq<T>, name: T -> string, value: T -> real)
    requires multiset(other) == multiset(groups)
    requires forall j :: 0 <= j < |groups| ==> groups[j].name in Image(s, name)
    requires forall j :: 0 <= j < |groups| ==> groups[j].value == SumOf(Filter(s, KeyIs(name, groups[j].name)), value)
    ensures forall j :: 0 <= j < |other| ==> other[j].name in Image(s, name)
    ensures forall j :: 0 <= j < |other| ==> other[j].value == SumOf(Filter(s, KeyIs(name, other[j].name)), value)
  {
    forall j | 0 <= j < |other|
      ensures other[j].name in Image(s, name)
      ensures other[j].value == SumOf(Filter(s, KeyIs(name, other[j].name)), value)
    {
      assert other[j] in multiset(groups);
      var k :| 0 <= k < |groups| && groups[k] == other[j];
    }
  }

  lemma SameNames<T>(groups: seq<NamedTotal>, other: seq<NamedTotal>, s: seq<T>, name: T -> string)
    requires multiset(other) == multiset(groups)
    requires forall i :: 0 <= i < |s| ==> name(s[i]) in NamesOf(groups)
    ensures forall i :: 0 <= i < |s| ==> name(s[i]) in NamesOf(other)
  {
    forall i | 0 <= i < |s| ensures name(s[i]) in NamesOf(other) {
      var k :| 0 <= k < |groups| && NamesOf(groups)[k] == name(s[i]);
      assert groups[k] in multiset(other);
      var j :| 0 <= j < |other| && other[j] == groups[k];
      assert NamesOf(other)[j] == name(s[i]);
    }
  }

  /** `.slice(0, k)` of the sorted entries: at most `k` entries, largest
      first, and none of the entries left out is larger than one kept. */
  function Top(sorted: seq<NamedTotal>, k: nat): (r: seq<NamedTotal>)
    requires NonIncreasing(sorted, ValueOf)
    ensures |r| == if |sorted| < k then |sorted| else k
    ensures NonIncreasing(r, ValueOf)
    ensures forall j :: 0 <= j < |r| ==> r[j] == sorted[j]
    ensures forall j, m :: 0 <= j < |r| <= m < |sorted| ==> sorted[m].value <= r[j].value
  {
    if |sorted| < k then sorted else sorted[..k]
  }

  /** The first entries of a grouping still have distinct names and the
      totals of their names; fewer than `k` of them means no name was left
      out, and a name left out totals no more than any name kept. */
  lemma TopOfGrouping<T>(sorted: seq<NamedTotal>, k: nat, s: seq<T>, name: T -> string, value: T -> real)
    requires NonIncreasing(sorted, ValueOf)
    requires IsGrouping(sorted, s, name, value)
    ensures var top := Top(sorted, k);
            && AllPairs(top, DifferentNames())
            && (forall j :: 0 <= j < |top| ==> top[j].name in Image(s, name))
            && (forall j :: 0 <= j < |top| ==> top[j].value == SumOf(Filter(s, KeyIs(name, top[j].name)), value))
            && (|top| < k ==> forall i :: 0 <= i < |s| ==> name(s[i]) in NamesOf(top))
            && (forall i, j :: 0 <= i < |s| && name(s[i]) !in NamesOf(top) && 0 <= j < |top| ==>
                  SumOf(Filter(s, KeyIs(name, name(s[i]))), value) <= top[j].value)
  {
    TopEntries(sorted, k, s, name, value);
    TopComplete(sorted, k, s, name);
    TopLeftOut(sorted, k, s, name, value);
  }

  lemma TopEntries<T>(sorted: seq<NamedTotal>, k: nat, s: seq<T>, name: T -> string, value: T -> real)
    requires NonIncreasing(sorted, ValueOf)
    requires IsGrouping(sorted, s, name, value)
    ensures var top := Top(sorted, k);
            && AllPairs(top, DifferentNames())
            && (forall j :: 0 <= j < |top| ==> top[j].name in Image(s, name))
            && (forall j :: 0 <= j < |top| ==> top[j].value == SumOf(Filter(s, KeyIs(name, top[j].name)), value))
  {
    var top := Top(sorted, k);
    forall i, j | 0 <= i < |top| && 0 <= j < |top| && i != j ensures DifferentNames()(top[i], top[j]) {
      assert top[i] == sorted[i] && top[j] == sorted[j];
    }
  }

  lemma TopComplete<T>(sorted: seq<NamedTotal>, k: nat, s: seq<T>, name: T -> string)
    requires NonIncreasing(sorted, ValueOf)
    requires forall i :: 0 <= i < |s| ==> name(s[i]) in NamesOf(sorted)
    ensures var top := Top(sorted, k);
            |top| < k ==> forall i :: 0 <= i < |s| ==> name(s[i]) in NamesOf(top)
  {
  }

  lemma TopLeftOut<T>(sorted: seq<NamedTotal>, k: nat, s: seq<T>, name: T -> string, value: T -> real)
    requires NonIncreasing(sorted, ValueOf)
    requires forall i :: 0 <= i < |s| ==> name(s[i]) in NamesOf(sorted)
    requires forall j :: 0 <= j < |sorted| ==> sorted[j].value == SumOf(Filter(s, KeyIs(name, sorted[j].name)), value)
    ensures var top := Top(sorted, k);
            forall i, j :: 0 <= i < |s| && name(s[i]) !in NamesOf(top) && 0 <= j < |top| ==>
              SumOf(Filter(s, KeyIs(name, name(s[i]))), value) <= top[j].value
  {
    var top := Top(sorted, k);
    forall i, j | 0 <= i < |s| && name(s[i]) !in NamesOf(top) && 0 <= j < |top|
      ensures SumOf(Filter(s, KeyIs(name, name(s[i]))), value) <= top[j].value
    {
      LeftOutRow(sorted, k, s, name, value, i, j);
    }
  }

  lemma LeftOutRow<T>(sorted: seq<NamedTotal>, k: nat, s: seq<T>, name: T -> string, value: T -> real, i: nat, j: nat)
    requires NonIncreasing(sorted, ValueOf)
    requires i < |s| && name(s[i]) in NamesOf(sorted)
    requires forall j :: 0 <= j < |sorted| ==> sorted[j].value == SumOf(Filter(s, KeyIs(name, sorted[j].name)), value)
    requires name(s[i]) !in NamesOf(Top(sorted, k)) && j < |Top(sorted, k)|
    ensures SumOf(Filter(s, KeyIs(name, name(s[i]))), value) <= Top(sorted, k)[j].value
  {
    var m :| 0 <= m < |sorted| && NamesOf(sorted)[m] == name(s[i]);
    LeftOutBelow(sorted, k, m, j);
  }

  /** An entry whose name is not among the first `k` is no larger than any
      entry kept. */
  lemma LeftOutBelow(sorted: seq<NamedTotal>, k: nat, m: nat, j: nat)
    requires NonIncreasing(sorted, ValueOf)
    requires m < |sorted| && j < |Top(sorted, k)|
    requires sorted[m].name !in NamesOf(Top(sorted, k))
    ensures sorted[m].value <= Top(sorted, k)[j].value
  {
    KeptName(Top(sorted, k), sorted, m);
  }

  lemma KeptName(top: seq<NamedTotal>, sorted: seq<NamedTotal>, m: nat)
    requires |top| <= |sorted| && m < |sorted|
    requires forall j :: 0 <= j < |top| ==> top[j] == sorted[j]
    ensures m < |top| ==> sorted[m].name in NamesOf(top)
  {
    if m < |top| {
      assert NamesOf(top)[m] == sorted[m].name;
    }
  }
}
