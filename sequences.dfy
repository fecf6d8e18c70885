/** The array operations the views are built from: `filter`, `reduce` of a
    sum, `Math.max(...)`, and `sort` with a descending comparator
    (`(a, b) => key(b) - key(a)`). */
module Sequences {

  /** `s.filter(p)`: the elements satisfying `p`, in their original order. */
  function Filter<T>(s: seq<T>, p: T -> bool): (r: seq<T>)
    ensures |r| <= |s|
    ensures forall i :: 0 <= i < |r| ==> r[i] in s && p(r[i])
  {
    if s == [] then []
    else (if p(s[0]) then [s[0]] else []) + Filter(s[1..], p)
  }

  /** Every element satisfying `p` is kept. */
  lemma {:induction false} FilterKeeps<T>(s: seq<T>, p: T -> bool)
    ensures forall i :: 0 <= i < |s| && p(s[i]) ==> s[i] in Filter(s, p)
  {
    if s != [] {
      FilterKeeps(s[1..], p);
      forall i | 0 < i < |s| && p(s[i]) ensures s[i] in Filter(s, p) {
        assert s[i] == s[1..][i - 1];
      }
    }
  }

  /** `r` lists the elements of `s` found at the strictly increasing
      positions `idx`. */
  ghost predicate PicksAt<T>(r: seq<T>, s: seq<T>, idx: seq<int>) {
    && |idx| == |r|
    && (forall k :: 0 <= k < |idx| ==> 0 <= idx[k] < |s| && r[k] == s[idx[k]])
    && (forall k, l :: 0 <= k < l < |idx| ==> idx[k] < idx[l])
  }

  /** `r` is what remains of `s` once every element failing `p` is struck
      out: the positions kept are exactly those whose element satisfies
      `p`, each kept once, in their original order. */
  ghost predicate KeepsInOrder<T>(r: seq<T>, s: seq<T>, p: T -> bool) {
    exists idx: seq<int> ::
      && PicksAt(r, s, idx)
      && (forall k :: 0 <= k < |idx| ==> p(s[idx[k]]))
      && (forall i :: 0 <= i < |s| && p(s[i]) ==> i in idx)
  }

  /** The positions of `s` whose element satisfies `p`, in increasing
      order. */
  ghost function Positions<T>(s: seq<T>, p: T -> bool): seq<int>
    decreases |s|
  {
    if s == [] then [] else Positions(s[..|s| - 1], p) + (if p(s[|s| - 1]) then [|s| - 1] else [])
  }

  /** `filter` strikes out exactly the failing elements and keeps the order
      and the multiplicity of the others. */
  lemma FilterInOrder<T>(s: seq<T>, p: T -> bool)
    ensures KeepsInOrder(Filter(s, p), s, p)
  {
    FilterAtPositions(s, p);
    KeptAt(Filter(s, p), s, p, Positions(s, p));
  }

  /** The kept elements are those at `Positions(s, p)`. */
  lemma {:induction false} FilterAtPositions<T>(s: seq<T>, p: T -> bool)
    ensures PicksAt(Filter(s, p), s, Positions(s, p))
    ensures forall k :: 0 <= k < |Positions(s, p)| ==> 0 <= Positions(s, p)[k] < |s| && p(s[Positions(s, p)[k]])
    ensures forall i :: 0 <= i < |s| && p(s[i]) ==> i in Positions(s, p)
  {
    if s != [] {
      FilterAtPositions(s[..|s| - 1], p);
      KeepLast(s, p, Positions(s[..|s| - 1], p));
    }
  }

  /** The step of `FilterAtPositions`: the positions kept in all but the
      last element, followed by the last position when it is kept. */
  lemma KeepLast<T>(s: seq<T>, p: T -> bool, idx': seq<int>)
    requires s != []
    requires PicksAt(Filter(s[..|s| - 1], p), s[..|s| - 1], idx')
    requires forall k :: 0 <= k < |idx'| ==> 0 <= idx'[k] < |s| - 1 && p(s[..|s| - 1][idx'[k]])
    requires forall i :: 0 <= i < |s| - 1 && p(s[..|s| - 1][i]) ==> i in idx'
    ensures var idx := idx' + (if p(s[|s| - 1]) then [|s| - 1] else []);
            && PicksAt(Filter(s, p), s, idx)
            && (forall k :: 0 <= k < |idx| ==> 0 <= idx[k] < |s| && p(s[idx[k]]))
            && (forall i :: 0 <= i < |s| && p(s[i]) ==> i in idx)
  {
    var n := |s| - 1;
    FilterSnoc(s, n, p);
    assert s[..n + 1] == s;
    PickMore(Filter(s[..n], p), s, idx', p(s[n]));
    SatisfyMore(s, p, idx');
    CoverMore(s, p, idx');
  }

  /** Positions meeting all three conditions witness `KeepsInOrder`. */
  lemma KeptAt<T>(r: seq<T>, s: seq<T>, p: T -> bool, idx: seq<int>)
    requires PicksAt(r, s, idx)
    requires forall k :: 0 <= k < |idx| ==> p(s[idx[k]])
    requires forall i :: 0 <= i < |s| && p(s[i]) ==> i in idx
    ensures KeepsInOrder(r, s, p)
  {
  }

  lemma PickMore<T>(r: seq<T>, s: seq<T>, idx': seq<int>, keep: bool)
    requires s != []
    requires PicksAt(r, s[..|s| - 1], idx')
    ensures PicksAt(r + (if keep then [s[|s| - 1]] else []), s, idx' + (if keep then [|s| - 1] else []))
  {
    var n := |s| - 1;
    forall k | 0 <= k < |idx'| ensures s[..n][idx'[k]] == s[idx'[k]] { }
  }

  lemma SatisfyMore<T>(s: seq<T>, p: T -> bool, idx': seq<int>)
    requires s != []
    requires forall k :: 0 <= k < |idx'| ==> 0 <= idx'[k] < |s| - 1 && p(s[..|s| - 1][idx'[k]])
    ensures var idx := idx' + (if p(s[|s| - 1]) then [|s| - 1] else []);
            forall k :: 0 <= k < |idx| ==> 0 <= idx[k] < |s| && p(s[idx[k]])
  {
    var n := |s| - 1;
    forall k | 0 <= k < |idx'| ensures s[..n][idx'[k]] == s[idx'[k]] { }
  }

  lemma CoverMore<T>(s: seq<T>, p: T -> bool, idx': seq<int>)
    requires s != []
    requires forall i :: 0 <= i < |s| - 1 && p(s[..|s| - 1][i]) ==> i in idx'
    ensures var idx := idx' + (if p(s[|s| - 1]) then [|s| - 1] else []);
            forall i :: 0 <= i < |s| && p(s[i]) ==> i in idx
  {
    var n := |s| - 1;
    forall i | 0 <= i < n ensures s[..n][i] == s[i] { }
  }

  /** The number of kept elements is the number of satisfying positions. */
  lemma {:induction false} FilterCount<T>(s: seq<T>, p: T -> bool)
    ensures |Filter(s, p)| == |set i | 0 <= i < |s| && p(s[i])|
  {
    if s != [] {
      var n := |s| - 1;
      FilterCount(s[..n], p);
      FilterSnoc(s, n, p);
      assert s[..n + 1] == s;
      var before := set i | 0 <= i < n && p(s[..n][i]);
      var all := set i | 0 <= i < |s| && p(s[i]);
      assert n !in before;
      if p(s[n]) {
        assert all == before + {n};
      } else {
        assert all == before;
      }
    }
  }

  /** The same count, for any description of the satisfying positions. */
  lemma FilterCountOf<T>(s: seq<T>, p: T -> bool, at: set<int>)
    requires forall i :: i in at <==> 0 <= i < |s| && p(s[i])
    ensures |Filter(s, p)| == |at|
  {
    FilterCount(s, p);
    assert at == set i | 0 <= i < |s| && p(s[i]);
  }

  lemma {:induction false} FilterConcat<T>(a: seq<T>, b: seq<T>, p: T -> bool)
    ensures Filter(a + b, p) == Filter(a, p) + Filter(b, p)
  {
    if a != [] {
      assert (a + b)[1..] == a[1..] + b;
      FilterConcat(a[1..], b, p);
    } else {
      assert a + b == b;
    }
  }

  /** `s.reduce((sum, x) => sum + f(x), 0)` (over the reals the order of the
      additions does not matter). */
  function SumOf<T>(s: seq<T>, f: T -> real): real
  {
    if s == [] then 0.0 else f(s[0]) + SumOf(s[1..], f)
  }

  lemma {:induction false} SumOfConcat<T>(a: seq<T>, b: seq<T>, f: T -> real)
    ensures SumOf(a + b, f) == SumOf(a, f) + SumOf(b, f)
  {
    if a != [] {
      assert (a + b)[1..] == a[1..] + b;
      SumOfConcat(a[1..], b, f);
    } else {
      assert a + b == b;
    }
  }

  /** A prefix one element longer is the prefix followed by that element. */
  lemma TakeOneMore<T>(s: seq<T>, k: nat)
    requires k < |s|
    ensures s[..k + 1] == s[..k] + [s[k]]
  {
  }

  /** Summing a prefix one element longer adds that element. */
  lemma SumOfSnoc<T>(s: seq<T>, k: nat, f: T -> real)
    requires k < |s|
    ensures SumOf(s[..k + 1], f) == SumOf(s[..k], f) + f(s[k])
  {
    assert s[..k + 1] == s[..k] + [s[k]];
    SumOfConcat(s[..k], [s[k]], f);
  }

  lemma FilterSnoc<T>(s: seq<T>, k: nat, p: T -> bool)
    requires k < |s|
    ensures Filter(s[..k + 1], p) == Filter(s[..k], p) + (if p(s[k]) then [s[k]] else [])
  {
    assert s[..k + 1] == s[..k] + [s[k]];
    FilterConcat(s[..k], [s[k]], p);
  }

  /** Summing the kept elements of a sequence one element longer adds that
      element when it is kept. */
  lemma FilterSumLast<T>(s: seq<T>, p: T -> bool, f: T -> real)
    requires s != []
    ensures SumOf(Filter(s, p), f) == SumOf(Filter(s[..|s| - 1], p), f) + (if p(s[|s| - 1]) then f(s[|s| - 1]) else 0.0)
  {
    var n := |s| - 1;
    FilterSnoc(s, n, p);
    assert s[..n + 1] == s;
    var tail := if p(s[n]) then [s[n]] else [];
    SumOfConcat(Filter(s[..n], p), tail, f);
    assert SumOf(tail, f) == if p(s[n]) then f(s[n]) else 0.0 by {
      if p(s[n]) { assert tail[1..] == []; }
    }
  }

  /** Splitting a sum by a predicate `p` and its complement `q`: the part
      where `p` holds plus the part where it does not is the whole. */
  lemma {:induction false} SumOfPartition<T>(s: seq<T>, p: T -> bool, q: T -> bool, f: T -> real)
    requires forall x :: q(x) == !p(x)
    ensures SumOf(Filter(s, p), f) + SumOf(Filter(s, q), f) == SumOf(s, f)
  {
    if s != [] {
      SumOfPartition(s[1..], p, q, f);
      var a := if p(s[0]) then [s[0]] else [];
      var b := if q(s[0]) then [s[0]] else [];
      SumOfConcat(a, Filter(s[1..], p), f);
      SumOfConcat(b, Filter(s[1..], q), f);
    }
  }

  /** Every element satisfies exactly one of `p` and its complement `q`, so
      the two filtered sequences together are as long as the original. */
  lemma {:induction false} FilterPartitionLength<T>(s: seq<T>, p: T -> bool, q: T -> bool)
    requires forall x :: q(x) == !p(x)
    ensures |Filter(s, p)| + |Filter(s, q)| == |s|
  {
    if s != [] {
      FilterPartitionLength(s[1..], p, q);
    }
  }

  /** Filtering with a predicate that implies the outer one is the same as
      filtering the already filtered sequence. */
  lemma {:induction false} FilterFilter<T>(s: seq<T>, p: T -> bool, q: T -> bool)
    requires forall x :: q(x) ==> p(x)
    ensures Filter(Filter(s, p), q) == Filter(s, q)
  {
    if s != [] {
      FilterFilter(s[1..], p, q);
      var head := if p(s[0]) then [s[0]] else [];
      FilterConcat(head, Filter(s[1..], p), q);
    }
  }

  /** Filters with predicates that agree everywhere give the same result. */
  lemma {:induction false} FilterSame<T>(s: seq<T>, p: T -> bool, q: T -> bool)
    requires forall x :: p(x) == q(x)
    ensures Filter(s, p) == Filter(s, q)
  {
    if s != [] {
      FilterSame(s[1..], p, q);
    }
  }

  /** A filter that every element passes keeps the whole sequence. */
  lemma {:induction false} FilterAll<T>(s: seq<T>, p: T -> bool)
    requires forall i :: 0 <= i < |s| ==> p(s[i])
    ensures Filter(s, p) == s
  {
    if s != [] {
      FilterAll(s[1..], p);
      assert s == [s[0]] + s[1..];
    }
  }

  /** Filtering twice is filtering once with the conjunction. */
  lemma {:induction false} FilterAnd<T>(s: seq<T>, p: T -> bool, q: T -> bool, both: T -> bool)
    requires forall x :: both(x) == (p(x) && q(x))
    ensures Filter(Filter(s, p), q) == Filter(s, both)
  {
    if s != [] {
      FilterAnd(s[1..], p, q, both);
      var head := if p(s[0]) then [s[0]] else [];
      FilterConcat(head, Filter(s[1..], p), q);
    }
  }

  /** Replacing one element changes the sum by the difference. */
  lemma {:induction false} SumOfUpdate<T>(s: seq<T>, k: nat, x: T, f: T -> real)
    requires k < |s|
    ensures SumOf(s[k := x], f) == SumOf(s, f) - f(s[k]) + f(x)
  {
    if k > 0 {
      assert s[k := x][1..] == s[1..][k - 1 := x];
      SumOfUpdate(s[1..], k - 1, x, f);
    } else {
      assert s[k := x][1..] == s[1..];
    }
  }

  /** A sum of `n` terms each in [lo, hi] lies in [n * lo, n * hi]. */
  lemma {:induction false} SumBounds<T>(s: seq<T>, f: T -> real, lo: real, hi: real)
    requires forall i :: 0 <= i < |s| ==> lo <= f(s[i]) <= hi
    ensures |s| as real * lo <= SumOf(s, f) <= |s| as real * hi
  {
    if s != [] {
      SumBounds(s[1..], f, lo, hi);
      assert (|s| - 1) as real * lo + lo == |s| as real * lo;
      assert (|s| - 1) as real * hi + hi == |s| as real * hi;
    }
  }

  /** `s.map(f)` */
  function Image<T, U>(s: seq<T>, f: T -> U): (r: seq<U>)
    ensures |r| == |s|
    ensures forall i :: 0 <= i < |s| ==> r[i] == f(s[i])
  {
    seq(|s|, i requires 0 <= i < |s| => f(s[i]))
  }

  lemma ImageSnoc<T, U>(s: seq<T>, k: nat, f: T -> U)
    requires k < |s|
    ensures Image(s[..k + 1], f) == Image(s[..k], f) + [f(s[k])]
  {
  }

  // ---------------------------------------------------------------------------
  // Sums per key

  /** The elements whose key is `k`. */
  function KeyIs<T, K(==)>(key: T -> K, k: K): T -> bool {
    x => key(x) == k
  }

  function KeyIsNot<T, K(==)>(key: T -> K, k: K): T -> bool {
    x => key(x) != k
  }

  /** The sums of the elements of each key in `ks`, added up. */
  function SumOverKeys<T, K(==)>(ks: seq<K>, s: seq<T>, key: T -> K, f: T -> real): real {
    if ks == [] then 0.0 else SumOf(Filter(s, KeyIs(key, ks[0])), f) + SumOverKeys(ks[1..], s, key, f)
  }

  /** Elements of a key outside `ks` do not contribute to the per-key sums. */
  lemma {:induction false} SumOverKeysSkip<T, K>(ks: seq<K>, s: seq<T>, key: T -> K, f: T -> real, k0: K)
    requires k0 !in ks
    ensures SumOverKeys(ks, Filter(s, KeyIsNot(key, k0)), key, f) == SumOverKeys(ks, s, key, f)
  {
    if ks != [] {
      SumOverKeysSkip(ks[1..], s, key, f, k0);
      FilterFilter(s, KeyIsNot(key, k0), KeyIs(key, ks[0]));
    }
  }

  /** Every element lies in the block of exactly one key of `ks` (the keys
      are distinct and cover every element's key), so the per-key sums add
      up to the whole sum. */
  lemma {:induction false} SumByKeys<T, K>(ks: seq<K>, s: seq<T>, key: T -> K, f: T -> real)
    requires forall i, j :: 0 <= i < j < |ks| ==> ks[i] != ks[j]
    requires forall i :: 0 <= i < |s| ==> key(s[i]) in ks
    ensures SumOverKeys(ks, s, key, f) == SumOf(s, f)
  {
    if ks == [] {
      NoKeysNoElements(ks, s, key);
    } else {
      var k0 := ks[0];
      var rest := Filter(s, KeyIsNot(key, k0));
      SumOfPartition(s, KeyIs(key, k0), KeyIsNot(key, k0), f);
      assert forall i :: 0 <= i < |rest| ==> key(rest[i]) in ks[1..] by {
        forall i | 0 <= i < |rest| ensures key(rest[i]) in ks[1..] {
          assert rest[i] in s;
          var j :| 0 <= j < |s| && s[j] == rest[i];
          var k :| 0 <= k < |ks| && ks[k] == key(rest[i]);
          assert k != 0;
          assert ks[1..][k - 1] == ks[k];
        }
      }
      assert forall i, j :: 0 <= i < j < |ks[1..]| ==> ks[1..][i] != ks[1..][j] by {
        forall i, j | 0 <= i < j < |ks[1..]| ensures ks[1..][i] != ks[1..][j] {
          assert ks[1..][i] == ks[i + 1] && ks[1..][j] == ks[j + 1];
        }
      }
      SumByKeys(ks[1..], rest, key, f);
      assert k0 !in ks[1..] by {
        forall k | 0 <= k < |ks[1..]| ensures ks[1..][k] != k0 {
          assert ks[1..][k] == ks[k + 1];
        }
      }
      SumOverKeysSkip(ks[1..], s, key, f, k0);
    }
  }

  lemma NoKeysNoElements<T, K>(ks: seq<K>, s: seq<T>, key: T -> K)
    ensures ks == [] && (forall i :: 0 <= i < |s| ==> key(s[i]) in ks) ==> s == []
  {
    if |s| > 0 {
      assert key(s[0]) in ks ==> ks != [];
    }
  }

  /** `Math.max(...s, floor)` */
  function MaxWith(s: seq<real>, floor: real): (r: real)
    ensures r >= floor
    ensures forall i :: 0 <= i < |s| ==> r >= s[i]
    ensures r == floor || r in s
  {
    if s == [] then floor
    else
      var m := MaxWith(s[1..], floor);
      if s[0] >= m then s[0] else m
  }

  // ---------------------------------------------------------------------------
  // Sorting, largest key first

  predicate NonIncreasing<T>(s: seq<T>, key: T -> real) {
    forall i, j :: 0 <= i < j < |s| ==> key(s[i]) >= key(s[j])
  }

  /** Inserts `x` before the first element whose key is not larger than its own. */
  function InsertDesc<T>(x: T, s: seq<T>, key: T -> real): (r: seq<T>)
    requires NonIncreasing(s, key)
    ensures multiset(r) == multiset{x} + multiset(s)
    ensures NonIncreasing(r, key)
  {
    if s == [] || key(x) >= key(s[0]) then
      assert NonIncreasing([x] + s, key) by {
        ConsNonIncreasing(x, s, key);
      }
      [x] + s
    else
      var rest := InsertDesc(x, s[1..], key);
      assert s == [s[0]] + s[1..];
      assert NonIncreasing([s[0]] + rest, key) by {
        HeadAbove(x, s, rest, key);
        ConsNonIncreasing(s[0], rest, key);
      }
      [s[0]] + rest
  }

  /** A head no smaller than every element keeps a non-increasing tail
      non-increasing. */
  lemma ConsNonIncreasing<T>(h: T, s: seq<T>, key: T -> real)
    requires NonIncreasing(s, key)
    requires s == [] || key(h) >= key(s[0])
    ensures NonIncreasing([h] + s, key)
  {
    var r := [h] + s;
    forall i, j | 0 <= i < j < |r| ensures key(r[i]) >= key(r[j]) {
      if i > 0 {
        assert r[i] == s[i - 1] && r[j] == s[j - 1];
      } else {
        assert r[j] == s[j - 1];
      }
    }
  }

  /** When `x` goes after the head of `s`, the head is still first: its key
      is at least the first key of the rest with `x` inserted. */
  lemma HeadAbove<T>(x: T, s: seq<T>, rest: seq<T>, key: T -> real)
    requires NonIncreasing(s, key) && s != [] && key(x) < key(s[0])
    requires multiset(rest) == multiset{x} + multiset(s[1..])
    ensures rest == [] || key(s[0]) >= key(rest[0])
  {
    if rest != [] {
      assert rest[0] in multiset(rest);
      if rest[0] != x {
        assert rest[0] in multiset(s[1..]);
        var k :| 0 <= k < |s[1..]| && s[1..][k] == rest[0];
        assert s[k + 1] == rest[0];
      }
    }
  }

  /** `s.sort((a, b) => key(b) - key(a))`: a sort by insertion, largest key
      first. */
  function SortDesc<T>(s: seq<T>, key: T -> real): (r: seq<T>)
    ensures |r| == |s|
    ensures multiset(r) == multiset(s)
    ensures NonIncreasing(r, key)
  {
    if s == [] then []
    else
      var r := InsertDesc(s[0], SortDesc(s[1..], key), key);
      assert multiset(r) == multiset(s) by {
        assert s == [s[0]] + s[1..];
      }
      assert |r| == |multiset(r)|;
      r
  }

  /** `R` holds between any two elements at different positions. */
  predicate AllPairs<T>(s: seq<T>, R: (T, T) -> bool) {
    forall i, j :: 0 <= i < |s| && 0 <= j < |s| && i != j ==> R(s[i], s[j])
  }

  lemma InsertElements<T>(x: T, s: seq<T>, key: T -> real)
    requires NonIncreasing(s, key)
    ensures forall y :: y in InsertDesc(x, s, key) ==> y == x || y in s
  {
    var r := InsertDesc(x, s, key);
    forall y | y in r ensures y == x || y in s {
      assert y in multiset(r);
    }
  }

  lemma {:induction false} InsertKeepsPairs<T>(x: T, s: seq<T>, key: T -> real, R: (T, T) -> bool)
    requires NonIncreasing(s, key)
    requires AllPairs(s, R)
    requires forall y :: y in s ==> R(x, y) && R(y, x)
    ensures AllPairs(InsertDesc(x, s, key), R)
  {
    if s != [] && key(x) < key(s[0]) {
      var rest := InsertDesc(x, s[1..], key);
      assert AllPairs(s[1..], R) by {
        forall i, j | 0 <= i < |s[1..]| && 0 <= j < |s[1..]| && i != j
          ensures R(s[1..][i], s[1..][j])
        {
          assert s[1..][i] == s[i + 1] && s[1..][j] == s[j + 1];
        }
      }
      InsertKeepsPairs(x, s[1..], key, R);
      InsertElements(x, s[1..], key);
      var r := [s[0]] + rest;
      assert forall y :: y in rest ==> R(s[0], y) && R(y, s[0]) by {
        forall y | y in rest ensures R(s[0], y) && R(y, s[0]) {
          if y != x {
            var k :| 0 <= k < |s[1..]| && s[1..][k] == y;
            assert s[k + 1] == y;
          }
        }
      }
      forall i, j | 0 <= i < |r| && 0 <= j < |r| && i != j
        ensures R(r[i], r[j])
      {
        if i > 0 && j > 0 {
          assert r[i] == rest[i - 1] && r[j] == rest[j - 1];
        } else if i == 0 {
          assert r[j] == rest[j - 1];
        } else {
          assert r[i] == rest[i - 1];
        }
      }
    }
  }

  /** Sorting keeps every pairwise relation between distinct positions
      (e.g. "no two entries share a name"). */
  lemma {:induction false} SortKeepsPairs<T>(s: seq<T>, key: T -> real, R: (T, T) -> bool)
    requires AllPairs(s, R)
    ensures AllPairs(SortDesc(s, key), R)
  {
    if s != [] {
      var t := SortDesc(s[1..], key);
      SortKeepsPairs(s[1..], key, R);
      forall y | y in t ensures R(s[0], y) && R(y, s[0]) {
        assert y in multiset(t);
        var j :| 0 < j < |s| && s[j] == y;
      }
      InsertKeepsPairs(s[0], t, key, R);
    }
  }

  /** Sorting does not change a sum. */
  lemma {:induction false} SortSum<T>(s: seq<T>, key: T -> real, f: T -> real)
    ensures SumOf(SortDesc(s, key), f) == SumOf(s, f)
  {
    if s != [] {
      SortSum(s[1..], key, f);
      InsertSum(s[0], SortDesc(s[1..], key), key, f);
    }
  }

  lemma {:induction false} InsertSum<T>(x: T, s: seq<T>, key: T -> real, f: T -> real)
    requires NonIncreasing(s, key)
    ensures SumOf(InsertDesc(x, s, key), f) == f(x) + SumOf(s, f)
  {
    if s != [] && key(x) >= key(s[0]) {
    } else if s != [] {
      InsertSum(x, s[1..], key, f);
      var r := InsertDesc(x, s, key);
      assert r[1..] == InsertDesc(x, s[1..], key);
    }
  }
}
