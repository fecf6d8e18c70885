/** One table of the local store: rows keyed by an auto-incremented integer
    primary key (`++id`), with the primitives the data layer calls — `add`,
    `bulkAdd`, `update`, `delete`, a filtered delete, `count`, `get`,
    `toArray` and `first`. Reads list rows in primary-key order. Keys are
    handed out by a counter that never goes back, so a new key exceeds every
    key the table has ever held. */
module Tables {
  import opened Wrappers

  /** A stored row together with its primary key (`id`). */
  datatype Keyed<T> = Keyed(id: int, row: T)

  /** The rows of `m` whose keys lie in [lo, hi), in ascending key order. */
  function Rows<T>(m: map<int, T>, lo: int, hi: int): seq<Keyed<T>>
    decreases hi - lo
  {
    if lo >= hi then []
    else (if lo in m then [Keyed(lo, m[lo])] else []) + Rows(m, lo + 1, hi)
  }

  /** `r` holds exactly the rows of `m` with keys in [lo, hi), each once, in
      strictly ascending key order. */
  ghost predicate IsListing<T>(r: seq<Keyed<T>>, m: map<int, T>, lo: int, hi: int) {
    && (forall i :: 0 <= i < |r| ==> lo <= r[i].id < hi && r[i].id in m && m[r[i].id] == r[i].row)
    && (forall i, j :: 0 <= i < j < |r| ==> r[i].id < r[j].id)
    && (forall k :: lo <= k < hi && k in m ==> Keyed(k, m[k]) in r)
  }

  lemma {:induction false} RowsListing<T>(m: map<int, T>, lo: int, hi: int)
    ensures IsListing(Rows(m, lo, hi), m, lo, hi)
    decreases hi - lo
  {
    if lo < hi {
      RowsListing(m, lo + 1, hi);
      if lo in m {
        ConsListing(Rows(m, lo + 1, hi), m, lo, hi);
      } else {
        SkipListing(Rows(m, lo + 1, hi), m, lo, hi);
      }
    }
  }

  /** A listing from `lo + 1` stays one from `lo` when `lo` holds no row. */
  lemma SkipListing<T>(tail: seq<Keyed<T>>, m: map<int, T>, lo: int, hi: int)
    requires lo !in m && IsListing(tail, m, lo + 1, hi)
    ensures IsListing(tail, m, lo, hi)
  {
    forall k | lo <= k < hi && k in m ensures Keyed(k, m[k]) in tail {
      assert k != lo;
    }
  }

  /** The row at `lo` put in front of a listing from `lo + 1` gives a
      listing from `lo`. */
  lemma ConsListing<T>(tail: seq<Keyed<T>>, m: map<int, T>, lo: int, hi: int)
    requires lo in m && lo < hi && IsListing(tail, m, lo + 1, hi)
    ensures IsListing([Keyed(lo, m[lo])] + tail, m, lo, hi)
  {
    var r := [Keyed(lo, m[lo])] + tail;
    forall i | 0 <= i < |r| ensures lo <= r[i].id < hi && r[i].id in m && m[r[i].id] == r[i].row {
      if i > 0 {
        assert r[i] == tail[i - 1];
      }
    }
    forall i, j | 0 <= i < j < |r| ensures r[i].id < r[j].id {
      assert r[j] == tail[j - 1];
      if i > 0 {
        assert r[i] == tail[i - 1];
      }
    }
    forall k | lo <= k < hi && k in m ensures Keyed(k, m[k]) in r {
      if k == lo {
        assert r[0] == Keyed(k, m[k]);
      } else {
        assert Keyed(k, m[k]) in tail;
      }
    }
  }

  /** Every row of a table rewritten with `f`, keys unchanged. */
  function MapValues<T>(m: map<int, T>, f: T -> T): (r: map<int, T>)
    ensures forall k :: k in r <==> k in m
    ensures forall k :: k in m ==> r[k] == f(m[k])
  {
    map k | k in m :: f(m[k])
  }

  /** A map with the same keys whose every row is `f` of the old one is the
      rewritten map. */
  lemma MapValuesUnique<T>(m': map<int, T>, m: map<int, T>, f: T -> T)
    requires m'.Keys == m.Keys
    requires forall k :: k in m ==> m'[k] == f(m[k])
    ensures m' == MapValues(m, f)
  {
    var r := MapValues(m, f);
    assert m'.Keys == r.Keys;
    forall k | k in m' ensures m'[k] == r[k] {
    }
  }

  /** A listing with every row rewritten with `f`, ids unchanged. */
  function MapRows<T>(s: seq<Keyed<T>>, f: T -> T): (r: seq<Keyed<T>>)
    ensures |r| == |s|
    ensures forall i :: 0 <= i < |s| ==> r[i] == Keyed(s[i].id, f(s[i].row))
  {
    seq(|s|, i requires 0 <= i < |s| => Keyed(s[i].id, f(s[i].row)))
  }

  /** Rewriting every row and then listing the table is listing it and then
      rewriting every listed row. */
  lemma {:induction false} RowsMapValues<T>(m: map<int, T>, f: T -> T, lo: int, hi: int)
    ensures Rows(MapValues(m, f), lo, hi) == MapRows(Rows(m, lo, hi), f)
    decreases hi - lo
  {
    if lo < hi {
      RowsMapValues(m, f, lo + 1, hi);
      var tail := Rows(m, lo + 1, hi);
      var mt := MapRows(tail, f);
      if lo in m {
        var whole := Rows(m, lo, hi);
        assert whole == [Keyed(lo, m[lo])] + tail;
        assert Rows(MapValues(m, f), lo, hi) == [Keyed(lo, f(m[lo]))] + mt;
        assert MapRows(whole, f) == [Keyed(lo, f(m[lo]))] + mt by {
          forall i | 0 <= i < |whole| ensures MapRows(whole, f)[i] == ([Keyed(lo, f(m[lo]))] + mt)[i] {
            if i > 0 {
              assert whole[i] == tail[i - 1];
            }
          }
        }
      } else {
        var none: seq<Keyed<T>> := [];
        assert Rows(m, lo, hi) == none + tail;
        assert none + tail == tail;
        assert lo !in MapValues(m, f);
        assert Rows(MapValues(m, f), lo, hi) == none + Rows(MapValues(m, f), lo + 1, hi);
        assert none + mt == mt;
      }
    }
  }

  /** `m'` is `m` with the rows `rs` added, in order, under the consecutive
      keys `start`, `start + 1`, ... */
  ghost predicate AddedInOrder<T>(m': map<int, T>, m: map<int, T>, start: int, rs: seq<T>) {
    && (forall k :: k in m' <==> k in m || start <= k < start + |rs|)
    && (forall k :: k in m ==> m'[k] == m[k])
    && (forall j :: 0 <= j < |rs| ==> start + j in m' && m'[start + j] == rs[j])
  }

  class Table<T> {
    var rows: map<int, T>
    var nextId: int

    ghost predicate Valid()
      reads this
    {
      nextId >= 1 && forall k :: k in rows ==> 1 <= k < nextId
    }

    constructor ()
      ensures Valid() && rows == map[] && nextId == 1
    {
      rows := map[];
      nextId := 1;
    }

    /** `toArray()`: every row, in primary-key order. */
    function ToArray(): (r: seq<Keyed<T>>)
      reads this
      requires Valid()
      ensures forall i :: 0 <= i < |r| ==> r[i].id in rows && rows[r[i].id] == r[i].row
      ensures forall k :: k in rows ==> Keyed(k, rows[k]) in r
      ensures forall i, j :: 0 <= i < j < |r| ==> r[i].id < r[j].id
    {
      RowsListing(rows, 1, nextId);
      assert IsListing(Rows(rows, 1, nextId), rows, 1, nextId);
      Rows(rows, 1, nextId)
    }

    /** `toCollection().first()`: the row with the smallest key, if any. */
    function First(): (r: Option<Keyed<T>>)
      reads this
      requires Valid()
      ensures r.None? <==> rows == map[]
      ensures r.Some? ==> r.value.id in rows && rows[r.value.id] == r.value.row
      ensures r.Some? ==> forall k :: k in rows ==> r.value.id <= k
    {
      var all := ToArray();
      if all == [] then
        None
      else
        assert forall k :: k in rows ==> all[0].id <= k by {
          forall k | k in rows ensures all[0].id <= k {
            var j :| 0 <= j < |all| && all[j] == Keyed(k, rows[k]);
          }
        }
        Some(all[0])
    }

    /** `get(id)` */
    function Get(id: int): (r: Option<T>)
      reads this
      ensures r.Some? <==> id in rows
      ensures r.Some? ==> r.value == rows[id]
    {
      if id in rows then Some(rows[id]) else None
    }

    /** `add(row)`: stores the row under a fresh key and returns the key. */
    method Add(row: T) returns (id: int)
      requires Valid()
      modifies this
      ensures Valid()
      ensures id == old(nextId) && nextId == id + 1
      ensures forall k :: k in old(rows) ==> k < id
      ensures rows == old(rows)[id := row]
    {
      id := nextId;
      rows := rows[id := row];
      nextId := nextId + 1;
    }

    /** `bulkAdd(rs)`: adds the rows in order under consecutive fresh keys. */
    method BulkAdd(rs: seq<T>) returns (ids: seq<int>)
      requires Valid()
      modifies this
      ensures Valid()
      ensures |ids| == |rs| && nextId == old(nextId) + |rs|
      ensures forall j :: 0 <= j < |rs| ==> ids[j] == old(nextId) + j
      ensures AddedInOrder(rows, old(rows), old(nextId), rs)
    {
      ids := [];
      var i := 0;
      while i < |rs|
        invariant 0 <= i <= |rs|
        invariant Valid()
        invariant |ids| == i && nextId == old(nextId) + i
        invariant forall j :: 0 <= j < i ==> ids[j] == old(nextId) + j
        invariant AddedInOrder(rows, old(rows), old(nextId), rs[..i])
      {
        var id := Add(rs[i]);
        ids := ids + [id];
        i := i + 1;
      }
    }

    /** `update(id, changes)`: rewrites the row with `change` if it exists; a
        missing key is left alone. */
    method Update(id: int, change: T -> T)
      requires Valid()
      modifies this`rows
      ensures Valid()
      ensures rows == if id in old(rows) then old(rows)[id := change(old(rows)[id])] else old(rows)
    {
      if id in rows {
        rows := rows[id := change(rows[id])];
      }
    }

    /** `delete(id)`; deleting a missing key does nothing. */
    method Delete(id: int)
      requires Valid()
      modifies this`rows
      ensures Valid()
      ensures rows == old(rows) - {id}
    {
      rows := rows - {id};
    }

    /** `where(...).equals(...).delete()`: removes every row matching `p`. */
    method DeleteWhere(p: T -> bool)
      requires Valid()
      modifies this`rows
      ensures Valid()
      ensures rows == map k | k in old(rows) && !p(old(rows)[k]) :: old(rows)[k]
    {
      rows := map k | k in rows && !p(rows[k]) :: rows[k];
    }
  }
}
