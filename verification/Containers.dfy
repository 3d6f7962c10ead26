/** The physical containers behind the generated routes, each in the observable
    form its header gives it: a vector of slot ids kept sorted through
    `std::lower_bound`, and rows kept sorted by composite key. */
module Containers {
  import opened Keys

  // ---- posting lists: sorted vectors of slot ids ----

  ghost predicate Ascending(ids: seq<nat>) {
    forall i, j :: 0 <= i < j < |ids| ==> ids[i] < ids[j]
  }

  /** `std::lower_bound(ids.begin(), ids.end(), id)`. */
  function LowerBound(ids: seq<nat>, id: nat): (at: nat)
    ensures at <= |ids|
    ensures forall i :: 0 <= i < at ==> ids[i] < id
    ensures at < |ids| ==> id <= ids[at]
  {
    if ids == [] || id <= ids[0] then 0 else 1 + LowerBound(ids[1..], id)
  }

  function InsertId(ids: seq<nat>, id: nat): seq<nat> {
    var at := LowerBound(ids, id);
    if at == |ids| || ids[at] != id then ids[..at] + [id] + ids[at..] else ids
  }

  predicate HoldsId(ids: seq<nat>, id: nat) {
    var at := LowerBound(ids, id);
    at < |ids| && ids[at] == id
  }

  function EraseId(ids: seq<nat>, id: nat): seq<nat>
    requires HoldsId(ids, id)
  {
    var at := LowerBound(ids, id);
    ids[..at] + ids[at + 1..]
  }

  lemma InsertIdKeeps(ids: seq<nat>, id: nat)
    requires Ascending(ids)
    ensures Ascending(InsertId(ids, id))
    ensures forall x :: x in InsertId(ids, id) <==> x == id || x in ids
    ensures InsertId(ids, id) != []
  {
    var at := LowerBound(ids, id);
    Inserted(ids, at, id);
    forall i | at <= i < |ids| ensures id <= ids[i] && (i > at ==> id < ids[i]) {
      assert ids[at] <= ids[i];
    }
  }

  /** What inserting in the middle of a sequence does to its indices and members. */
  lemma Inserted<T>(s: seq<T>, at: nat, e: T)
    requires at <= |s|
    ensures var t := s[..at] + [e] + s[at..];
            && |t| == |s| + 1 && t[at] == e
            && (forall i :: 0 <= i < at ==> t[i] == s[i])
            && (forall i :: at < i < |t| ==> t[i] == s[i - 1])
            && (forall x :: x in t <==> x == e || x in s)
  {
    var t := s[..at] + [e] + s[at..];
    forall x ensures x in t <==> x == e || x in s {
      if x == e { assert t[at] == x; }
      if x in s {
        var i :| 0 <= i < |s| && s[i] == x;
        assert t[if i < at then i else i + 1] == x;
      }
      if x in t {
        var i :| 0 <= i < |t| && t[i] == x;
        assert i == at || s[if i < at then i else i - 1] == x;
      }
    }
  }

  /** What removing from the middle of a sequence does to its indices and members. */
  lemma Removed<T>(s: seq<T>, at: nat)
    requires at < |s|
    ensures var t := s[..at] + s[at + 1..];
            && |t| == |s| - 1
            && (forall i :: 0 <= i < at ==> t[i] == s[i])
            && (forall i :: at <= i < |t| ==> t[i] == s[i + 1])
            && (forall x :: x in s <==> x == s[at] || x in t)
  {
    var t := s[..at] + s[at + 1..];
    forall x ensures x in s <==> x == s[at] || x in t {
      if x in t {
        var i :| 0 <= i < |t| && t[i] == x;
        assert s[if i < at then i else i + 1] == x;
      }
      if x in s {
        var i :| 0 <= i < |s| && s[i] == x;
        assert i == at || t[if i < at then i else i - 1] == x;
      }
    }
  }

  lemma HoldsIdIsMembership(ids: seq<nat>, id: nat)
    requires Ascending(ids)
    ensures HoldsId(ids, id) <==> id in ids
  {
  }

  lemma EraseIdKeeps(ids: seq<nat>, id: nat)
    requires Ascending(ids) && HoldsId(ids, id)
    ensures Ascending(EraseId(ids, id))
    ensures forall x :: x in EraseId(ids, id) <==> x != id && x in ids
  {
    Removed(ids, LowerBound(ids, id));
  }

  /** An ascending list is determined by its members. */
  lemma {:induction false} AscendingUnique(a: seq<nat>, b: seq<nat>)
    requires Ascending(a) && Ascending(b)
    requires forall x :: x in a <==> x in b
    ensures a == b
  {
    assert a != [] ==> a[0] in b;
    assert b != [] ==> b[0] in a;
    if a != [] && b != [] {
      assert a[0] == b[0];
      forall x ensures x in a[1..] <==> x in b[1..] {
        if x in a[1..] { assert x in a && x != a[0]; }
        if x in b[1..] { assert x in b && x != b[0]; }
      }
      AscendingUnique(a[1..], b[1..]);
      assert a == [a[0]] + a[1..] && b == [b[0]] + b[1..];
    }
  }

  // ---- ordered rows: MutableSortedArrayIndex, and what BPlusTreeIndex shows ----

  datatype Row<V> = Row(key: Composite, value: V)

  ghost predicate Ordered<V>(rows: seq<Row<V>>) {
    forall i, j :: 0 <= i < j < |rows| ==> CompositeLess(rows[i].key, rows[j].key)
  }

  function RowBound<V>(rows: seq<Row<V>>, key: Composite): (at: nat)
    ensures at <= |rows|
    ensures forall i :: 0 <= i < at ==> CompositeLess(rows[i].key, key)
    ensures at < |rows| ==> !CompositeLess(rows[at].key, key)
  {
    if rows == [] || !CompositeLess(rows[0].key, key) then 0 else 1 + RowBound(rows[1..], key)
  }

  function InsertOrAssign<V>(rows: seq<Row<V>>, key: Composite, value: V): seq<Row<V>> {
    var at := RowBound(rows, key);
    if at < |rows| && !CompositeLess(key, rows[at].key) then rows[at := Row(rows[at].key, value)]
    else rows[..at] + [Row(key, value)] + rows[at..]
  }

  function EraseRow<V>(rows: seq<Row<V>>, key: Composite): seq<Row<V>> {
    var at := RowBound(rows, key);
    if at < |rows| && !CompositeLess(key, rows[at].key) then rows[..at] + rows[at + 1..] else rows
  }

  /** From the lower bound on, every row lies at or above the key; strictly above past it. */
  lemma RowBoundSplits<V>(rows: seq<Row<V>>, key: Composite)
    requires Ordered(rows)
    ensures var at := RowBound(rows, key);
            && (forall i :: at <= i < |rows| ==> rows[i].key == key || CompositeLess(key, rows[i].key))
            && (forall i :: at < i < |rows| ==> CompositeLess(key, rows[i].key))
            && (at < |rows| && !CompositeLess(key, rows[at].key) ==> rows[at].key == key)
  {
    var at := RowBound(rows, key);
    if at < |rows| {
      CompositeTrichotomy(rows[at].key, key);
      forall i | at < i < |rows| ensures CompositeLess(key, rows[i].key) {
        if rows[at].key != key {
          CompositeTransitive(key, rows[at].key, rows[i].key);
        }
      }
    }
  }

  lemma InsertOrAssignKeeps<V>(rows: seq<Row<V>>, key: Composite, value: V)
    requires Ordered(rows)
    ensures Ordered(InsertOrAssign(rows, key, value))
    ensures forall row :: row in InsertOrAssign(rows, key, value) <==>
              row == Row(key, value) || (row.key != key && row in rows)
  {
    RowBoundSplits(rows, key);
    var at := RowBound(rows, key);
    KeyElsewhere(rows, key);
    if at < |rows| && !CompositeLess(key, rows[at].key) {
      Removed(rows, at);
      var rest := rows[..at] + rows[at + 1..];
      assert rest[..at] == rows[..at] && rest[at..] == rows[at + 1..];
      Inserted(rest, at, Row(key, value));
      assert InsertOrAssign(rows, key, value) == rest[..at] + [Row(key, value)] + rest[at..];
    } else {
      Inserted(rows, at, Row(key, value));
    }
  }

  /** Only the row at the lower bound can carry the key. */
  lemma KeyElsewhere<V>(rows: seq<Row<V>>, key: Composite)
    requires Ordered(rows)
    ensures forall i :: 0 <= i < |rows| && i != RowBound(rows, key) ==> rows[i].key != key
    ensures var at := RowBound(rows, key); at < |rows| && CompositeLess(key, rows[at].key) ==> rows[at].key != key
    ensures forall row :: row in rows && row.key == key ==>
              RowBound(rows, key) < |rows| && row == rows[RowBound(rows, key)]
  {
    RowBoundSplits(rows, key);
    CompositeTrichotomy(key, key);
  }

  lemma EraseRowKeeps<V>(rows: seq<Row<V>>, key: Composite)
    requires Ordered(rows)
    ensures Ordered(EraseRow(rows, key))
    ensures forall row :: row in EraseRow(rows, key) <==> row.key != key && row in rows
  {
    RowBoundSplits(rows, key);
    KeyElsewhere(rows, key);
    var at := RowBound(rows, key);
    if at < |rows| && !CompositeLess(key, rows[at].key) {
      Removed(rows, at);
    }
  }

  /** Two rows of an ordered container with one key are one row. */
  lemma OrderedKeysDistinct<V>(rows: seq<Row<V>>, i: nat, j: nat)
    requires Ordered(rows) && i < |rows| && j < |rows| && rows[i].key == rows[j].key
    ensures i == j
  {
    CompositeTrichotomy(rows[i].key, rows[i].key);
  }

  predicate Within(key: Composite, low: Composite, high: Composite) {
    !CompositeLess(key, low) && !CompositeLess(high, key)
  }

  /** The values of the rows within the bounds, in row order. */
  function RowsWithin(rows: seq<Row<nat>>, low: Composite, high: Composite): seq<nat> {
    if rows == [] then []
    else
      var last := rows[|rows| - 1];
      RowsWithin(rows[..|rows| - 1], low, high) + if Within(last.key, low, high) then [last.value] else []
  }

  lemma {:induction false} RowsOutside(rows: seq<Row<nat>>, upTo: nat, low: Composite, high: Composite)
    requires upTo <= |rows|
    requires forall i :: upTo <= i < |rows| ==> !Within(rows[i].key, low, high)
    ensures RowsWithin(rows, low, high) == RowsWithin(rows[..upTo], low, high)
  {
    if upTo < |rows| {
      RowsOutside(rows[..|rows| - 1], upTo, low, high);
      assert rows[..|rows| - 1][..upTo] == rows[..upTo];
    } else {
      assert rows[..upTo] == rows;
    }
  }

  /** `range(low, high)` of both ordered primitives: empty when the bounds are
      reversed, otherwise a walk from the lower bound until a key exceeds `high`.
      It yields exactly the rows within the bounds, in key order. */
  method RangeOf(rows: seq<Row<nat>>, low: Composite, high: Composite) returns (out: seq<nat>)
    requires Ordered(rows)
    ensures out == RowsWithin(rows, low, high)
  {
    out := [];
    if CompositeLess(high, low) {
      forall i | 0 <= i < |rows| ensures !Within(rows[i].key, low, high) {
        CompositeTrichotomy(rows[i].key, low);
        if CompositeLess(low, rows[i].key) { CompositeTransitive(high, low, rows[i].key); }
      }
      RowsOutside(rows, 0, low, high);
      return;
    }
    var at := RowBound(rows, low);
    RowBoundSplits(rows, low);
    RowsOutside(rows[..at], 0, low, high);
    var it := at;
    while it < |rows| && !CompositeLess(high, rows[it].key)
      invariant at <= it <= |rows|
      invariant out == RowsWithin(rows[..it], low, high)
    {
      CompositeTrichotomy(rows[it].key, low);
      assert rows[..it + 1][..it] == rows[..it];
      out := out + [rows[it].value];
      it := it + 1;
    }
    forall i | it <= i < |rows| ensures !Within(rows[i].key, low, high) {
      if it < i { CompositeTransitive(high, rows[it].key, rows[i].key); }
    }
    RowsOutside(rows, it, low, high);
  }
}
