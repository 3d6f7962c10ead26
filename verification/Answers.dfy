/** Why each kind of route answers its query: the slot ids it yields name exactly
    the records that the reference scan keeps. */
module Answers {
  import opened Wrappers
  import Text
  import opened Keys
  import opened Containers
  import opened Routes
  import opened Reference

  /** The live order lists the populated slots, oldest first. */
  ghost predicate LiveOrder(order: seq<nat>, slots: Slots) {
    Ascending(order) && forall id: nat :: id in order <==> IsLive(slots, id)
  }

  // ---- posting lists: point lookup and filter ----

  function PostingOf(postings: Postings, key: Value): seq<nat> {
    if key in postings then postings[key] else []
  }

  lemma PostingAnswers(postings: Postings, field: nat, order: seq<nat>, slots: Slots, key: Value)
    requires LiveOrder(order, slots) && Posted(postings, field, LiveOf(slots))
    ensures Deref(PostingOf(postings, key), slots) == Scan(Deref(order, slots), WithKey(field, key))
  {
    var ids := PostingOf(postings, key);
    var wanted := WithKey(field, key);
    var live := LiveOf(slots);
    forall id: nat ensures id in ids <==> IsHit(slots, id, wanted) {
      if IsHit(slots, id, wanted) {
        assert id in live && KeyOf(live[id], field) == key;
      }
      if id in ids {
        assert key in postings && id in postings[key];
        assert id in live && KeyOf(live[id], field) == key;
      }
    }
    PostingReadsScan(order, ids, slots, wanted);
  }

  lemma BackOfDeref(ids: seq<nat>, slots: Slots)
    requires ids != [] && forall id :: id in ids ==> IsLive(slots, id)
    ensures Deref(ids, slots) != []
    ensures Deref([ids[|ids| - 1]], slots) == [Deref(ids, slots)[|Deref(ids, slots)| - 1]]
  {
    var last := ids[|ids| - 1];
    assert IsLive(slots, last);
    assert Deref([last], slots) == [slots[last].value];
  }

  /** The slot a winner map or a trie names for a key: the back of its posting list. */
  function Backmost(postings: Postings, key: Value): seq<nat> {
    var ids := PostingOf(postings, key);
    if ids == [] then [] else [ids[|ids| - 1]]
  }

  /** The largest live slot of a key holds the last matching record in logical order. */
  lemma BackmostIsLastHit(postings: Postings, field: nat, order: seq<nat>, slots: Slots, key: Value)
    requires LiveOrder(order, slots) && Posted(postings, field, LiveOf(slots))
    ensures Deref(Backmost(postings, key), slots) == LastHit(Deref(order, slots), WithKey(field, key))
  {
    var ids := PostingOf(postings, key);
    var live := LiveOf(slots);
    forall id | id in ids ensures IsLive(slots, id) {
      assert key in postings && id in postings[key];
      assert id in live;
    }
    LastOfScan(ids, order, slots, WithKey(field, key)) by {
      PostingAnswers(postings, field, order, slots, key);
    }
  }

  lemma LastOfScan(ids: seq<nat>, order: seq<nat>, slots: Slots, wanted: Wanted)
    requires forall id :: id in ids ==> IsLive(slots, id)
    requires Deref(ids, slots) == Scan(Deref(order, slots), wanted)
    ensures Deref(if ids == [] then [] else [ids[|ids| - 1]], slots) == LastHit(Deref(order, slots), wanted)
  {
    LastHitIsLastScanned(Deref(order, slots), wanted);
    if ids != [] {
      BackOfDeref(ids, slots);
    }
  }

  lemma WinnerIsBackmost(postings: Postings, primary: map<Value, nat>, key: Value)
    requires WinnersTrack(postings, primary) && forall k :: k in postings ==> postings[k] != []
    ensures Backmost(postings, key) == if key in primary then [primary[key]] else []
  {
  }

  // ---- composite rows: range ----

  /** The physical bounds of a range query. */
  function LowBound(low: Value): Composite {
    Composite(low, 0)
  }

  function HighBound(high: Value): Composite {
    Composite(high, MAX_SIZE)
  }

  lemma {:induction false} RowsWithinMembers(rows: seq<Row<nat>>, low: Composite, high: Composite, id: nat)
    ensures id in RowsWithin(rows, low, high) <==>
              exists row :: row in rows && row.value == id && Within(row.key, low, high)
  {
    if rows != [] {
      var init, last := rows[..|rows| - 1], rows[|rows| - 1];
      RowsWithinMembers(init, low, high, id);
      assert rows == init + [last];
    }
  }

  lemma {:induction false} RowsWithinDistinct(rows: seq<Row<nat>>, low: Composite, high: Composite)
    requires forall i, j :: 0 <= i < j < |rows| ==> rows[i].value != rows[j].value
    ensures Distinct(RowsWithin(rows, low, high))
  {
    if rows != [] {
      var init, last := rows[..|rows| - 1], rows[|rows| - 1];
      RowsWithinDistinct(init, low, high);
      RowsWithinMembers(init, low, high, last.value);
    }
  }

  lemma RowsTrackDistinct(rows: seq<Row<nat>>, field: nat, live: Live)
    requires RowsTrack(rows, field, live)
    ensures forall i, j :: 0 <= i < j < |rows| ==> rows[i].value != rows[j].value
  {
    forall i, j | 0 <= i < j < |rows| ensures rows[i].value != rows[j].value {
      assert rows[i] in rows && rows[j] in rows;
      if rows[i].value == rows[j].value {
        OrderedKeysDistinct(rows, i, j);
      }
    }
  }

  /** With the physical bounds, a slot is in range iff its key is. */
  lemma BoundsAreInclusive(key: Value, slot: nat, low: Value, high: Value)
    requires slot <= MAX_SIZE
    ensures Within(Composite(key, slot), LowBound(low), HighBound(high)) <==> !Less(key, low) && !Less(high, key)
  {
  }

  lemma RangeAnswers(rows: seq<Row<nat>>, field: nat, order: seq<nat>, slots: Slots, low: Value, high: Value)
    requires LiveOrder(order, slots) && RowsTrack(rows, field, LiveOf(slots)) && |slots| <= MAX_SIZE
    ensures var out := Deref(RowsWithin(rows, LowBound(low), HighBound(high)), slots);
            multiset(out) == multiset(Scan(Deref(order, slots), WithinKeys(field, low, high)))
  {
    var ids := RowsWithin(rows, LowBound(low), HighBound(high));
    var wanted := WithinKeys(field, low, high);
    var live := LiveOf(slots);
    forall id: nat ensures id in ids <==> IsHit(slots, id, wanted) {
      RowsWithinMembers(rows, LowBound(low), HighBound(high), id);
      if id in ids {
        var row :| row in rows && row.value == id && Within(row.key, LowBound(low), HighBound(high));
        assert id in live;
        BoundsAreInclusive(KeyOf(live[id], field), id, low, high);
      }
      if IsHit(slots, id, wanted) {
        assert id in live;
        BoundsAreInclusive(KeyOf(live[id], field), id, low, high);
        assert Row(Composite(KeyOf(live[id], field), id), id) in rows;
      }
    }
    RowsTrackDistinct(rows, field, live);
    RowsWithinDistinct(rows, LowBound(low), HighBound(high));
    DistinctReadsScan(order, ids, slots, wanted);
  }

  ghost predicate KeysAscend(records: seq<Record>, field: nat) {
    forall i, j :: 0 <= i < j < |records| ==> !Less(KeyOf(records[j], field), KeyOf(records[i], field))
  }

  /** The rows behind `RowsWithin`. */
  function RowsKept(rows: seq<Row<nat>>, low: Composite, high: Composite): seq<Row<nat>> {
    if rows == [] then []
    else
      var last := rows[|rows| - 1];
      RowsKept(rows[..|rows| - 1], low, high) + if Within(last.key, low, high) then [last] else []
  }

  lemma {:induction false} RowsKeptOrdered(rows: seq<Row<nat>>, low: Composite, high: Composite)
    requires Ordered(rows)
    ensures var kept := RowsKept(rows, low, high);
            && Ordered(kept)
            && (forall row :: row in kept ==> row in rows)
            && |kept| == |RowsWithin(rows, low, high)|
            && (forall i :: 0 <= i < |kept| ==> kept[i].value == RowsWithin(rows, low, high)[i])
  {
    if rows != [] {
      var init, last := rows[..|rows| - 1], rows[|rows| - 1];
      RowsKeptOrdered(init, low, high);
      var kept := RowsKept(init, low, high);
      forall i | 0 <= i < |kept| ensures CompositeLess(kept[i].key, last.key) {
        assert kept[i] in init;
      }
      assert rows == init + [last];
    }
  }

  /** Range results come out in key order. */
  lemma RangeInKeyOrder(rows: seq<Row<nat>>, field: nat, slots: Slots, low: Composite, high: Composite)
    requires RowsTrack(rows, field, LiveOf(slots))
    ensures KeysAscend(Deref(RowsWithin(rows, low, high), slots), field)
  {
    var ids := RowsWithin(rows, low, high);
    var kept := RowsKept(rows, low, high);
    var live := LiveOf(slots);
    RowsKeptOrdered(rows, low, high);
    forall i | 0 <= i < |ids|
      ensures IsLive(slots, ids[i]) && kept[i].key.key == KeyOf(slots[ids[i]].value, field)
    {
      assert kept[i] in rows;
      assert ids[i] in live;
    }
    DerefLive(ids, slots);
    forall i, j | 0 <= i < j < |ids| ensures !Less(kept[j].key.key, kept[i].key.key) {
      assert CompositeLess(kept[i].key, kept[j].key);
      LessTrichotomy(kept[i].key.key, kept[j].key.key);
    }
  }

  // ---- tries: prefix ----

  predicate KeyHasPrefix(key: Composite, prefix: Text.Text) {
    key.key.TextV? && IsPrefix(prefix, key.key.s)
  }

  /** Every posting under the prefix, group after group. */
  function PrefixIds(trie: seq<Row<seq<nat>>>, prefix: Text.Text): seq<nat> {
    if trie == [] then []
    else
      var last := trie[|trie| - 1];
      PrefixIds(trie[..|trie| - 1], prefix) + if KeyHasPrefix(last.key, prefix) then last.value else []
  }

  function Take(ids: seq<nat>, limit: nat): seq<nat> {
    if |ids| <= limit then ids else ids[..limit]
  }

  /** `prefix_search(prefix, limit)`: flatten the groups, stopping at the limit. */
  method FlattenPrefix(trie: seq<Row<seq<nat>>>, prefix: Text.Text, limit: nat) returns (out: seq<nat>)
    ensures out == Take(PrefixIds(trie, prefix), limit)
  {
    out := [];
    if limit == 0 {
      return;
    }
    var g := 0;
    while g < |trie|
      invariant g <= |trie|
      invariant out == PrefixIds(trie[..g], prefix) && |out| < limit
    {
      assert trie[..g + 1][..g] == trie[..g];
      if KeyHasPrefix(trie[g].key, prefix) {
        var ids := trie[g].value;
        var before := out;
        var i := 0;
        while i < |ids|
          invariant i <= |ids|
          invariant out == before + ids[..i] && |out| < limit
        {
          out := out + [ids[i]];
          i := i + 1;
          if |out| >= limit {
            PrefixIdsGrow(trie, g + 1, prefix);
            assert PrefixIds(trie[..g + 1], prefix) == before + ids;
            assert out == before + ids[..i] == PrefixIds(trie, prefix)[..limit];
            return;
          }
        }
      }
      g := g + 1;
    }
    assert trie[..g] == trie;
  }

  lemma {:induction false} PrefixIdsGrow(trie: seq<Row<seq<nat>>>, upTo: nat, prefix: Text.Text)
    requires upTo <= |trie|
    ensures PrefixIds(trie[..upTo], prefix) <= PrefixIds(trie, prefix)
  {
    if upTo < |trie| {
      PrefixIdsGrow(trie[..|trie| - 1], upTo, prefix);
      assert trie[..|trie| - 1][..upTo] == trie[..upTo];
    } else {
      assert trie[..upTo] == trie;
    }
  }

  lemma {:induction false} PrefixIdsMembers(trie: seq<Row<seq<nat>>>, prefix: Text.Text, id: nat)
    ensures id in PrefixIds(trie, prefix) <==>
              exists row :: row in trie && KeyHasPrefix(row.key, prefix) && id in row.value
  {
    if trie != [] {
      var init, last := trie[..|trie| - 1], trie[|trie| - 1];
      PrefixIdsMembers(init, prefix, id);
      assert trie == init + [last];
    }
  }

  /** Posting lists under different keys are disjoint, and each is ascending. */
  ghost predicate GroupsDisjoint(trie: seq<Row<seq<nat>>>) {
    && (forall i :: 0 <= i < |trie| ==> Ascending(trie[i].value))
    && (forall i, j, id :: 0 <= i < j < |trie| && id in trie[i].value ==> id !in trie[j].value)
  }

  lemma DistinctConcat(a: seq<nat>, b: seq<nat>)
    requires Distinct(a) && Ascending(b)
    requires forall id :: id in a ==> id !in b
    ensures Distinct(a + b)
  {
    var c := a + b;
    forall i, j | 0 <= i < j < |c| ensures c[i] != c[j] {
      if i < |a| <= j {
        assert a[i] in a && b[j - |a|] in b;
      }
    }
  }

  lemma {:induction false} PrefixIdsDistinct(trie: seq<Row<seq<nat>>>, prefix: Text.Text)
    requires GroupsDisjoint(trie)
    ensures Distinct(PrefixIds(trie, prefix))
  {
    if trie != [] {
      var init, last := trie[..|trie| - 1], trie[|trie| - 1];
      assert GroupsDisjoint(init);
      PrefixIdsDistinct(init, prefix);
      forall id | id in PrefixIds(init, prefix) ensures id !in last.value {
        PrefixIdsMembers(init, prefix, id);
        var row :| row in init && KeyHasPrefix(row.key, prefix) && id in row.value;
        var i :| 0 <= i < |init| && init[i] == row;
        assert id in trie[i].value;
      }
      if KeyHasPrefix(last.key, prefix) {
        DistinctConcat(PrefixIds(init, prefix), last.value);
      }
    }
  }

  lemma TrieGroupsDisjoint(trie: seq<Row<seq<nat>>>, postings: Postings, field: nat, live: Live)
    requires TrieTracks(trie, postings) && Posted(postings, field, live)
    ensures GroupsDisjoint(trie)
  {
    forall i | 0 <= i < |trie| ensures Ascending(trie[i].value) {
      assert trie[i] in trie;
    }
    forall i, j, id | 0 <= i < j < |trie| && id in trie[i].value ensures id !in trie[j].value {
      assert trie[i] in trie && trie[j] in trie;
      if id in trie[j].value {
        assert trie[i].key.key == KeyOf(live[id], field) == trie[j].key.key;
        OrderedKeysDistinct(trie, i, j);
      }
    }
  }

  /** The prefix route's ids name exactly the records whose text starts with the prefix. */
  lemma PrefixAnswers(rt: Route, order: seq<nat>, slots: Slots, prefix: Text.Text)
    requires rt.Trie? && LiveOrder(order, slots) && Tracks(rt, LiveOf(slots))
    ensures var ids := PrefixIds(rt.trie, prefix);
            var hits := Scan(Deref(order, slots), WithPrefix(rt.field, prefix));
            && multiset(Deref(ids, slots)) == multiset(hits)
            && |ids| == |hits|
            && forall id :: id in ids ==> IsLive(slots, id)
  {
    var ids := PrefixIds(rt.trie, prefix);
    var wanted := WithPrefix(rt.field, prefix);
    var live := LiveOf(slots);
    forall id: nat ensures id in ids <==> IsHit(slots, id, wanted) {
      PrefixIdsMembers(rt.trie, prefix, id);
      if id in ids {
        var row :| row in rt.trie && KeyHasPrefix(row.key, prefix) && id in row.value;
        assert id in live;
      }
      if IsHit(slots, id, wanted) {
        assert id in live;
        var key := KeyOf(live[id], rt.field);
        var row := Row(TrieKey(key), rt.postings[key]);
        assert row in rt.trie && KeyHasPrefix(row.key, prefix) && id in row.value;
      }
    }
    TrieGroupsDisjoint(rt.trie, rt.postings, rt.field, live);
    PrefixIdsDistinct(rt.trie, prefix);
    DistinctReadsScan(order, ids, slots, wanted);
    assert |Deref(ids, slots)| == |multiset(Deref(ids, slots))|;
  }

  /** A limited prefix query returns that many of the matching records, or all of them. */
  lemma LimitedPrefix(rt: Route, order: seq<nat>, slots: Slots, prefix: Text.Text, limit: nat)
    requires rt.Trie? && LiveOrder(order, slots) && Tracks(rt, LiveOf(slots))
    ensures var out := Deref(Take(PrefixIds(rt.trie, prefix), limit), slots);
            var hits := Scan(Deref(order, slots), WithPrefix(rt.field, prefix));
            && multiset(out) <= multiset(hits)
            && |out| == (if |hits| <= limit then |hits| else limit)
            && (|hits| <= limit ==> multiset(out) == multiset(hits))
  {
    TakeOfDeref(PrefixIds(rt.trie, prefix), Scan(Deref(order, slots), WithPrefix(rt.field, prefix)), slots, limit) by {
      PrefixAnswers(rt, order, slots, prefix);
    }
  }

  lemma TakeOfDeref(ids: seq<nat>, hits: seq<Record>, slots: Slots, limit: nat)
    requires multiset(Deref(ids, slots)) == multiset(hits) && |ids| == |hits|
    requires forall id :: id in ids ==> IsLive(slots, id)
    ensures var out := Deref(Take(ids, limit), slots);
            && multiset(out) <= multiset(hits)
            && |out| == (if |hits| <= limit then |hits| else limit)
            && (|hits| <= limit ==> multiset(out) == multiset(hits))
  {
    var kept := Take(ids, limit);
    if |ids| > limit {
      assert ids == kept + ids[limit..];
      DerefAppend(kept, ids[limit..], slots);
    }
    DerefLive(kept, slots);
  }

  /** `MutableMultiPrefixTrie::find`: the back of the posting stored at the exact key. */
  function TrieFind(trie: seq<Row<seq<nat>>>, key: Value): Option<nat> {
    var at := RowBound(trie, TrieKey(key));
    if at < |trie| && !CompositeLess(TrieKey(key), trie[at].key) && trie[at].value != []
    then Some(trie[at].value[|trie[at].value| - 1])
    else None
  }

  lemma TrieFindsBack(trie: seq<Row<seq<nat>>>, postings: Postings, key: Value)
    requires TrieTracks(trie, postings)
    ensures TrieFind(trie, key) ==
              if key in postings && postings[key] != [] then Some(postings[key][|postings[key]| - 1]) else None
  {
    RowBoundSplits(trie, TrieKey(key));
    KeyElsewhere(trie, TrieKey(key));
    var at := RowBound(trie, TrieKey(key));
    if at < |trie| { assert trie[at] in trie; }
    if key in postings { assert Row(TrieKey(key), postings[key]) in trie; }
  }
}
