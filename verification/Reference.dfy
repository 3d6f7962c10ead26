/** The reference semantics of the behavioural verifier: a plain vector of records,
    scanned for every query. And the bridge from slot ids to that vector. */
module Reference {
  import opened Wrappers
  import Text
  import opened Keys
  import opened Containers
  import opened Routes

  type Slots = seq<Option<Record>>
  type Wanted = Record -> bool

  /** `for (record : reference) if (wanted(record)) expected.push_back(record)`. */
  function Scan(records: seq<Record>, wanted: Wanted): seq<Record> {
    if records == [] then []
    else
      var last := records[|records| - 1];
      Scan(records[..|records| - 1], wanted) + if wanted(last) then [last] else []
  }

  /** `if (wanted(record)) expected = {record}`: the last hit, if any. */
  function LastHit(records: seq<Record>, wanted: Wanted): seq<Record> {
    if records == [] then []
    else
      var last := records[|records| - 1];
      if wanted(last) then [last] else LastHit(records[..|records| - 1], wanted)
  }

  predicate IsPrefix(prefix: Text.Text, s: Text.Text) {
    |prefix| <= |s| && s[..|prefix|] == prefix
  }

  function WithKey(field: nat, key: Value): Wanted {
    r => KeyOf(r, field) == key
  }

  function WithinKeys(field: nat, low: Value, high: Value): Wanted {
    r => !Less(KeyOf(r, field), low) && !Less(high, KeyOf(r, field))
  }

  function WithPrefix(field: nat, prefix: Text.Text): Wanted {
    r => KeyOf(r, field).TextV? && IsPrefix(prefix, KeyOf(r, field).s)
  }

  // ---- what a scan returns ----

  /** A scan keeps each wanted record as often as it occurs, and no other. */
  lemma {:induction false} ScanCounts(records: seq<Record>, wanted: Wanted, r: Record)
    ensures multiset(Scan(records, wanted))[r] == if wanted(r) then multiset(records)[r] else 0
  {
    if records != [] {
      var init, last := records[..|records| - 1], records[|records| - 1];
      ScanCounts(init, wanted, r);
      assert records == init + [last];
    }
  }

  /** The positions of the wanted records. */
  function Positions(records: seq<Record>, wanted: Wanted): set<nat> {
    set p: nat | p < |records| && wanted(records[p])
  }

  /** `out` are the records at the wanted positions, in their order. */
  ghost predicate InOrder(records: seq<Record>, wanted: Wanted, out: seq<Record>, ps: seq<nat>) {
    && |ps| == |out|
    && (forall i, j :: 0 <= i < j < |ps| ==> ps[i] < ps[j])
    && (forall p :: p in ps <==> p in Positions(records, wanted))
    && (forall i :: 0 <= i < |ps| ==> ps[i] < |records| && out[i] == records[ps[i]])
  }

  lemma {:induction false} ScanInOrder(records: seq<Record>, wanted: Wanted) returns (ps: seq<nat>)
    ensures InOrder(records, wanted, Scan(records, wanted), ps)
    ensures |Positions(records, wanted)| == |Scan(records, wanted)|
  {
    ps := [];
    if records != [] {
      var n := |records| - 1;
      ps := ScanInOrder(records[..n], wanted);
      PositionsGrow(records, wanted);
      if wanted(records[n]) {
        OneMoreInOrder(records, wanted, Scan(records[..n], wanted), ps);
        ps := ps + [n];
      }
    } else {
      assert Positions(records, wanted) == {};
    }
  }

  lemma PositionsGrow(records: seq<Record>, wanted: Wanted)
    requires records != []
    ensures var n := |records| - 1;
            Positions(records, wanted) == Positions(records[..n], wanted) + if wanted(records[n]) then {n} else {}
  {
  }

  lemma OneMoreInOrder(records: seq<Record>, wanted: Wanted, out: seq<Record>, ps: seq<nat>)
    requires records != [] && wanted(records[|records| - 1]) && InOrder(records[..|records| - 1], wanted, out, ps)
    ensures InOrder(records, wanted, out + [records[|records| - 1]], ps + [|records| - 1])
  {
    PositionsGrow(records, wanted);
  }

  /** The last hit, if there is one, is the wanted record that no other follows. */
  lemma {:induction false} LastHitIs(records: seq<Record>, wanted: Wanted)
    ensures var out := LastHit(records, wanted);
            if out == [] then forall p :: 0 <= p < |records| ==> !wanted(records[p])
            else |out| == 1 && exists p :: LastAt(records, wanted, p) && out[0] == records[p]
  {
    if records != [] {
      var n := |records| - 1;
      if wanted(records[n]) {
        assert LastAt(records, wanted, n);
      } else {
        LastHitIs(records[..n], wanted);
        if p :| LastAt(records[..n], wanted, p) && LastHit(records, wanted)[0] == records[..n][p] {
          assert LastAt(records, wanted, p);
        }
      }
    }
  }

  ghost predicate LastAt(records: seq<Record>, wanted: Wanted, p: int) {
    0 <= p < |records| && wanted(records[p]) && forall q :: p < q < |records| ==> !wanted(records[q])
  }

  // ---- from slot ids to records ----

  predicate IsLive(slots: Slots, id: nat) {
    id < |slots| && slots[id].Some?
  }

  /** A populated slot whose record is wanted. */
  predicate IsHit(slots: Slots, id: nat, wanted: Wanted) {
    IsLive(slots, id) && wanted(slots[id].value)
  }

  /** The populated slots. */
  function LiveOf(slots: Slots): Live {
    map id: nat | 0 <= id < |slots| && slots[id].Some? :: slots[id].value
  }

  /** Appending through `append_live_record`, id by id. */
  function Deref(ids: seq<nat>, slots: Slots): seq<Record> {
    if ids == [] then []
    else
      var last := ids[|ids| - 1];
      Deref(ids[..|ids| - 1], slots) + if IsLive(slots, last) then [slots[last].value] else []
  }

  lemma {:induction false} DerefAppend(a: seq<nat>, b: seq<nat>, slots: Slots)
    ensures Deref(a + b, slots) == Deref(a, slots) + Deref(b, slots)
  {
    if b == [] {
      assert a + b == a;
    } else {
      var init := b[..|b| - 1];
      DerefAppend(a, init, slots);
      assert (a + b)[..|a + b| - 1] == a + init;
    }
  }

  lemma {:induction false} DerefLive(ids: seq<nat>, slots: Slots)
    requires forall id :: id in ids ==> IsLive(slots, id)
    ensures |Deref(ids, slots)| == |ids|
    ensures forall i :: 0 <= i < |ids| ==> IsLive(slots, ids[i]) && Deref(ids, slots)[i] == slots[ids[i]].value
  {
    if ids != [] {
      assert forall id :: id in ids[..|ids| - 1] ==> id in ids;
      DerefLive(ids[..|ids| - 1], slots);
    }
  }

  // ---- selecting ids and scanning records commute ----

  function SelectIds(ids: seq<nat>, slots: Slots, wanted: Wanted): seq<nat> {
    if ids == [] then []
    else
      var last := ids[|ids| - 1];
      SelectIds(ids[..|ids| - 1], slots, wanted) +
      if IsHit(slots, last, wanted) then [last] else []
  }

  lemma {:induction false} ScanIsSelect(ids: seq<nat>, slots: Slots, wanted: Wanted)
    ensures Scan(Deref(ids, slots), wanted) == Deref(SelectIds(ids, slots, wanted), slots)
  {
    if ids != [] {
      var last := ids[|ids| - 1];
      var init := ids[..|ids| - 1];
      ScanIsSelect(init, slots, wanted);
      assert Deref(ids, slots) == Deref(init, slots) + if IsLive(slots, last) then [slots[last].value] else [];
      if IsLive(slots, last) {
        var r := slots[last].value;
        assert (Deref(init, slots) + [r])[..|Deref(init, slots)|] == Deref(init, slots);
        assert Scan(Deref(ids, slots), wanted) == Scan(Deref(init, slots), wanted) + if wanted(r) then [r] else [];
        if wanted(r) {
          DerefAppend(SelectIds(init, slots, wanted), [last], slots);
        } else {
          assert SelectIds(ids, slots, wanted) == SelectIds(init, slots, wanted);
        }
      } else {
        assert Deref(ids, slots) == Deref(init, slots);
        assert SelectIds(ids, slots, wanted) == SelectIds(init, slots, wanted);
      }
    }
  }

  lemma {:induction false} SelectMembers(ids: seq<nat>, slots: Slots, wanted: Wanted)
    ensures forall id: nat :: id in SelectIds(ids, slots, wanted) <==> id in ids && IsHit(slots, id, wanted)
  {
    if ids != [] {
      SelectMembers(ids[..|ids| - 1], slots, wanted);
      assert ids == ids[..|ids| - 1] + [ids[|ids| - 1]];
    }
  }

  lemma {:induction false} SelectAscends(ids: seq<nat>, slots: Slots, wanted: Wanted)
    requires Ascending(ids)
    ensures Ascending(SelectIds(ids, slots, wanted))
  {
    if ids != [] {
      SelectAscends(ids[..|ids| - 1], slots, wanted);
      SelectMembers(ids[..|ids| - 1], slots, wanted);
      var chosen := SelectIds(ids[..|ids| - 1], slots, wanted);
      forall i | 0 <= i < |chosen| ensures chosen[i] < ids[|ids| - 1] {
        assert chosen[i] in ids[..|ids| - 1];
      }
    }
  }

  /** The last hit of a scan is the record in the largest matching slot. */
  lemma {:induction false} LastHitIsLastScanned(records: seq<Record>, wanted: Wanted)
    ensures var hits := Scan(records, wanted);
            LastHit(records, wanted) == if hits == [] then [] else [hits[|hits| - 1]]
  {
    if records != [] {
      LastHitIsLastScanned(records[..|records| - 1], wanted);
    }
  }

  /** An ascending posting list of exactly the wanted live slots reads back the scan
      of the live order, record for record. */
  lemma PostingReadsScan(order: seq<nat>, ids: seq<nat>, slots: Slots, wanted: Wanted)
    requires Ascending(order) && Ascending(ids)
    requires forall id: nat :: id in order <==> IsLive(slots, id)
    requires forall id: nat :: id in ids <==> IsHit(slots, id, wanted)
    ensures Deref(ids, slots) == Scan(Deref(order, slots), wanted)
  {
    ScanIsSelect(order, slots, wanted);
    SelectMembers(order, slots, wanted);
    SelectAscends(order, slots, wanted);
    AscendingUnique(ids, SelectIds(order, slots, wanted));
  }

  // ---- multisets ----

  ghost predicate Distinct(ids: seq<nat>) {
    forall i, j :: 0 <= i < j < |ids| ==> ids[i] != ids[j]
  }

  lemma {:induction false} DistinctCounts(ids: seq<nat>)
    requires Distinct(ids)
    ensures forall id :: multiset(ids)[id] == if id in ids then 1 else 0
  {
    if ids != [] {
      var init := ids[..|ids| - 1];
      DistinctCounts(init);
      assert ids == init + [ids[|ids| - 1]];
      assert ids[|ids| - 1] !in init;
    }
  }

  lemma DerefPick(left: seq<nat>, id: nat, right: seq<nat>, slots: Slots)
    ensures multiset(Deref(left + [id] + right, slots)) == multiset(Deref(left + right, slots)) + multiset(Deref([id], slots))
  {
    DerefAppend(left + [id], right, slots);
    DerefAppend(left, [id], slots);
    DerefAppend(left, right, slots);
  }

  lemma BagWithout(init: seq<nat>, last: nat, left: seq<nat>, right: seq<nat>)
    requires multiset(init + [last]) == multiset(left + [last] + right)
    ensures multiset(init) == multiset(left + right)
  {
    assert multiset(init) == multiset(init + [last]) - multiset{last};
    assert multiset(left + right) == multiset(left + [last] + right) - multiset{last};
  }

  lemma {:induction false} DerefSameMultiset(a: seq<nat>, b: seq<nat>, slots: Slots)
    requires multiset(a) == multiset(b)
    ensures multiset(Deref(a, slots)) == multiset(Deref(b, slots))
  {
    if a == [] {
      assert |b| == |multiset(b)| == 0;
    } else {
      var init, last := a[..|a| - 1], a[|a| - 1];
      assert a == init + [last] && a == init + [last] + [];
      assert last in multiset(b);
      var j :| 0 <= j < |b| && b[j] == last;
      var left, right := b[..j], b[j + 1..];
      assert b == left + [last] + right;
      BagWithout(init, last, left, right);
      DerefSameMultiset(init, left + right, slots);
      DerefPick(left, last, right, slots);
      DerefPick(init, last, [], slots);
      assert init + [] == init;
    }
  }

  lemma DistinctSameMembers(a: seq<nat>, b: seq<nat>)
    requires Distinct(a) && Distinct(b)
    requires forall id :: id in a <==> id in b
    ensures multiset(a) == multiset(b)
  {
    DistinctCounts(a);
    DistinctCounts(b);
  }

  /** Distinct ids naming exactly the wanted live slots read back the multiset of the scan. */
  lemma DistinctReadsScan(order: seq<nat>, ids: seq<nat>, slots: Slots, wanted: Wanted)
    requires Ascending(order) && Distinct(ids)
    requires forall id: nat :: id in order <==> IsLive(slots, id)
    requires forall id: nat :: id in ids <==> IsHit(slots, id, wanted)
    ensures multiset(Deref(ids, slots)) == multiset(Scan(Deref(order, slots), wanted))
    ensures |Deref(ids, slots)| == |ids|
  {
    var chosen := SelectIds(order, slots, wanted);
    ScanIsSelect(order, slots, wanted);
    SelectMembers(order, slots, wanted);
    SelectAscends(order, slots, wanted);
    DistinctSameMembers(ids, chosen);
    DerefSameMultiset(ids, chosen, slots);
    DerefLive(ids, slots);
  }

  // ---- what each mutation does to the record vector ----

  lemma {:induction false} DerefFrame(ids: seq<nat>, a: Slots, b: Slots)
    requires forall id :: id in ids ==> IsLive(a, id) == IsLive(b, id) && (IsLive(a, id) ==> a[id] == b[id])
    ensures Deref(ids, a) == Deref(ids, b)
  {
    if ids != [] {
      DerefFrame(ids[..|ids| - 1], a, b);
    }
  }

  lemma InsertAppends(order: seq<nat>, slots: Slots, r: Record)
    requires forall id :: id in order ==> IsLive(slots, id)
    ensures Deref(order + [|slots|], slots + [Some(r)]) == Deref(order, slots) + [r]
  {
    DerefFrame(order, slots, slots + [Some(r)]);
    assert (order + [|slots|])[..|order|] == order;
  }

  lemma UpdateReplaces(order: seq<nat>, slots: Slots, at: nat, r: Record)
    requires Ascending(order) && at < |order|
    requires IsLive(slots, order[at]) && forall id :: id in order ==> IsLive(slots, id)
    ensures |Deref(order, slots)| == |order|
    ensures Deref(order, slots[order[at] := Some(r)]) == Deref(order, slots)[at := r]
  {
    var after := slots[order[at] := Some(r)];
    DerefLive(order, slots);
    DerefLive(order, after);
  }

  lemma OthersLive(order: seq<nat>, slots: Slots, at: nat)
    requires Ascending(order) && at < |order| && forall id :: id in order ==> IsLive(slots, id)
    ensures forall id :: id in order[..at] + order[at + 1..] ==> id != order[at] && IsLive(slots, id)
  {
    var kept := order[..at] + order[at + 1..];
    forall id | id in kept ensures id != order[at] && IsLive(slots, id) {
      var i :| 0 <= i < |kept| && kept[i] == id;
      assert order[if i < at then i else i + 1] == id;
    }
  }

  lemma EraseDrops(order: seq<nat>, slots: Slots, at: nat)
    requires Ascending(order) && at < |order|
    requires IsLive(slots, order[at]) && forall id :: id in order ==> IsLive(slots, id)
    ensures |Deref(order, slots)| == |order|
    ensures var recs := Deref(order, slots);
            Deref(order[..at] + order[at + 1..], slots[order[at] := None]) == recs[..at] + recs[at + 1..]
  {
    var kept := order[..at] + order[at + 1..];
    OthersLive(order, slots, at);
    DerefFrame(kept, slots, slots[order[at] := None]);
    DerefLive(order, slots);
    DerefLive(kept, slots);
  }
}
