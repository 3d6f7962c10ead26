/** The class every generated header contains: append-only slots, the live order, the
    record cache behind its dirty flag, and one secondary structure per query route. */
module GeneratedIndexModel {
  import opened Wrappers
  import Text
  import opened Keys
  import opened Queries
  import opened Containers
  import opened Routes
  import opened Codegen
  import opened Reference
  import opened Answers

  predicate Conforms(fields: seq<FieldSpec>, r: Record) {
    |r| == |fields| && forall i :: 0 <= i < |r| ==> HasType(r[i], fields[i].fieldType)
  }

  predicate UsesBitmap(plans: seq<Plan>) {
    exists i :: 0 <= i < |plans| && plans[i].RecordPlan? && plans[i].upkeep == BitmapUpkeep
  }

  /** The most slots the class can hold: `size_t`, or 32-bit ids once a bitmap narrows them. */
  function Capacity(plans: seq<Plan>): nat {
    if UsesBitmap(plans) then MAX_BITMAP_SLOT + 1 else MAX_SIZE
  }

  // ---- what the queries ask, of the record itself ----

  predicate HasKey(r: Record, field: nat, key: Value) {
    field < |r| && r[field] == key
  }

  predicate HasKeyWithin(r: Record, field: nat, low: Value, high: Value) {
    field < |r| && !Less(r[field], low) && !Less(high, r[field])
  }

  ghost predicate TextStarts(r: Record, field: nat, prefix: Text.Text) {
    field < |r| && r[field].TextV? && exists rest :: r[field].s == prefix + rest
  }

  /** `out` are the records with the key, in order: those at the ascending positions `ps`. */
  ghost predicate ListsKey(records: seq<Record>, field: nat, key: Value, out: seq<Record>, ps: seq<nat>) {
    && |ps| == |out|
    && (forall i, j :: 0 <= i < j < |ps| ==> ps[i] < ps[j])
    && (forall p: nat :: p in ps <==> p < |records| && HasKey(records[p], field, key))
    && (forall i :: 0 <= i < |ps| ==> ps[i] < |records| && out[i] == records[ps[i]])
  }

  /** The last record with the key, or nothing if none has it. */
  ghost predicate FindsLast(records: seq<Record>, field: nat, key: Value, out: seq<Record>) {
    && (out == [] ==> forall p :: 0 <= p < |records| ==> !HasKey(records[p], field, key))
    && (out != [] ==>
          && |out| == 1
          && exists p :: 0 <= p < |records| && out[0] == records[p] && HasKey(records[p], field, key)
                      && forall q :: p < q < |records| ==> !HasKey(records[q], field, key))
  }

  lemma LastWithKey(records: seq<Record>, field: nat, key: Value)
    requires forall r :: r in records ==> field < |r|
    ensures FindsLast(records, field, key, LastHit(records, WithKey(field, key)))
  {
    var wanted := WithKey(field, key);
    LastHitIs(records, wanted);
    forall p | 0 <= p < |records| ensures wanted(records[p]) == HasKey(records[p], field, key) {
      assert records[p] in records;
    }
  }

  lemma ScanListsKey(records: seq<Record>, field: nat, key: Value)
    requires forall r :: r in records ==> field < |r|
    ensures exists ps: seq<nat> :: ListsKey(records, field, key, Scan(records, WithKey(field, key)), ps)
  {
    var wanted := WithKey(field, key);
    var ps := ScanInOrder(records, wanted);
    forall p: nat ensures p in ps <==> p < |records| && HasKey(records[p], field, key) {
      assert p in ps <==> p in Positions(records, wanted);
      if p < |records| { assert records[p] in records; }
    }
    assert ListsKey(records, field, key, Scan(records, wanted), ps);
  }

  /** Each record whose field lies between the bounds, as often as it is held, and no other. */
  ghost predicate ListsWithin(records: seq<Record>, field: nat, low: Value, high: Value, out: seq<Record>) {
    forall r :: multiset(out)[r] == if HasKeyWithin(r, field, low, high) then multiset(records)[r] else 0
  }

  lemma CountsWithin(records: seq<Record>, field: nat, low: Value, high: Value, out: seq<Record>)
    requires forall r :: r in records ==> field < |r|
    requires multiset(out) == multiset(Scan(records, WithinKeys(field, low, high)))
    ensures ListsWithin(records, field, low, high, out)
  {
    forall r: Record
      ensures multiset(out)[r] == if HasKeyWithin(r, field, low, high) then multiset(records)[r] else 0
    {
      ScanCounts(records, WithinKeys(field, low, high), r);
    }
  }

  lemma StartsIff(prefix: Text.Text, s: Text.Text)
    ensures IsPrefix(prefix, s) <==> exists rest :: s == prefix + rest
  {
    if IsPrefix(prefix, s) {
      assert s == prefix + s[|prefix|..];
    }
  }

  lemma CountsStarting(records: seq<Record>, field: nat, prefix: Text.Text)
    requires forall r :: r in records ==> field < |r|
    ensures var hits := Scan(records, WithPrefix(field, prefix));
            && (forall r :: multiset(hits)[r] == if TextStarts(r, field, prefix) then multiset(records)[r] else 0)
            && |hits| == |set p: nat | p < |records| && TextStarts(records[p], field, prefix)|
  {
    var wanted := WithPrefix(field, prefix);
    forall r: Record ensures multiset(Scan(records, wanted))[r] == if TextStarts(r, field, prefix) then multiset(records)[r] else 0 {
      ScanCounts(records, wanted, r);
      if field < |r| && r[field].TextV? { StartsIff(prefix, r[field].s); }
    }
    var ps := ScanInOrder(records, wanted);
    forall p: nat | p < |records| ensures wanted(records[p]) == TextStarts(records[p], field, prefix) {
      assert records[p] in records;
      if records[p][field].TextV? { StartsIff(prefix, records[p][field].s); }
    }
    assert Positions(records, wanted) == set p: nat | p < |records| && TextStarts(records[p], field, prefix);
  }

  class GeneratedIndex {
    const fields: seq<FieldSpec>
    const plans: seq<Plan>
    var slots: Slots
    var liveOrder: seq<nat>
    var recordsCache: seq<Record>
    var recordsCacheDirty: bool
    var routes: seq<Route>

    /** Route by route: the declared member, tracking the populated slots. */
    ghost predicate RoutesTrack(live: Live)
      reads this
    {
      && |routes| == |plans|
      && forall i :: 0 <= i < |routes| ==> SameShape(EmptyRoute(plans[i]), routes[i]) && Tracks(routes[i], live)
    }

    ghost predicate Valid()
      reads this
    {
      && (forall p :: p in plans ==> Compiles(fields, p))
      && |slots| <= Capacity(plans)
      && LiveOrder(liveOrder, slots)
      && (forall id: nat :: IsLive(slots, id) ==> Conforms(fields, slots[id].value))
      && RoutesTrack(LiveOf(slots))
      && (!recordsCacheDirty ==> recordsCache == Deref(liveOrder, slots))
    }

    /** The logical record vector, oldest slot first. */
    function Contents(): seq<Record>
      reads this
    {
      Deref(liveOrder, slots)
    }

    constructor (fields: seq<FieldSpec>, plans: seq<Plan>)
      requires forall p :: p in plans ==> Compiles(fields, p)
      ensures Valid() && Contents() == []
      ensures this.fields == fields && this.plans == plans && slots == []
    {
      this.fields, this.plans := fields, plans;
      slots, liveOrder, recordsCache, recordsCacheDirty := [], [], [], true;
      routes := seq(|plans|, i requires 0 <= i < |plans| => EmptyRoute(plans[i]));
    }

    /** `insert`: appends a slot, then runs each route's insert line. Returns the exception thrown. */
    method Insert(r: Record) returns (thrown: Option<Fault>)
      requires Valid() && Conforms(fields, r)
      modifies this
      ensures thrown.None? <==> old(|slots|) < Capacity(plans)
      ensures thrown.None? ==> Valid() && Contents() == old(Contents()) + [r] && |slots| == old(|slots|) + 1
      // push_back itself fails: nothing has changed
      ensures thrown.Some? && !UsesBitmap(plans) ==>
                && thrown.value == LengthError && Valid() && Contents() == old(Contents())
                && routes == old(routes)
      // a bitmap refuses the id: the record is stored already, the cache is not invalidated,
      // and the refusing route knows nothing of it
      ensures thrown.Some? && UsesBitmap(plans) ==>
                && thrown.value == BitmapOverflow
                && slots == old(slots) + [Some(r)] && liveOrder == old(liveOrder) + [old(|slots|)]
                && recordsCache == old(recordsCache) && recordsCacheDirty == old(recordsCacheDirty)
                && |routes| == |old(routes)|
                && exists i :: 0 <= i < |routes| && routes[i].Bitmap? && routes[i] == old(routes)[i]
    {
      var slotId := |slots|;
      BitmapPlansAreRoutes();
      if slotId == MAX_SIZE {
        return Some(LengthError);
      }
      ghost var live := LiveOf(slots);
      slots := slots + [Some(r)];
      liveOrder := liveOrder + [slotId];
      thrown := MaintainInsert(r, slotId, live);
      if thrown.Some? {
        return;
      }
      recordsCacheDirty := true;
      assert LiveOf(slots) == live[slotId := r];
      ExtendsLive(old(liveOrder), old(slots), r);
      InsertAppends(old(liveOrder), old(slots), r);
    }

    /** The insert lines, one route after another. */
    method MaintainInsert(r: Record, slotId: nat, ghost live: Live) returns (thrown: Option<Fault>)
      requires RoutesTrack(live) && slotId !in live
      requires Conforms(fields, r) && forall p :: p in plans ==> Compiles(fields, p)
      modifies this`routes
      ensures thrown == if UsesBitmap(plans) && slotId > MAX_BITMAP_SLOT then Some(BitmapOverflow) else None
      ensures thrown.None? ==> RoutesTrack(live[slotId := r])
      ensures thrown.Some? ==>
                && |routes| == |old(routes)|
                && exists i :: 0 <= i < |routes| && routes[i].Bitmap? && routes[i] == old(routes)[i]
    {
      AcceptsConforming(r);
      BitmapPlansAreRoutes();
      var i := 0;
      while i < |routes|
        invariant 0 <= i <= |routes| == |plans| == |old(routes)|
        invariant forall j :: 0 <= j < i ==>
                    SameShape(EmptyRoute(plans[j]), routes[j]) && Tracks(routes[j], live[slotId := r])
        invariant forall j :: i <= j < |routes| ==> routes[j] == old(routes)[j]
        invariant forall j :: 0 <= j < i && old(routes)[j].Bitmap? ==> slotId <= MAX_BITMAP_SLOT
      {
        AddKeeps(routes[i], live, slotId, r);
        var kept := AddSlot(routes[i], r, slotId);
        if kept.Failure? {
          return Some(kept.error);
        }
        routes := routes[i := kept.value];
        i := i + 1;
      }
      return None;
    }

    /** `update_at`: replaces the record in its slot, then runs each route's remove and add lines. */
    method UpdateAt(position: nat, r: Record) returns (thrown: Option<Fault>)
      requires Valid() && Conforms(fields, r)
      modifies this
      ensures Valid()
      ensures thrown == if position < old(|Contents()|) then None else Some(PositionOutOfRange)
      ensures Contents() == if position < old(|Contents()|) then old(Contents())[position := r] else old(Contents())
      ensures |slots| == old(|slots|)
    {
      DerefLive(liveOrder, slots);
      var found := LogicalSlot(position);
      if found.Failure? {
        return Some(found.error);
      }
      var slotId := found.value;
      var before := slots[slotId].value;
      ghost var live := LiveOf(slots);
      slots := slots[slotId := Some(r)];
      thrown := MaintainUpdate(before, r, slotId, live);
      if thrown.Some? {
        return;
      }
      recordsCacheDirty := true;
      assert LiveOf(slots) == live[slotId := r];
      UpdateReplaces(liveOrder, old(slots), position, r);
    }

    /** The update lines: each route drops the old key and takes the new one. */
    method MaintainUpdate(before: Record, r: Record, slotId: nat, ghost live: Live) returns (thrown: Option<Fault>)
      requires RoutesTrack(live) && slotId in live && live[slotId] == before
      requires Conforms(fields, r) && forall p :: p in plans ==> Compiles(fields, p)
      requires UsesBitmap(plans) ==> slotId <= MAX_BITMAP_SLOT
      modifies this`routes
      ensures thrown.None? && RoutesTrack(live[slotId := r])
    {
      AcceptsConforming(r);
      BitmapPlansAreRoutes();
      var i := 0;
      while i < |routes|
        invariant 0 <= i <= |routes| == |plans| == |old(routes)|
        invariant forall j :: 0 <= j < i ==>
                    SameShape(EmptyRoute(plans[j]), routes[j]) && Tracks(routes[j], live[slotId := r])
        invariant forall j :: i <= j < |routes| ==> routes[j] == old(routes)[j]
      {
        ReplaceKeeps(routes[i], live, slotId, r);
        var removed := RemoveSlot(routes[i], before, slotId);
        if removed.Failure? {
          assert false;  // no "invariant missing" throw, no narrowing overflow
        }
        var added := AddSlot(removed.value, r, slotId);
        if added.Failure? {
          assert false;
        }
        routes := routes[i := added.value];
        i := i + 1;
      }
      return None;
    }

    /** `erase_at`: empties the slot, drops it from the live order, runs each route's erase line. */
    method EraseAt(position: nat) returns (thrown: Option<Fault>)
      requires Valid()
      modifies this
      ensures Valid()
      ensures thrown == if position < old(|Contents()|) then None else Some(PositionOutOfRange)
      ensures Contents() == if position < old(|Contents()|)
                            then old(Contents())[..position] + old(Contents())[position + 1..] else old(Contents())
      ensures |slots| == old(|slots|)
    {
      DerefLive(liveOrder, slots);
      var found := LogicalSlot(position);
      if found.Failure? {
        return Some(found.error);
      }
      var slotId := found.value;
      var record := slots[slotId].value;
      ghost var live := LiveOf(slots);
      slots := slots[slotId := None];
      liveOrder := liveOrder[..position] + liveOrder[position + 1..];
      thrown := MaintainErase(record, slotId, live);
      if thrown.Some? {
        return;
      }
      recordsCacheDirty := true;
      assert LiveOf(slots) == live - {slotId};
      ShrinksLive(old(liveOrder), old(slots), position);
      EraseDrops(old(liveOrder), old(slots), position);
    }

    /** The erase lines, one route after another. */
    method MaintainErase(record: Record, slotId: nat, ghost live: Live) returns (thrown: Option<Fault>)
      requires RoutesTrack(live) && slotId in live && live[slotId] == record
      requires UsesBitmap(plans) ==> slotId <= MAX_BITMAP_SLOT
      modifies this`routes
      ensures thrown.None? && RoutesTrack(live - {slotId})
    {
      BitmapPlansAreRoutes();
      var i := 0;
      while i < |routes|
        invariant 0 <= i <= |routes| == |plans| == |old(routes)|
        invariant forall j :: 0 <= j < i ==>
                    SameShape(EmptyRoute(plans[j]), routes[j]) && Tracks(routes[j], live - {slotId})
        invariant forall j :: i <= j < |routes| ==> routes[j] == old(routes)[j]
      {
        RemoveKeeps(routes[i], live, slotId);
        var removed := RemoveSlot(routes[i], record, slotId);
        if removed.Failure? {
          assert false;  // no "invariant missing" throw, no narrowing overflow
        }
        routes := routes[i := removed.value];
        i := i + 1;
      }
      return None;
    }

    /** `records()`: refills the cache when dirty, then hands it out. */
    method Records() returns (records: seq<Record>)
      requires Valid()
      modifies this`recordsCache, this`recordsCacheDirty
      ensures Valid() && records == Contents() == old(Contents())
    {
      if recordsCacheDirty {
        recordsCache := [];
        var i := 0;
        while i < |liveOrder|
          invariant i <= |liveOrder|
          invariant recordsCache == Deref(liveOrder[..i], slots)
        {
          assert liveOrder[..i + 1][..i] == liveOrder[..i];
          var slotId := liveOrder[i];
          if slotId < |slots| && slots[slotId].Some? {
            recordsCache := recordsCache + [slots[slotId].value];
          }
          i := i + 1;
        }
        assert liveOrder[..i] == liveOrder;
        recordsCacheDirty := false;
      }
      return recordsCache;
    }

    method Size() returns (n: nat)
      requires Valid()
      ensures n == |Contents()|
    {
      DerefLive(liveOrder, slots);
      return |liveOrder|;
    }

    /** `logical_slot`: its "live-order invariant broken" throw is never reached. */
    method LogicalSlot(position: nat) returns (found: Result<nat, Fault>)
      requires LiveOrder(liveOrder, slots)
      ensures found == if position < |liveOrder| then Success(liveOrder[position]) else Failure(PositionOutOfRange)
      ensures found.Success? ==> IsLive(slots, found.value)
    {
      if position >= |liveOrder| {
        return Failure(PositionOutOfRange);
      }
      var slotId := liveOrder[position];
      assert slotId in liveOrder;
      if slotId >= |slots| || slots[slotId].None? {
        return Failure(LiveOrderBroken);
      }
      return Success(slotId);
    }

    // ---- queries ----

    ghost predicate IsRoute(i: nat, kind: QueryKind)
      reads this
    {
      i < |plans| && plans[i].RecordPlan? && plans[i].kind == kind
    }

    /** Point lookup: exactly the last matching record in logical order. */
    method PointLookup(i: nat, key: Value) returns (out: seq<Record>)
      requires Valid() && IsRoute(i, QueryKind.PointLookup)
      ensures out == LastHit(Contents(), WithKey(plans[i].field, key))
      ensures FindsLast(Contents(), plans[i].field, key, out)
    {
      assert plans[i] in plans;
      LastWithKey(Contents(), plans[i].field, key) by { ContentsConform(i); }
      var rt := routes[i];
      BackmostIsLastHit(rt.postings, rt.field, liveOrder, slots, key);
      out := ReadBack(rt, key, LiveOf(slots));
    }

    /** The posting a trie or a table keeps at hand for a key: the backmost. */
    method ReadBack(rt: Route, key: Value, ghost live: Live) returns (out: seq<Record>)
      requires (rt.Trie? || rt.Winner?) && Tracks(rt, live)
      ensures out == Deref(Backmost(rt.postings, key), slots)
    {
      out := [];
      if rt.Trie? {
        TrieFindsBack(rt.trie, rt.postings, key);
        var hit := TrieFind(rt.trie, key);
        if hit.Some? {
          out := AppendLive(hit.value, out);
        }
      } else {
        WinnerIsBackmost(rt.postings, rt.primary, key);
        if key in rt.primary {
          out := AppendLive(rt.primary[key], out);
        }
      }
    }

    /** Range scan: the multiset of the reference scan, handed out in key order. */
    method RangeScan(i: nat, low: Value, high: Value) returns (out: seq<Record>)
      requires Valid() && IsRoute(i, QueryKind.RangeScan)
      ensures multiset(out) == multiset(Scan(Contents(), WithinKeys(plans[i].field, low, high)))
      ensures KeysAscend(out, plans[i].field)
      ensures ListsWithin(Contents(), plans[i].field, low, high, out)
    {
      assert plans[i] in plans;
      var rt := routes[i];
      var ids := RangeOf(rt.rows, LowBound(low), HighBound(high));
      RangeAnswers(rt.rows, rt.field, liveOrder, slots, low, high);
      RangeInKeyOrder(rt.rows, rt.field, slots, LowBound(low), HighBound(high));
      out := AppendAll(ids);
      CountsWithin(Contents(), plans[i].field, low, high, out) by { ContentsConform(i); }
    }

    /** Filter: the reference scan itself, in logical order. */
    method FilterBy(i: nat, key: Value) returns (out: seq<Record>)
      requires Valid() && IsRoute(i, QueryKind.Filter)
      ensures out == Scan(Contents(), WithKey(plans[i].field, key))
      ensures exists ps: seq<nat> :: ListsKey(Contents(), plans[i].field, key, out, ps)
    {
      assert plans[i] in plans;
      ScanListsKey(Contents(), plans[i].field, key) by { ContentsConform(i); }
      var rt := routes[i];
      PostingAnswers(rt.postings, rt.field, liveOrder, slots, key);
      out := AppendAll(PostingOf(rt.postings, key));
    }

    /** Prefix search: all matching records, or `limit` of them when there are more. */
    method SearchPrefix(i: nat, prefix: Text.Text, limit: nat) returns (out: seq<Record>)
      requires Valid() && IsRoute(i, QueryKind.PrefixSearch)
      ensures var hits := Scan(Contents(), WithPrefix(plans[i].field, prefix));
              && multiset(out) <= multiset(hits)
              && |out| == (if |hits| <= limit then |hits| else limit)
              && (|hits| <= limit ==> multiset(out) == multiset(hits))
      ensures forall r :: r in out ==> TextStarts(r, plans[i].field, prefix) && multiset(out)[r] <= multiset(Contents())[r]
      ensures var matches := |set p: nat | p < |Contents()| && TextStarts(Contents()[p], plans[i].field, prefix)|;
              && |out| == (if matches <= limit then matches else limit)
              && (matches <= limit ==>
                    forall r :: multiset(out)[r] ==
                      if TextStarts(r, plans[i].field, prefix) then multiset(Contents())[r] else 0)
    {
      assert plans[i] in plans;
      CountsStarting(Contents(), plans[i].field, prefix) by { ContentsConform(i); }
      var rt := routes[i];
      var ids := FlattenPrefix(rt.trie, prefix, limit);
      LimitedPrefix(rt, liveOrder, slots, prefix, limit);
      out := AppendAll(ids);
    }

    method AppendLive(slotId: nat, sofar: seq<Record>) returns (out: seq<Record>)
      ensures out == sofar + Deref([slotId], slots)
    {
      out := sofar;
      if slotId < |slots| && slots[slotId].Some? {
        out := out + [slots[slotId].value];
      }
    }

    method AppendAll(ids: seq<nat>) returns (out: seq<Record>)
      ensures out == Deref(ids, slots)
    {
      out := [];
      var i := 0;
      while i < |ids|
        invariant i <= |ids|
        invariant out == Deref(ids[..i], slots)
      {
        assert ids[..i + 1][..i] == ids[..i];
        DerefAppend(ids[..i], [ids[i]], slots);
        out := AppendLive(ids[i], out);
        i := i + 1;
      }
      assert ids[..i] == ids;
    }

    // ---- small steps of the proofs above ----

    lemma ContentsConform(i: nat)
      requires Valid() && i < |plans| && plans[i].RecordPlan?
      ensures forall r :: r in Contents() ==> plans[i].field < |r|
    {
      assert plans[i] in plans;
      DerefLive(liveOrder, slots);
      forall r | r in Contents() ensures plans[i].field < |r| {
        var k :| 0 <= k < |Contents()| && Contents()[k] == r;
        assert Conforms(fields, slots[liveOrder[k]].value);
      }
    }

    lemma AcceptsConforming(r: Record)
      requires |routes| == |plans| && Conforms(fields, r)
      requires forall p :: p in plans ==> Compiles(fields, p)
      requires forall i :: 0 <= i < |routes| ==> SameShape(EmptyRoute(plans[i]), routes[i])
      ensures forall i :: 0 <= i < |routes| ==> Accepts(routes[i], r)
    {
      forall i | 0 <= i < |routes| ensures Accepts(routes[i], r) {
        assert plans[i] in plans;
      }
    }

    lemma BitmapHasPlan(i: nat)
      requires i < |plans| == |routes| && SameShape(EmptyRoute(plans[i]), routes[i]) && routes[i].Bitmap?
      ensures UsesBitmap(plans)
    {
      assert plans[i].RecordPlan? && plans[i].upkeep == BitmapUpkeep;
    }

    lemma BitmapPlansAreRoutes()
      requires |routes| == |plans|
      requires forall i :: 0 <= i < |routes| ==> SameShape(EmptyRoute(plans[i]), routes[i])
      ensures UsesBitmap(plans) <==> exists i :: 0 <= i < |routes| && routes[i].Bitmap?
    {
      if UsesBitmap(plans) {
        var i :| 0 <= i < |plans| && plans[i].RecordPlan? && plans[i].upkeep == BitmapUpkeep;
        assert routes[i].Bitmap?;
      }
      if i :| 0 <= i < |routes| && routes[i].Bitmap? {
        BitmapHasPlan(i);
      }
    }
  }

  lemma ExtendsLive(order: seq<nat>, slots: Slots, r: Record)
    requires LiveOrder(order, slots)
    ensures LiveOrder(order + [|slots|], slots + [Some(r)])
  {
    forall i | 0 <= i < |order| ensures order[i] < |slots| {
      assert order[i] in order;
    }
  }

  lemma ShrinksLive(order: seq<nat>, slots: Slots, at: nat)
    requires LiveOrder(order, slots) && at < |order|
    ensures order[at] < |slots|
    ensures LiveOrder(order[..at] + order[at + 1..], slots[order[at] := None])
  {
    assert order[at] in order;
    Removed(order, at);
    var kept := order[..at] + order[at + 1..];
    forall i | 0 <= i < |kept| ensures kept[i] != order[at] {
    }
  }
}
