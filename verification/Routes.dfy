/** The secondary structure behind one generated query route, with the two
    maintenance calls that insert, update and erase are made of. A route is judged
    against `live`: the map from each populated slot id to the record stored there. */
module Routes {
  import opened Wrappers
  import opened Keys
  import opened Containers

  type Record = seq<Value>
  type Live = map<nat, Record>
  type Postings = map<Value, seq<nat>>

  const MAX_BITMAP_SLOT: nat := 0xFFFF_FFFF
  const MAX_SIZE: nat := 0xFFFF_FFFF_FFFF_FFFF

  /** The C++ exceptions of the generated class. */
  datatype Fault =
    | LengthError
    | PositionOutOfRange
    | BitmapOverflow
    | LiveOrderBroken
    | WinnerMissingKey
    | WinnerMissingSlot

  datatype Route =
    | Winner(field: nat, postings: Postings, primary: map<Value, nat>)
    | Ranged(field: nat, rows: seq<Row<nat>>)
    | Bitmap(field: nat, postings: Postings)
    | Trie(field: nat, postings: Postings, trie: seq<Row<seq<nat>>>)
    | Graph

  /** `record.<field>`; the schema check keeps `field` within the record. */
  function KeyOf(r: Record, field: nat): Value {
    if field < |r| then r[field] else BoolV(false)
  }

  function TrieKey(key: Value): Composite {
    Composite(key, 0)
  }

  predicate SameShape(a: Route, b: Route) {
    match (a, b)
    case (Winner(f, _, _), Winner(g, _, _)) => f == g
    case (Ranged(f, _), Ranged(g, _)) => f == g
    case (Bitmap(f, _), Bitmap(g, _)) => f == g
    case (Trie(f, _, _), Trie(g, _, _)) => f == g
    case (Graph, Graph) => true
    case _ => false
  }

  // ---- posting maps ----

  function PostAdd(postings: Postings, key: Value, slot: nat): Postings {
    postings[key := InsertId(if key in postings then postings[key] else [], slot)]
  }

  predicate IsPosted(postings: Postings, key: Value, slot: nat) {
    key in postings && HoldsId(postings[key], slot)
  }

  function PostRemove(postings: Postings, key: Value, slot: nat): Postings
    requires IsPosted(postings, key, slot)
  {
    var ids := EraseId(postings[key], slot);
    if ids == [] then postings - {key} else postings[key := ids]
  }

  /** Every posting list is the non-empty ascending list of exactly the live slots with its key. */
  ghost predicate Posted(postings: Postings, field: nat, live: Live) {
    && (forall k :: k in postings ==> postings[k] != [] && Ascending(postings[k]))
    && (forall k, s :: k in postings && s in postings[k] ==> s in live && KeyOf(live[s], field) == k)
    && (forall s :: s in live ==>
          KeyOf(live[s], field) in postings && s in postings[KeyOf(live[s], field)])
  }

  lemma PostAddKeeps(postings: Postings, field: nat, live: Live, slot: nat, r: Record)
    requires Posted(postings, field, live) && slot !in live
    ensures Posted(PostAdd(postings, KeyOf(r, field), slot), field, live[slot := r])
    ensures PostAdd(postings, KeyOf(r, field), slot)[KeyOf(r, field)] != []
  {
    var key := KeyOf(r, field);
    InsertIdKeeps(if key in postings then postings[key] else [], slot);
  }

  lemma PostRemoveKeeps(postings: Postings, field: nat, live: Live, slot: nat)
    requires Posted(postings, field, live) && slot in live
    ensures IsPosted(postings, KeyOf(live[slot], field), slot)
    ensures Posted(PostRemove(postings, KeyOf(live[slot], field), slot), field, live - {slot})
  {
    var key := KeyOf(live[slot], field);
    var ids := postings[key];
    HoldsIdIsMembership(ids, slot);
    EraseIdKeeps(ids, slot);
    var rest := EraseId(ids, slot);
    assert rest == [] ==> forall s :: s in live && s != slot ==> KeyOf(live[s], field) != key;
  }

  // ---- the route invariant ----

  ghost predicate WinnersTrack(postings: Postings, primary: map<Value, nat>) {
    && primary.Keys == postings.Keys
    && forall k :: k in postings && postings[k] != [] ==> primary[k] == postings[k][|postings[k]| - 1]
  }

  ghost predicate RowsTrack(rows: seq<Row<nat>>, field: nat, live: Live) {
    && Ordered(rows)
    && (forall row :: row in rows ==>
          row.value in live && row.key == Composite(KeyOf(live[row.value], field), row.value))
    && (forall s :: s in live ==> Row(Composite(KeyOf(live[s], field), s), s) in rows)
  }

  ghost predicate TrieTracks(trie: seq<Row<seq<nat>>>, postings: Postings) {
    && Ordered(trie)
    && (forall row :: row in trie ==>
          row.key == TrieKey(row.key.key) && row.key.key in postings && row.value == postings[row.key.key])
    && (forall k :: k in postings ==> Row(TrieKey(k), postings[k]) in trie)
  }

  ghost predicate TextKeys(live: Live, field: nat) {
    forall s :: s in live ==> KeyOf(live[s], field).TextV?
  }

  ghost predicate Tracks(rt: Route, live: Live) {
    match rt
    case Winner(f, postings, primary) => Posted(postings, f, live) && WinnersTrack(postings, primary)
    case Ranged(f, rows) => RowsTrack(rows, f, live)
    case Bitmap(f, postings) => Posted(postings, f, live)
    case Trie(f, postings, trie) =>
      && Posted(postings, f, live)
      && TrieTracks(trie, postings)
      && TextKeys(live, f)
    case Graph => true
  }

  // ---- maintenance ----

  /** `insert_or_assign(key, ids.back())`, skipped once the posting list is gone. */
  function Crown(primary: map<Value, nat>, key: Value, ids: seq<nat>): map<Value, nat> {
    if ids == [] then primary else primary[key := ids[|ids| - 1]]
  }

  /** The line insert (and the second half of update) runs for a route. */
  function AddSlot(rt: Route, r: Record, slot: nat): Result<Route, Fault> {
    match rt
    case Winner(f, postings, primary) =>
      var key := KeyOf(r, f);
      var after := PostAdd(postings, key, slot);
      Success(Winner(f, after, Crown(primary, key, after[key])))
    case Ranged(f, rows) => Success(Ranged(f, InsertOrAssign(rows, Composite(KeyOf(r, f), slot), slot)))
    case Bitmap(f, postings) =>
      if slot > MAX_BITMAP_SLOT then Failure(BitmapOverflow)
      else Success(Bitmap(f, PostAdd(postings, KeyOf(r, f), slot)))
    case Trie(f, postings, trie) =>
      var key := KeyOf(r, f);
      var after := PostAdd(postings, key, slot);
      Success(Trie(f, after, InsertOrAssign(trie, TrieKey(key), after[key])))
    case Graph => Success(Graph)
  }

  /** The line erase (and the first half of update) runs for a route. */
  function RemoveSlot(rt: Route, r: Record, slot: nat): Result<Route, Fault> {
    match rt
    case Winner(f, postings, primary) =>
      var key := KeyOf(r, f);
      if key !in postings then Failure(WinnerMissingKey)
      else if !HoldsId(postings[key], slot) then Failure(WinnerMissingSlot)
      else
        var ids := EraseId(postings[key], slot);
        Success(Winner(f, PostRemove(postings, key, slot), Crown(primary - {key}, key, ids)))
    case Ranged(f, rows) => Success(Ranged(f, EraseRow(rows, Composite(KeyOf(r, f), slot))))
    case Bitmap(f, postings) =>
      if slot > MAX_BITMAP_SLOT then Failure(BitmapOverflow)
      else if !IsPosted(postings, KeyOf(r, f), slot) then Success(rt)
      else Success(Bitmap(f, PostRemove(postings, KeyOf(r, f), slot)))
    case Trie(f, postings, trie) =>
      var key := KeyOf(r, f);
      if !IsPosted(postings, key, slot) then Success(rt)
      else
        var after := PostRemove(postings, key, slot);
        Success(Trie(f, after,
                     if key in after then InsertOrAssign(trie, TrieKey(key), after[key])
                     else EraseRow(trie, TrieKey(key))))
    case Graph => Success(Graph)
  }

  /** What a route may be asked to store: trie columns are strings. */
  predicate Accepts(rt: Route, r: Record) {
    rt.Trie? ==> KeyOf(r, rt.field).TextV?
  }

  lemma RowsAddKeeps(rows: seq<Row<nat>>, field: nat, live: Live, slot: nat, r: Record)
    requires RowsTrack(rows, field, live) && slot !in live
    ensures RowsTrack(InsertOrAssign(rows, Composite(KeyOf(r, field), slot), slot), field, live[slot := r])
  {
    InsertOrAssignKeeps(rows, Composite(KeyOf(r, field), slot), slot);
  }

  lemma RowsRemoveKeeps(rows: seq<Row<nat>>, field: nat, live: Live, slot: nat)
    requires RowsTrack(rows, field, live) && slot in live
    ensures RowsTrack(EraseRow(rows, Composite(KeyOf(live[slot], field), slot)), field, live - {slot})
  {
    EraseRowKeeps(rows, Composite(KeyOf(live[slot], field), slot));
  }

  lemma TrieAddKeeps(trie: seq<Row<seq<nat>>>, postings: Postings, key: Value, slot: nat)
    requires TrieTracks(trie, postings)
    ensures var after := PostAdd(postings, key, slot);
            TrieTracks(InsertOrAssign(trie, TrieKey(key), after[key]), after)
  {
    TrieAssignKeeps(trie, postings, key, PostAdd(postings, key, slot)[key]);
  }

  lemma TrieAssignKeeps(trie: seq<Row<seq<nat>>>, postings: Postings, key: Value, ids: seq<nat>)
    requires TrieTracks(trie, postings)
    ensures TrieTracks(InsertOrAssign(trie, TrieKey(key), ids), postings[key := ids])
  {
    InsertOrAssignKeeps(trie, TrieKey(key), ids);
  }

  lemma TrieEraseKeeps(trie: seq<Row<seq<nat>>>, postings: Postings, key: Value)
    requires TrieTracks(trie, postings)
    ensures TrieTracks(EraseRow(trie, TrieKey(key)), postings - {key})
  {
    EraseRowKeeps(trie, TrieKey(key));
  }

  lemma TrieRemoveKeeps(trie: seq<Row<seq<nat>>>, postings: Postings, key: Value, slot: nat)
    requires TrieTracks(trie, postings) && IsPosted(postings, key, slot)
    ensures var after := PostRemove(postings, key, slot);
            TrieTracks(if key in after then InsertOrAssign(trie, TrieKey(key), after[key])
                       else EraseRow(trie, TrieKey(key)), after)
  {
    var ids := EraseId(postings[key], slot);
    if ids == [] {
      TrieEraseKeeps(trie, postings, key);
    } else {
      TrieAssignKeeps(trie, postings, key, ids);
    }
  }

  lemma CrownAfterAdd(postings: Postings, primary: map<Value, nat>, key: Value, slot: nat)
    requires WinnersTrack(postings, primary) && PostAdd(postings, key, slot)[key] != []
    ensures var after := PostAdd(postings, key, slot); WinnersTrack(after, Crown(primary, key, after[key]))
  {
  }

  lemma CrownAfterRemove(postings: Postings, primary: map<Value, nat>, key: Value, slot: nat)
    requires WinnersTrack(postings, primary) && IsPosted(postings, key, slot)
    ensures WinnersTrack(PostRemove(postings, key, slot), Crown(primary - {key}, key, EraseId(postings[key], slot)))
  {
  }

  lemma WinnerAddKeeps(rt: Route, live: Live, slot: nat, r: Record)
    requires rt.Winner? && Tracks(rt, live) && slot !in live
    ensures AddSlot(rt, r, slot).Success? && SameShape(rt, AddSlot(rt, r, slot).value)
    ensures Tracks(AddSlot(rt, r, slot).value, live[slot := r])
  {
    var key := KeyOf(r, rt.field);
    var after := PostAdd(rt.postings, key, slot);
    assert after[key] != [] && Posted(after, rt.field, live[slot := r]) by {
      PostAddKeeps(rt.postings, rt.field, live, slot, r);
    }
    assert WinnersTrack(after, Crown(rt.primary, key, after[key])) by {
      CrownAfterAdd(rt.postings, rt.primary, key, slot);
    }
  }

  lemma TrieRouteAddKeeps(rt: Route, live: Live, slot: nat, r: Record)
    requires rt.Trie? && Tracks(rt, live) && slot !in live && Accepts(rt, r)
    ensures AddSlot(rt, r, slot).Success? && SameShape(rt, AddSlot(rt, r, slot).value)
    ensures Tracks(AddSlot(rt, r, slot).value, live[slot := r])
  {
    var key := KeyOf(r, rt.field);
    var after := PostAdd(rt.postings, key, slot);
    assert Posted(after, rt.field, live[slot := r]) by { PostAddKeeps(rt.postings, rt.field, live, slot, r); }
    assert TrieTracks(InsertOrAssign(rt.trie, TrieKey(key), after[key]), after) by {
      TrieAddKeeps(rt.trie, rt.postings, key, slot);
    }
    assert TextKeys(live[slot := r], rt.field);
  }

  /** Adding a fresh slot to a route that tracks `live` succeeds, unless the slot id
      no longer fits the bitmap, and the route then tracks the larger map. */
  lemma AddKeeps(rt: Route, live: Live, slot: nat, r: Record)
    requires Tracks(rt, live) && slot !in live && Accepts(rt, r)
    ensures AddSlot(rt, r, slot).Failure? <==> rt.Bitmap? && slot > MAX_BITMAP_SLOT
    ensures AddSlot(rt, r, slot).Failure? ==> AddSlot(rt, r, slot).error == BitmapOverflow
    ensures AddSlot(rt, r, slot).Success? ==>
              SameShape(rt, AddSlot(rt, r, slot).value) && Tracks(AddSlot(rt, r, slot).value, live[slot := r])
  {
    match rt
    case Winner(_, _, _) => WinnerAddKeeps(rt, live, slot, r);
    case Ranged(f, rows) => RowsAddKeeps(rows, f, live, slot, r);
    case Bitmap(f, postings) => PostAddKeeps(postings, f, live, slot, r);
    case Trie(_, _, _) => TrieRouteAddKeeps(rt, live, slot, r);
    case Graph =>
  }

  /** Why the overflow matters: past the 32-bit range no bitmap posting that was right
      before the insertion is right after it. The stored record is missing from the route. */
  lemma OverflowLeavesBitmapStale(rt: Route, live: Live, slot: nat, r: Record)
    requires rt.Bitmap? && Tracks(rt, live) && slot !in live && slot > MAX_BITMAP_SLOT
    ensures AddSlot(rt, r, slot) == Failure(BitmapOverflow)
    ensures !Tracks(rt, live[slot := r])
  {
    var key := KeyOf(r, rt.field);
    var after := live[slot := r];
    assert slot in after && KeyOf(after[slot], rt.field) == key;
    assert key in rt.postings ==> slot !in rt.postings[key];
  }

  lemma WinnerRemoveKeeps(rt: Route, live: Live, slot: nat)
    requires rt.Winner? && Tracks(rt, live) && slot in live
    ensures RemoveSlot(rt, live[slot], slot).Success?
    ensures SameShape(rt, RemoveSlot(rt, live[slot], slot).value)
    ensures Tracks(RemoveSlot(rt, live[slot], slot).value, live - {slot})
  {
    var key := KeyOf(live[slot], rt.field);
    assert IsPosted(rt.postings, key, slot) by { PostRemoveKeeps(rt.postings, rt.field, live, slot); }
    var after := PostRemove(rt.postings, key, slot);
    assert Posted(after, rt.field, live - {slot}) by { PostRemoveKeeps(rt.postings, rt.field, live, slot); }
    assert WinnersTrack(after, Crown(rt.primary - {key}, key, EraseId(rt.postings[key], slot))) by {
      CrownAfterRemove(rt.postings, rt.primary, key, slot);
    }
  }

  lemma TrieRouteRemoveKeeps(rt: Route, live: Live, slot: nat)
    requires rt.Trie? && Tracks(rt, live) && slot in live
    ensures RemoveSlot(rt, live[slot], slot).Success?
    ensures SameShape(rt, RemoveSlot(rt, live[slot], slot).value)
    ensures Tracks(RemoveSlot(rt, live[slot], slot).value, live - {slot})
  {
    var key := KeyOf(live[slot], rt.field);
    assert IsPosted(rt.postings, key, slot) by { PostRemoveKeeps(rt.postings, rt.field, live, slot); }
    var after := PostRemove(rt.postings, key, slot);
    assert Posted(after, rt.field, live - {slot}) by { PostRemoveKeeps(rt.postings, rt.field, live, slot); }
    assert TrieTracks(if key in after then InsertOrAssign(rt.trie, TrieKey(key), after[key])
                      else EraseRow(rt.trie, TrieKey(key)), after) by {
      TrieRemoveKeeps(rt.trie, rt.postings, key, slot);
    }
    assert TextKeys(live - {slot}, rt.field);
  }

  /** Removing a live slot from a route that tracks `live` never reaches one of the
      "invariant missing" throws, and the route then tracks the smaller map. */
  lemma RemoveKeeps(rt: Route, live: Live, slot: nat)
    requires Tracks(rt, live) && slot in live
    requires rt.Bitmap? ==> slot <= MAX_BITMAP_SLOT
    ensures RemoveSlot(rt, live[slot], slot).Success?
    ensures SameShape(rt, RemoveSlot(rt, live[slot], slot).value)
    ensures Tracks(RemoveSlot(rt, live[slot], slot).value, live - {slot})
  {
    match rt
    case Winner(_, _, _) => WinnerRemoveKeeps(rt, live, slot);
    case Ranged(f, rows) => RowsRemoveKeeps(rows, f, live, slot);
    case Bitmap(f, postings) => PostRemoveKeeps(postings, f, live, slot);
    case Trie(_, _, _) => TrieRouteRemoveKeeps(rt, live, slot);
    case Graph =>
  }

  /** An update's line on one route: out with the old record, in with the new one. */
  lemma ReplaceKeeps(rt: Route, live: Live, slot: nat, r: Record)
    requires Tracks(rt, live) && slot in live && Accepts(rt, r)
    requires rt.Bitmap? ==> slot <= MAX_BITMAP_SLOT
    ensures RemoveSlot(rt, live[slot], slot).Success?
    ensures var removed := RemoveSlot(rt, live[slot], slot).value;
            && AddSlot(removed, r, slot).Success?
            && SameShape(rt, AddSlot(removed, r, slot).value)
            && Tracks(AddSlot(removed, r, slot).value, live[slot := r])
  {
    RemoveKeeps(rt, live, slot);
    var removed := RemoveSlot(rt, live[slot], slot).value;
    ShapesAgree(rt, removed, r);
    assert (live - {slot})[slot := r] == live[slot := r];
    PutBackKeeps(removed, live - {slot}, live[slot := r], slot, r);
    ShapeTransitive(rt, removed, AddSlot(removed, r, slot).value);
  }

  lemma ShapesAgree(rt: Route, other: Route, r: Record)
    requires SameShape(rt, other)
    ensures Accepts(rt, r) <==> Accepts(other, r)
    ensures rt.Bitmap? <==> other.Bitmap?
  {
  }

  lemma ShapeTransitive(a: Route, b: Route, c: Route)
    requires SameShape(a, b) && SameShape(b, c)
    ensures SameShape(a, c)
  {
  }

  lemma PutBackKeeps(removed: Route, without: Live, updated: Live, slot: nat, r: Record)
    requires Tracks(removed, without) && slot !in without && Accepts(removed, r)
    requires updated == without[slot := r] && (removed.Bitmap? ==> slot <= MAX_BITMAP_SLOT)
    ensures AddSlot(removed, r, slot).Success?
    ensures SameShape(removed, AddSlot(removed, r, slot).value) && Tracks(AddSlot(removed, r, slot).value, updated)
  {
    AddKeeps(removed, without, slot, r);
  }
}
