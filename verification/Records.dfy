/** JSON objects with a fixed key set: how the recovery gates write one, and how
    `_strict_keys` and the subscripts behind it read one. */
module Records {
  import opened Wrappers
  import opened Text
  import opened Json
  import opened JsonRoundTrip

  /** The object with these keys, in this order. */
  function Record(keys: seq<Text>, values: seq<Json>): (v: Json)
    requires |keys| == |values|
    ensures v.Obj? && |v.members| == |keys|
    ensures forall i :: 0 <= i < |keys| ==> v.members[i] == Member(keys[i], values[i])
  {
    Obj(seq(|keys|, i requires 0 <= i < |keys| => Member(keys[i], values[i])))
  }

  function KeySet(keys: seq<Text>): set<Text> {
    set i | 0 <= i < |keys| :: keys[i]
  }

  lemma {:induction false} LookupFinds(members: seq<Member>, key: Text)
    ensures Lookup(members, key).Some? <==> key in Keys(members)
  {
    var n := |members|;
    if n > 0 && members[n - 1].key != key {
      LookupFinds(members[..n - 1], key);
      assert key in Keys(members) <==> key in Keys(members[..n - 1]) by {
        if key in Keys(members) {
          var i :| 0 <= i < n && members[i].key == key;
          assert members[..n - 1][i].key == key;
        }
        if key in Keys(members[..n - 1]) {
          var i :| 0 <= i < n - 1 && members[..n - 1][i].key == key;
          assert members[i].key == key;
        }
      }
    } else if n > 0 {
      assert members[n - 1].key == key;
    }
  }

  /** The fields of a decoded value if it is an object with exactly these keys. */
  function Fields(v: Json, keys: seq<Text>): (fields: Option<seq<Json>>)
    ensures fields.Some? ==> |fields.value| == |keys|
  {
    if !v.Obj? || Keys(v.members) != KeySet(keys) then None
    else
      Some(seq(|keys|, i requires 0 <= i < |keys| =>
                         var found := Lookup(v.members, keys[i]);
                         if found.Some? then found.value else Null))
  }

  predicate Distinct(keys: seq<Text>) {
    forall i, j :: 0 <= i < j < |keys| ==> keys[i] != keys[j]
  }

  /** `len(set(ids)) == len(ids)` */
  lemma {:induction false} DistinctIffCardinality(ids: seq<Text>)
    ensures |KeySet(ids)| <= |ids|
    ensures |KeySet(ids)| == |ids| <==> Distinct(ids)
  {
    if ids != [] {
      var init, last := ids[..|ids| - 1], ids[|ids| - 1];
      DistinctIffCardinality(init);
      KeySetSplit(ids);
      DistinctSplit(ids);
      assert KeySet(ids) == KeySet(init) + {last};
    }
  }

  lemma DistinctSplit(ids: seq<Text>)
    requires ids != []
    ensures Distinct(ids) <==> Distinct(ids[..|ids| - 1]) && ids[|ids| - 1] !in KeySet(ids[..|ids| - 1])
  {
    var init, last := ids[..|ids| - 1], ids[|ids| - 1];
    if last in KeySet(init) {
      var i :| 0 <= i < |init| && init[i] == last;
      assert ids[i] == ids[|ids| - 1];
    }
    if Distinct(init) && last !in KeySet(init) {
      forall i, j | 0 <= i < j < |ids| ensures ids[i] != ids[j] {
        assert init[i] == ids[i] && init[i] in KeySet(init);
        if j < |init| { assert init[j] == ids[j]; }
      }
    }
    if Distinct(ids) {
      forall i, j | 0 <= i < j < |init| ensures init[i] != init[j] {
        assert ids[i] != ids[j];
      }
    }
  }

  lemma KeySetSplit(ids: seq<Text>)
    requires ids != []
    ensures KeySet(ids) == KeySet(ids[..|ids| - 1]) + {ids[|ids| - 1]}
  {
    var init, last := ids[..|ids| - 1], ids[|ids| - 1];
    forall k ensures k in KeySet(ids) <==> k in KeySet(init) + {last} {
      if k in KeySet(ids) {
        var i :| 0 <= i < |ids| && ids[i] == k;
        if i < |init| { assert init[i] == k; }
      }
      if k in KeySet(init) {
        var i :| 0 <= i < |init| && init[i] == k;
        assert ids[i] == k;
      }
    }
  }

  lemma {:induction false} LookupAt(members: seq<Member>, i: nat)
    requires i < |members| && forall j :: i < j < |members| ==> members[j].key != members[i].key
    ensures Lookup(members, members[i].key) == Some(members[i].value)
  {
    if i < |members| - 1 {
      LookupAt(members[..|members| - 1], i);
    }
  }

  /** Reading a written record yields what was written. */
  lemma RecordFields(keys: seq<Text>, values: seq<Json>)
    requires |keys| == |values| && Distinct(keys)
    ensures Fields(Record(keys, values), keys) == Some(values)
  {
    var ms := Record(keys, values).members;
    assert Keys(ms) == KeySet(keys) by {
      forall k ensures k in Keys(ms) <==> k in KeySet(keys) {
        if k in Keys(ms) {
          var i :| 0 <= i < |ms| && ms[i].key == k;
          assert keys[i] == k;
        }
        if k in KeySet(keys) {
          var i :| 0 <= i < |keys| && keys[i] == k;
          assert ms[i].key == k;
        }
      }
    }
    forall i | 0 <= i < |keys| ensures Lookup(ms, keys[i]) == Some(values[i]) {
      LookupAt(ms, i);
    }
    assert Fields(Record(keys, values), keys).value == values;
  }

  lemma {:induction false} MergeMembersAt(members: seq<Member>, i: nat)
    requires i < |members|
    ensures MergeMembers(members)[i] == Member(Merge(members[i].key), MergeAll(members[i].value))
  {
    if i > 0 {
      MergeMembersAt(members[1..], i - 1);
    }
  }

  lemma {:induction false} MergeItemsAt(items: seq<Json>, i: nat)
    requires i < |items|
    ensures MergeItems(items)[i] == MergeAll(items[i])
  {
    if i > 0 {
      MergeItemsAt(items[1..], i - 1);
    }
  }

  /** Joining split pairs in a record joins them in its values. */
  lemma MergeRecord(keys: seq<Text>, values: seq<Json>, merged: seq<Json>)
    requires |keys| == |values| == |merged|
    requires forall i :: 0 <= i < |keys| ==> Whole(keys[i])
    requires forall i :: 0 <= i < |values| ==> MergeAll(values[i]) == merged[i]
    ensures MergeAll(Record(keys, values)) == Record(keys, merged)
  {
    var ms := Record(keys, values).members;
    forall i | 0 <= i < |ms| ensures MergeMembers(ms)[i] == Record(keys, merged).members[i] {
      MergeMembersAt(ms, i);
      MergeIffWhole(keys[i]);
    }
    assert MergeMembers(ms) == Record(keys, merged).members;
  }

  /** Strictly ascending keys, none with a split surrogate pair. */
  ghost predicate GoodKeys(keys: seq<Text>, n: nat) {
    |keys| == n && Sorted(keys) && forall i :: 0 <= i < n ==> Whole(keys[i])
  }

  lemma SortedDistinct(keys: seq<Text>)
    requires Sorted(keys)
    ensures Distinct(keys)
  {
    forall i, j | 0 <= i < j < |keys| ensures keys[i] != keys[j] {
      LessTrichotomy(keys[i], keys[j]);
      LessTrichotomy(keys[i], keys[i]);
    }
  }
}
