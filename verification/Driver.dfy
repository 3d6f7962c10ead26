/** The behavioural verifier's driver: it mirrors every mutation on a plain vector and
    compares each query with a scan of that vector. The generated program fixes one
    short run; here the run, the routes and the probes are arbitrary. */
module Driver {
  import opened Wrappers
  import Text
  import opened Keys
  import opened Queries
  import opened Routes
  import opened Codegen
  import opened Reference
  import opened Answers
  import opened GeneratedIndexModel

  // ---- assert_same_multiset ----

  /** What is still unmatched of `expected`. */
  ghost function Unmatched(matched: seq<bool>, expected: seq<Record>): multiset<Record>
    requires |matched| == |expected|
  {
    if matched == [] then multiset{}
    else
      var n := |matched| - 1;
      Unmatched(matched[..n], expected[..n]) + if matched[n] then multiset{} else multiset{expected[n]}
  }

  lemma {:induction false} UnmatchedMembers(matched: seq<bool>, expected: seq<Record>, item: Record)
    requires |matched| == |expected|
    ensures item in Unmatched(matched, expected) <==>
              exists i :: 0 <= i < |matched| && !matched[i] && expected[i] == item
  {
    if matched != [] {
      var n := |matched| - 1;
      UnmatchedMembers(matched[..n], expected[..n], item);
      if i :| 0 <= i < n && !matched[i] && expected[i] == item {
        assert !matched[..n][i] && expected[..n][i] == item;
      }
    }
  }

  lemma {:induction false} MatchOne(matched: seq<bool>, expected: seq<Record>, i: nat)
    requires |matched| == |expected| && i < |matched| && !matched[i]
    ensures Unmatched(matched, expected) == Unmatched(matched[i := true], expected) + multiset{expected[i]}
  {
    var n := |matched| - 1;
    if i < n {
      MatchOne(matched[..n], expected[..n], i);
      assert matched[i := true][..n] == matched[..n][i := true];
    } else {
      assert matched[i := true][..n] == matched[..n];
    }
  }

  lemma {:induction false} NothingMatched(matched: seq<bool>, expected: seq<Record>)
    requires |matched| == |expected| && forall i :: 0 <= i < |matched| ==> !matched[i]
    ensures Unmatched(matched, expected) == multiset(expected)
  {
    if matched != [] {
      var n := |matched| - 1;
      NothingMatched(matched[..n], expected[..n]);
      assert expected == expected[..n] + [expected[n]];
    }
  }

  lemma SurplusDiffers(actual: seq<Record>, k: nat, expected: multiset<Record>, rest: multiset<Record>)
    requires k < |actual| && multiset(actual[..k]) + rest == expected && actual[k] !in rest
    ensures multiset(actual) != expected
  {
    assert actual == actual[..k] + [actual[k]] + actual[k + 1..];
    assert multiset(actual)[actual[k]] > expected[actual[k]];
  }

  lemma Claimed(actual: seq<Record>, k: nat, rest: multiset<Record>, left: multiset<Record>)
    requires k < |actual| && rest == left + multiset{actual[k]}
    ensures multiset(actual[..k]) + rest == multiset(actual[..k + 1]) + left
  {
    assert actual[..k + 1] == actual[..k] + [actual[k]];
  }

  lemma NothingLeft(actual: seq<Record>, expected: seq<Record>, rest: multiset<Record>)
    requires |actual| == |expected| && multiset(actual) + rest == multiset(expected)
    ensures multiset(actual) == multiset(expected)
  {
    assert |multiset(actual)| + |rest| == |multiset(expected)|;
  }

  /** The inner loop: claim the first unclaimed expected item equal to this one. */
  method ClaimFirst(matched: array<bool>, expected: seq<Record>, item: Record) returns (found: bool)
    requires matched.Length == |expected|
    modifies matched
    ensures !found ==> matched[..] == old(matched[..]) && item !in Unmatched(matched[..], expected)
    ensures found ==> Unmatched(old(matched[..]), expected) == Unmatched(matched[..], expected) + multiset{item}
  {
    var i := 0;
    while i < |expected|
      invariant i <= |expected|
      invariant matched[..] == old(matched[..])
      invariant forall j :: 0 <= j < i ==> matched[j] || expected[j] != item
    {
      if !matched[i] && item == expected[i] {
        MatchOne(matched[..], expected, i);
        matched[i] := true;
        assert matched[..] == old(matched[..])[i := true];
        return true;
      }
      i := i + 1;
    }
    UnmatchedMembers(matched[..], expected, item);
    return false;
  }

  lemma SizesDiffer(actual: seq<Record>, expected: seq<Record>)
    requires |actual| != |expected|
    ensures multiset(actual) != multiset(expected)
  {
    assert |multiset(actual)| == |actual| && |multiset(expected)| == |expected|;
  }

  /** The greedy comparison: each actual item claims the first unclaimed equal expected
      item. It passes iff the two vectors are equal as multisets. */
  method SameMultiset(actual: seq<Record>, expected: seq<Record>) returns (same: bool)
    ensures same <==> multiset(actual) == multiset(expected)
  {
    if |actual| != |expected| {
      SizesDiffer(actual, expected);
      return false;
    }
    var matched := new bool[|expected|](_ => false);
    ghost var bag, rest := multiset(expected), Unmatched(matched[..], expected);
    NothingMatched(matched[..], expected);
    var k := 0;
    while k < |actual|
      invariant k <= |actual|
      invariant rest == Unmatched(matched[..], expected)
      invariant multiset(actual[..k]) + rest == bag
    {
      var found := ClaimFirst(matched, expected, actual[k]);
      if !found {
        SurplusDiffers(actual, k, bag, rest);
        return false;
      }
      Claimed(actual, k, rest, Unmatched(matched[..], expected));
      rest := Unmatched(matched[..], expected);
      k := k + 1;
    }
    assert actual[..k] == actual;
    NothingLeft(actual, expected, rest);
    return true;
  }

  // ---- expectations, by scanning the reference vector ----

  method ExpectAll(reference: seq<Record>, wanted: Wanted) returns (expected: seq<Record>)
    ensures expected == Scan(reference, wanted)
  {
    expected := [];
    var i := 0;
    while i < |reference|
      invariant i <= |reference|
      invariant expected == Scan(reference[..i], wanted)
    {
      assert reference[..i + 1][..i] == reference[..i];
      if wanted(reference[i]) {
        expected := expected + [reference[i]];
      }
      i := i + 1;
    }
    assert reference[..i] == reference;
  }

  method ExpectLast(reference: seq<Record>, wanted: Wanted) returns (expected: seq<Record>)
    ensures expected == LastHit(reference, wanted)
  {
    expected := [];
    var i := 0;
    while i < |reference|
      invariant i <= |reference|
      invariant expected == LastHit(reference[..i], wanted)
    {
      assert reference[..i + 1][..i] == reference[..i];
      if wanted(reference[i]) {
        expected := [reference[i]];
      }
      i := i + 1;
    }
    assert reference[..i] == reference;
  }

  // ---- runs ----

  datatype Probe =
    | PointProbe(route: nat, key: Value)
    | RangeProbe(route: nat, low: Value, high: Value)
    | FilterProbe(route: nat, key: Value)
    | PrefixProbe(route: nat, prefix: Text.Text, limit: nat)

  datatype Op =
    | Insert(r: Record)
    | Update(at: nat, r: Record)
    | Erase(at: nat)
    | Verify(probes: seq<Probe>)

  /** The probe calls a query method that its route has. */
  predicate Addresses(plans: seq<Plan>, p: Probe) {
    && p.route < |plans|
    && plans[p.route].RecordPlan?
    && (match p
        case PointProbe(_, _) => plans[p.route].kind == PointLookup
        case RangeProbe(_, _, _) => plans[p.route].kind == RangeScan
        case FilterProbe(_, _) => plans[p.route].kind == Filter
        case PrefixProbe(_, _, _) => plans[p.route].kind == PrefixSearch)
  }

  /** One operation on the reference vector. */
  function Mirror(before: seq<Record>, op: Op): seq<Record> {
    match op
    case Insert(r) => before + [r]
    case Update(at, r) => if at < |before| then before[at := r] else before
    case Erase(at) => if at < |before| then before[..at] + before[at + 1..] else before
    case Verify(_) => before
  }

  predicate OpRunnable(fields: seq<FieldSpec>, plans: seq<Plan>, before: seq<Record>, op: Op) {
    match op
    case Insert(r) => Conforms(fields, r)
    case Update(at, r) => Conforms(fields, r) && at < |before|
    case Erase(at) => at < |before|
    case Verify(probes) => forall j :: 0 <= j < |probes| ==> Addresses(plans, probes[j])
  }

  /** The reference vector after a run. */
  function Replay(ops: seq<Op>): seq<Record> {
    if ops == [] then [] else Mirror(Replay(ops[..|ops| - 1]), ops[|ops| - 1])
  }

  function Insertions(ops: seq<Op>): nat {
    if ops == [] then 0
    else Insertions(ops[..|ops| - 1]) + if ops[|ops| - 1].Insert? then 1 else 0
  }

  /** Well-typed records, positions in range, probes that address their routes. */
  predicate Runnable(fields: seq<FieldSpec>, plans: seq<Plan>, ops: seq<Op>) {
    forall i :: 0 <= i < |ops| ==> OpRunnable(fields, plans, Replay(ops[..i]), ops[i])
  }

  /** A prefix probe sees no more matches than its limit lets through. */
  predicate WithinLimit(plans: seq<Plan>, reference: seq<Record>, p: Probe) {
    p.PrefixProbe? && p.route < |plans| && plans[p.route].RecordPlan? ==>
      |Scan(reference, WithPrefix(plans[p.route].field, p.prefix))| <= p.limit
  }

  predicate OpWithinLimits(plans: seq<Plan>, reference: seq<Record>, op: Op) {
    op.Verify? ==> forall j :: 0 <= j < |op.probes| ==> WithinLimit(plans, reference, op.probes[j])
  }

  /** Every prefix probe of the run, against the vector it is made on. */
  predicate WithinLimits(plans: seq<Plan>, ops: seq<Op>) {
    ops == [] ||
    (&& WithinLimits(plans, ops[..|ops| - 1])
     && OpWithinLimits(plans, Replay(ops[..|ops| - 1]), ops[|ops| - 1]))
  }

  /** One query block of the driver: it passes, unless a limit cuts matches off. */
  method Check(index: GeneratedIndex, reference: seq<Record>, p: Probe) returns (ok: bool)
    requires index.Valid() && index.Contents() == reference && Addresses(index.plans, p)
    ensures ok <==> WithinLimit(index.plans, reference, p)
  {
    var field := index.plans[p.route].field;
    var actual, expected;
    match p {
      case PointProbe(i, key) =>
        actual := index.PointLookup(i, key);
        expected := ExpectLast(reference, WithKey(field, key));
      case RangeProbe(i, low, high) =>
        actual := index.RangeScan(i, low, high);
        expected := ExpectAll(reference, WithinKeys(field, low, high));
      case FilterProbe(i, key) =>
        actual := index.FilterBy(i, key);
        expected := ExpectAll(reference, WithKey(field, key));
      case PrefixProbe(i, prefix, limit) =>
        actual := index.SearchPrefix(i, prefix, limit);
        expected := ExpectAll(reference, WithPrefix(field, prefix));
        assert |multiset(actual)| == |actual| && |multiset(expected)| == |expected|;
    }
    ok := SameMultiset(actual, expected);
  }

  /** The `verify` lambda: `records()` against the vector, then every query block. */
  method VerifyAll(index: GeneratedIndex, reference: seq<Record>, probes: seq<Probe>) returns (ok: bool)
    requires index.Valid() && index.Contents() == reference
    requires forall j :: 0 <= j < |probes| ==> Addresses(index.plans, probes[j])
    modifies index`recordsCache, index`recordsCacheDirty
    ensures index.Valid() && index.Contents() == reference
    ensures ok <==> OpWithinLimits(index.plans, reference, Verify(probes))
  {
    var records := index.Records();
    ok := records == reference;
    var j := 0;
    while j < |probes|
      invariant 0 <= j <= |probes|
      invariant index.Valid() && index.Contents() == reference
      invariant ok <==> forall k :: 0 <= k < j ==> WithinLimit(index.plans, reference, probes[k])
    {
      var passed := Check(index, reference, probes[j]);
      ok := ok && passed;
      j := j + 1;
    }
  }

  /** One operation on both sides, as the driver's lambdas do it. */
  method Apply(index: GeneratedIndex, reference: seq<Record>, op: Op) returns (after: seq<Record>, ok: bool)
    requires index.Valid() && index.Contents() == reference
    requires OpRunnable(index.fields, index.plans, reference, op)
    requires op.Insert? ==> |index.slots| < Capacity(index.plans)
    modifies index
    ensures index.Valid() && index.Contents() == after == Mirror(reference, op)
    ensures |index.slots| == old(|index.slots|) + if op.Insert? then 1 else 0
    ensures ok <==> OpWithinLimits(index.plans, reference, op)
  {
    ok := true;
    match op {
      case Insert(r) =>
        after := reference + [r];
        var thrown := index.Insert(r);
      case Update(at, r) =>
        after := reference[at := r];
        var thrown := index.UpdateAt(at, r);
      case Erase(at) =>
        after := reference[..at] + reference[at + 1..];
        var thrown := index.EraseAt(at);
      case Verify(probes) =>
        after := reference;
        ok := VerifyAll(index, reference, probes);
    }
  }

  /** The whole driver. On every runnable sequence that fits the slot capacity no
      mutation throws, the index's records are the replayed vector, and every check
      passes except a prefix check whose limit is below the number of matches. */
  method Run(fields: seq<FieldSpec>, plans: seq<Plan>, ops: seq<Op>) returns (passed: bool, index: GeneratedIndex)
    requires forall p :: p in plans ==> Compiles(fields, p)
    requires Runnable(fields, plans, ops) && Insertions(ops) <= Capacity(plans)
    ensures index.Valid() && index.plans == plans && index.Contents() == Replay(ops)
    ensures passed <==> WithinLimits(plans, ops)
  {
    index := new GeneratedIndex(fields, plans);
    var reference: seq<Record> := [];
    passed := true;
    var i := 0;
    while i < |ops|
      invariant 0 <= i <= |ops|
      invariant fresh(index) && index.Valid() && index.fields == fields && index.plans == plans
      invariant index.Contents() == reference == Replay(ops[..i])
      invariant |index.slots| == Insertions(ops[..i])
      invariant passed <==> WithinLimits(plans, ops[..i])
    {
      assert ops[..i + 1][..i] == ops[..i];
      InsertionsGrow(ops, i + 1);
      var ok;
      reference, ok := Apply(index, reference, ops[i]);
      passed := passed && ok;
      i := i + 1;
    }
    assert ops[..i] == ops;
  }

  lemma {:induction false} InsertionsGrow(ops: seq<Op>, upTo: nat)
    requires upTo <= |ops|
    ensures Insertions(ops[..upTo]) <= Insertions(ops)
  {
    if upTo < |ops| {
      InsertionsGrow(ops[..|ops| - 1], upTo);
      assert ops[..|ops| - 1][..upTo] == ops[..upTo];
    } else {
      assert ops[..upTo] == ops;
    }
  }
}
