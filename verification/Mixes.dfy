/** Workload mixes and the drift between two of them: the greater of the total variations of
    their operations and of their access distributions. */
module Mixes {
  import opened Queries
  import opened Reals

  /** Weights as observed; they need not add up to anything. No access weights means unknown. */
  datatype Mix = Mix(operations: map<QueryKind, real>, accesses: map<AccessKind, real>)

  const OPERATIONS: seq<QueryKind> :=
    [PointLookup, RangeScan, Filter, PrefixSearch, GraphTraversal, InsertOp, UpdateOp, DeleteOp]

  const ACCESSES: seq<AccessKind> := [Uniform, Sequential, Hotspot, Zipf]

  function Weight<K(==)>(m: map<K, real>, key: K): real {
    if key in m then m[key] else 0.0
  }

  function Total<K(==)>(m: map<K, real>, keys: seq<K>): real {
    if keys == [] then 0.0 else Total(m, keys[..|keys| - 1]) + Weight(m, keys[|keys| - 1])
  }

  /** The share of a key in the normalized mix. */
  function Share(weight: real, total: real): real {
    if total > 0.0 && weight > 0.0 then weight / total else 0.0
  }

  function Gaps<K(==)>(a: map<K, real>, b: map<K, real>, ta: real, tb: real, keys: seq<K>): (r: real)
    ensures r >= 0.0
  {
    if keys == [] then 0.0
    else
      var key := keys[|keys| - 1];
      Gaps(a, b, ta, tb, keys[..|keys| - 1]) + Abs(Share(Weight(a, key), ta) - Share(Weight(b, key), tb))
  }

  /** `_tv_distance` of the normalized mixes; keys outside both add nothing. */
  function Distance<K(==)>(a: map<K, real>, b: map<K, real>, keys: seq<K>): (r: real)
    ensures r >= 0.0
  {
    0.5 * Gaps(a, b, Total(a, keys), Total(b, keys), keys)
  }

  /** `workload_drift`: the distance it reports. */
  function DriftDistance(baseline: Mix, observed: Mix): (r: real)
    ensures r >= 0.0
  {
    Max(Distance(baseline.operations, observed.operations, OPERATIONS),
        if baseline.accesses != map[] && observed.accesses != map[]
        then Distance(baseline.accesses, observed.accesses, ACCESSES) else 0.0)
  }

  predicate Drifted(baseline: Mix, observed: Mix, threshold: real) {
    DriftDistance(baseline, observed) >= threshold
  }

  // ---- the distance is one ----

  predicate NonNegative<K>(m: map<K, real>) {
    forall key :: key in m ==> m[key] >= 0.0
  }

  /** What the validation of a snapshot lets through. */
  predicate ValidMix(m: Mix) {
    && NonNegative(m.operations) && Total(m.operations, OPERATIONS) > 0.0
    && NonNegative(m.accesses) && (m.accesses != map[] ==> Total(m.accesses, ACCESSES) > 0.0)
  }

  function Shares<K(==)>(m: map<K, real>, total: real, keys: seq<K>): real {
    if keys == [] then 0.0 else Shares(m, total, keys[..|keys| - 1]) + Share(Weight(m, keys[|keys| - 1]), total)
  }

  lemma QuotientsAdd(x: real, y: real, total: real)
    requires total > 0.0
    ensures x / total + y / total == (x + y) / total
  {
  }

  lemma {:induction false} SharesOfTotal<K>(m: map<K, real>, total: real, keys: seq<K>)
    requires NonNegative(m) && total > 0.0
    ensures Shares(m, total, keys) == Total(m, keys) / total
  {
    if keys != [] {
      var before, key := keys[..|keys| - 1], keys[|keys| - 1];
      SharesOfTotal(m, total, before);
      QuotientsAdd(Total(m, before), Weight(m, key), total);
    }
  }

  /** The shares of a mix add up to one. */
  lemma SharesAddUp<K>(m: map<K, real>, keys: seq<K>)
    requires NonNegative(m) && Total(m, keys) > 0.0
    ensures Shares(m, Total(m, keys), keys) == 1.0
  {
    SharesOfTotal(m, Total(m, keys), keys);
    WholeIsOne(Total(m, keys));
  }

  lemma WholeIsOne(total: real)
    requires total > 0.0
    ensures total / total == 1.0
  {
  }

  lemma ShareIsPositive(weight: real, total: real)
    ensures Share(weight, total) >= 0.0
  {
  }

  lemma {:induction false} GapsWithinShares<K>(a: map<K, real>, b: map<K, real>, ta: real, tb: real, keys: seq<K>)
    ensures Gaps(a, b, ta, tb, keys) <= Shares(a, ta, keys) + Shares(b, tb, keys)
  {
    if keys != [] {
      var key := keys[|keys| - 1];
      GapsWithinShares(a, b, ta, tb, keys[..|keys| - 1]);
      ShareIsPositive(Weight(a, key), ta);
      ShareIsPositive(Weight(b, key), tb);
    }
  }

  lemma DistanceAtMostOne<K>(a: map<K, real>, b: map<K, real>, keys: seq<K>)
    requires NonNegative(a) && NonNegative(b) && Total(a, keys) > 0.0 && Total(b, keys) > 0.0
    ensures Distance(a, b, keys) <= 1.0
  {
    GapsWithinShares(a, b, Total(a, keys), Total(b, keys), keys);
    SharesAddUp(a, keys);
    SharesAddUp(b, keys);
  }

  /** The reported drift of two snapshots always lies between 0 and 1, as its record demands. */
  lemma DriftInRange(baseline: Mix, observed: Mix)
    requires ValidMix(baseline) && ValidMix(observed)
    ensures 0.0 <= DriftDistance(baseline, observed) <= 1.0
  {
    DistanceAtMostOne(baseline.operations, observed.operations, OPERATIONS);
    if baseline.accesses != map[] && observed.accesses != map[] {
      DistanceAtMostOne(baseline.accesses, observed.accesses, ACCESSES);
    }
  }

  /** How far apart the shares of one key are. */
  function Gap<K(==)>(a: map<K, real>, b: map<K, real>, ta: real, tb: real, key: K): real
    requires ta > 0.0 && tb > 0.0
  {
    var x, y := if key in a then a[key] / ta else 0.0, if key in b then b[key] / tb else 0.0;
    if x > y then x - y else y - x
  }

  lemma GapIs<K>(a: map<K, real>, b: map<K, real>, ta: real, tb: real, key: K)
    requires NonNegative(a) && NonNegative(b) && ta > 0.0 && tb > 0.0
    ensures Abs(Share(Weight(a, key), ta) - Share(Weight(b, key), tb)) == Gap(a, b, ta, tb, key)
  {
  }

  /** Half the sum of the gaps, kind by kind. */
  lemma FirstGaps(a: map<QueryKind, real>, b: map<QueryKind, real>, ta: real, tb: real)
    requires NonNegative(a) && NonNegative(b) && ta > 0.0 && tb > 0.0
    ensures Gaps(a, b, ta, tb, OPERATIONS[..4]) ==
            Gap(a, b, ta, tb, PointLookup) + Gap(a, b, ta, tb, RangeScan) + Gap(a, b, ta, tb, Filter) + Gap(a, b, ta, tb, PrefixSearch)
  {
    GapsSnoc(a, b, ta, tb, OPERATIONS[..0], PointLookup);
    GapsSnoc(a, b, ta, tb, OPERATIONS[..1], RangeScan);
    GapsSnoc(a, b, ta, tb, OPERATIONS[..2], Filter);
    GapsSnoc(a, b, ta, tb, OPERATIONS[..3], PrefixSearch);
    assert OPERATIONS[..0] + [PointLookup] == OPERATIONS[..1] && OPERATIONS[..0] == [];
    assert OPERATIONS[..1] + [RangeScan] == OPERATIONS[..2];
    assert OPERATIONS[..2] + [Filter] == OPERATIONS[..3];
    assert OPERATIONS[..3] + [PrefixSearch] == OPERATIONS[..4];
  }

  lemma LastGaps(a: map<QueryKind, real>, b: map<QueryKind, real>, ta: real, tb: real)
    requires NonNegative(a) && NonNegative(b) && ta > 0.0 && tb > 0.0
    ensures Gaps(a, b, ta, tb, OPERATIONS) ==
            Gaps(a, b, ta, tb, OPERATIONS[..4])
            + Gap(a, b, ta, tb, GraphTraversal) + Gap(a, b, ta, tb, InsertOp) + Gap(a, b, ta, tb, UpdateOp) + Gap(a, b, ta, tb, DeleteOp)
  {
    GapsSnoc(a, b, ta, tb, OPERATIONS[..4], GraphTraversal);
    GapsSnoc(a, b, ta, tb, OPERATIONS[..5], InsertOp);
    GapsSnoc(a, b, ta, tb, OPERATIONS[..6], UpdateOp);
    GapsSnoc(a, b, ta, tb, OPERATIONS[..7], DeleteOp);
    assert OPERATIONS[..4] + [GraphTraversal] == OPERATIONS[..5];
    assert OPERATIONS[..5] + [InsertOp] == OPERATIONS[..6];
    assert OPERATIONS[..6] + [UpdateOp] == OPERATIONS[..7];
    assert OPERATIONS[..7] + [DeleteOp] == OPERATIONS;
  }

  lemma OperationDistanceIs(a: map<QueryKind, real>, b: map<QueryKind, real>)
    requires NonNegative(a) && NonNegative(b) && Total(a, OPERATIONS) > 0.0 && Total(b, OPERATIONS) > 0.0
    ensures var ta, tb := Total(a, OPERATIONS), Total(b, OPERATIONS);
            Distance(a, b, OPERATIONS) ==
            0.5 * (Gap(a, b, ta, tb, PointLookup) + Gap(a, b, ta, tb, RangeScan) + Gap(a, b, ta, tb, Filter) + Gap(a, b, ta, tb, PrefixSearch)
                   + Gap(a, b, ta, tb, GraphTraversal) + Gap(a, b, ta, tb, InsertOp) + Gap(a, b, ta, tb, UpdateOp) + Gap(a, b, ta, tb, DeleteOp))
  {
    FirstGaps(a, b, Total(a, OPERATIONS), Total(b, OPERATIONS));
    LastGaps(a, b, Total(a, OPERATIONS), Total(b, OPERATIONS));
  }

  lemma AccessDistanceIs(a: map<AccessKind, real>, b: map<AccessKind, real>)
    requires NonNegative(a) && NonNegative(b) && Total(a, ACCESSES) > 0.0 && Total(b, ACCESSES) > 0.0
    ensures var ta, tb := Total(a, ACCESSES), Total(b, ACCESSES);
            Distance(a, b, ACCESSES) ==
            0.5 * (Gap(a, b, ta, tb, Uniform) + Gap(a, b, ta, tb, Sequential) + Gap(a, b, ta, tb, Hotspot) + Gap(a, b, ta, tb, Zipf))
  {
    var ta, tb := Total(a, ACCESSES), Total(b, ACCESSES);
    GapsSnoc(a, b, ta, tb, ACCESSES[..0], Uniform);
    GapsSnoc(a, b, ta, tb, ACCESSES[..1], Sequential);
    GapsSnoc(a, b, ta, tb, ACCESSES[..2], Hotspot);
    GapsSnoc(a, b, ta, tb, ACCESSES[..3], Zipf);
    assert ACCESSES[..0] + [Uniform] == ACCESSES[..1];
    assert ACCESSES[..1] + [Sequential] == ACCESSES[..2];
    assert ACCESSES[..2] + [Hotspot] == ACCESSES[..3];
    assert ACCESSES[..3] + [Zipf] == ACCESSES[..4];
    assert ACCESSES[..4] == ACCESSES && ACCESSES[..0] == [];
  }

  lemma GapsSnoc<K>(a: map<K, real>, b: map<K, real>, ta: real, tb: real, keys: seq<K>, key: K)
    requires NonNegative(a) && NonNegative(b) && ta > 0.0 && tb > 0.0
    ensures Gaps(a, b, ta, tb, keys + [key]) == Gaps(a, b, ta, tb, keys) + Gap(a, b, ta, tb, key)
  {
    assert (keys + [key])[..|keys|] == keys;
    GapIs(a, b, ta, tb, key);
  }

  /** The drift is the distance of the operations, or that of the accesses where both sides know
      theirs and it is greater. */
  lemma DriftIs(baseline: Mix, observed: Mix)
    ensures var ops := Distance(baseline.operations, observed.operations, OPERATIONS);
            var accesses := Distance(baseline.accesses, observed.accesses, ACCESSES);
            && (baseline.accesses == map[] || observed.accesses == map[] ==> DriftDistance(baseline, observed) == ops)
            && (baseline.accesses != map[] && observed.accesses != map[] ==>
                  && DriftDistance(baseline, observed) >= ops && DriftDistance(baseline, observed) >= accesses
                  && (DriftDistance(baseline, observed) == ops || DriftDistance(baseline, observed) == accesses))
  {
  }

  lemma {:induction false} SameShares<K>(a: map<K, real>, b: map<K, real>, ta: real, tb: real, keys: seq<K>)
    ensures Gaps(a, b, ta, tb, keys) == 0.0 <==>
            forall key :: key in keys ==> Share(Weight(a, key), ta) == Share(Weight(b, key), tb)
  {
    if keys != [] {
      var before := keys[..|keys| - 1];
      SameShares(a, b, ta, tb, before);
      assert keys == before + [keys[|keys| - 1]];
    }
  }

  lemma AllOperations(kind: QueryKind)
    ensures kind in OPERATIONS
  {
    match kind
    case PointLookup => assert OPERATIONS[0] == kind;
    case RangeScan => assert OPERATIONS[1] == kind;
    case Filter => assert OPERATIONS[2] == kind;
    case PrefixSearch => assert OPERATIONS[3] == kind;
    case GraphTraversal => assert OPERATIONS[4] == kind;
    case InsertOp => assert OPERATIONS[5] == kind;
    case UpdateOp => assert OPERATIONS[6] == kind;
    case DeleteOp => assert OPERATIONS[7] == kind;
  }

  /** The operations are no distance apart exactly if every kind has the same share. */
  lemma NoOperationDriftIff(baseline: Mix, observed: Mix)
    ensures Distance(baseline.operations, observed.operations, OPERATIONS) == 0.0 <==>
            forall kind: QueryKind ::
              Share(Weight(baseline.operations, kind), Total(baseline.operations, OPERATIONS)) ==
              Share(Weight(observed.operations, kind), Total(observed.operations, OPERATIONS))
  {
    SameShares(baseline.operations, observed.operations,
               Total(baseline.operations, OPERATIONS), Total(observed.operations, OPERATIONS), OPERATIONS);
    forall kind: QueryKind ensures kind in OPERATIONS {
      AllOperations(kind);
    }
  }
}
