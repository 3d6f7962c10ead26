/** Total-variation drift between two windows of a key access trace. */
module Drift {
  import opened Wrappers
  import opened Reals
  import opened Sums

  type Frequencies = map<int, real>

  // ---- relative frequencies ----

  function Count(values: seq<int>, key: int): nat {
    multiset(values)[key]
  }

  /** `_probabilities`: the relative frequency of each key that occurs. */
  ghost function Probabilities(values: seq<int>): Frequencies
    requires values != []
  {
    map k | k in values :: Count(values, k) as real / |values| as real
  }

  /** `a.get(key, 0.0)` */
  function Get(a: Frequencies, key: int): real {
    if key in a then a[key] else 0.0
  }

  function Least(x: real, y: real): real {
    if x < y then x else y
  }

  function Share(a: Frequencies): Weight<int> {
    k => Get(a, k)
  }

  function Gap(a: Frequencies, b: Frequencies): Weight<int> {
    k => Abs(Get(a, k) - Get(b, k))
  }

  function Overlap(a: Frequencies, b: Frequencies): Weight<int> {
    k => Least(Get(a, k), Get(b, k))
  }

  /** `_tv` */
  ghost function TV(a: Frequencies, b: Frequencies): real {
    0.5 * SumOver(Gap(a, b), a.Keys + b.Keys)
  }

  ghost predicate IsDistribution(a: Frequencies) {
    (forall k :: k in a ==> a[k] > 0.0) && SumOver(Share(a), a.Keys) == 1.0
  }

  // ---- the frequencies of a window are a distribution ----

  function Counts(values: seq<int>): Weight<int> {
    k => Count(values, k) as real
  }

  lemma {:induction false} CountsTotal(values: seq<int>, s: set<int>)
    requires forall v :: v in values ==> v in s
    ensures SumOver(Counts(values), s) == |values| as real
  {
    if values == [] {
      SumZeroIff(Counts(values), s);
    } else {
      var n := |values| - 1;
      var init, last := values[..n], values[n];
      assert values == init + [last];
      CountsTotal(init, s);
      SumRemove(Counts(values), s, last);
      SumRemove(Counts(init), s, last);
      forall k | k in s - {last} ensures Counts(values)(k) == Counts(init)(k) {
      }
      SumSame(Counts(values), Counts(init), s - {last});
    }
  }

  /** Dividing by the window length. */
  function Per(n: nat): real -> real
    requires n > 0
  {
    x => x / n as real
  }

  lemma PerIsAdditive(n: nat)
    requires n > 0
    ensures Additive(Per(n))
  {
    forall x, y ensures SplitsAt(Per(n), x, y) {
      DivideSum(x, y, n as real);
    }
  }

  lemma DivideSum(x: real, y: real, n: real)
    requires n > 0.0
    ensures (x + y) / n == x / n + y / n
  {
  }

  lemma DividePositive(x: real, n: real)
    requires x > 0.0 && n > 0.0
    ensures x / n > 0.0
  {
  }

  lemma DivideSelf(n: real)
    requires n > 0.0
    ensures n / n == 1.0
  {
  }

  lemma PositiveShares(values: seq<int>)
    requires values != []
    ensures var p := Probabilities(values);
            forall k :: k in p ==> Share(p)(k) == Per(|values|)(Counts(values)(k)) && p[k] > 0.0
  {
    var p := Probabilities(values);
    forall k | k in p ensures Share(p)(k) == Per(|values|)(Counts(values)(k)) && p[k] > 0.0 {
      assert k in multiset(values);
      DividePositive(Count(values, k) as real, |values| as real);
    }
  }

  lemma WindowIsDistribution(values: seq<int>)
    requires values != []
    ensures IsDistribution(Probabilities(values))
  {
    var p := Probabilities(values);
    CountsTotal(values, p.Keys);
    PerIsAdditive(|values|);
    PositiveShares(values);
    SumMaps(Counts(values), Share(p), Per(|values|), p.Keys);
    DivideSelf(|values| as real);
  }

  // ---- total variation is a distance ----

  /** The sum may be taken over any larger set of keys. */
  lemma GapOver(a: Frequencies, b: Frequencies, s: set<int>)
    requires a.Keys + b.Keys <= s
    ensures TV(a, b) == 0.5 * SumOver(Gap(a, b), s)
  {
    SumExtends(Gap(a, b), a.Keys + b.Keys, s);
  }

  lemma ShareOver(a: Frequencies, s: set<int>)
    requires IsDistribution(a) && a.Keys <= s
    ensures SumOver(Share(a), s) == 1.0
  {
    SumExtends(Share(a), a.Keys, s);
  }

  lemma Symmetric(a: Frequencies, b: Frequencies)
    ensures TV(a, b) == TV(b, a)
  {
    assert a.Keys + b.Keys == b.Keys + a.Keys;
    SumSame(Gap(a, b), Gap(b, a), a.Keys + b.Keys);
  }

  function TwoGaps(a: Frequencies, b: Frequencies, c: Frequencies): Weight<int> {
    k => Gap(a, b)(k) + Gap(b, c)(k)
  }

  lemma GapsAt(a: Frequencies, b: Frequencies, c: Frequencies, s: set<int>)
    ensures forall k :: k in s ==> Gap(a, c)(k) <= TwoGaps(a, b, c)(k)
    ensures forall k :: k in s ==> TwoGaps(a, b, c)(k) == Gap(a, b)(k) + Gap(b, c)(k)
  {
    forall k | k in s ensures Gap(a, c)(k) <= TwoGaps(a, b, c)(k) {
      AbsTriangle(Get(a, k), Get(b, k), Get(c, k));
      assert Gap(a, c)(k) == Abs(Get(a, k) - Get(c, k));
      assert Gap(a, b)(k) == Abs(Get(a, k) - Get(b, k));
      assert Gap(b, c)(k) == Abs(Get(b, k) - Get(c, k));
      assert TwoGaps(a, b, c)(k) == Gap(a, b)(k) + Gap(b, c)(k);
    }
  }

  lemma AbsTriangle(x: real, y: real, z: real)
    ensures Abs(x - z) <= Abs(x - y) + Abs(y - z)
  {
  }

  lemma Triangle(a: Frequencies, b: Frequencies, c: Frequencies)
    ensures TV(a, c) <= TV(a, b) + TV(b, c)
  {
    var s := a.Keys + b.Keys + c.Keys;
    GapOver(a, b, s);
    GapOver(b, c, s);
    GapOver(a, c, s);
    GapsAt(a, b, c, s);
    SumMonotone(Gap(a, c), TwoGaps(a, b, c), s);
    SumAdds(Gap(a, b), Gap(b, c), TwoGaps(a, b, c), s);
  }

  /** What two distributions do not share. */
  lemma TVIsMissingOverlap(a: Frequencies, b: Frequencies)
    requires IsDistribution(a) && IsDistribution(b)
    ensures TV(a, b) == 1.0 - SumOver(Overlap(a, b), a.Keys + b.Keys)
  {
    var s := a.Keys + b.Keys;
    ShareOver(a, s);
    ShareOver(b, s);
    SumAdds(Share(a), Share(b), BothShares(a, b), s);
    SumAdds(Overlap(a, b), Overlap(a, b), TwiceOverlap(a, b), s);
    SumAdds(Gap(a, b), TwiceOverlap(a, b), BothShares(a, b), s);
  }

  function BothShares(a: Frequencies, b: Frequencies): Weight<int> {
    k => Get(a, k) + Get(b, k)
  }

  function TwiceOverlap(a: Frequencies, b: Frequencies): Weight<int> {
    k => Overlap(a, b)(k) + Overlap(a, b)(k)
  }

  lemma OverlapNonNegative(a: Frequencies, b: Frequencies)
    requires IsDistribution(a) && IsDistribution(b)
    ensures forall k :: Overlap(a, b)(k) >= 0.0
  {
  }

  lemma Bounded(a: Frequencies, b: Frequencies)
    requires IsDistribution(a) && IsDistribution(b)
    ensures 0.0 <= TV(a, b) <= 1.0
  {
    TVIsMissingOverlap(a, b);
    OverlapNonNegative(a, b);
    SumZeroIff(Overlap(a, b), a.Keys + b.Keys);
    SumZeroIff(Gap(a, b), a.Keys + b.Keys);
  }

  /** Zero exactly for equal frequencies. */
  lemma ZeroIffEqual(a: Frequencies, b: Frequencies)
    requires IsDistribution(a) && IsDistribution(b)
    ensures TV(a, b) == 0.0 <==> a == b
  {
    var s := a.Keys + b.Keys;
    SumZeroIff(Gap(a, b), s);
    if TV(a, b) == 0.0 {
      forall k | k in s ensures k in a && k in b && a[k] == b[k] {
        assert Gap(a, b)(k) == 0.0;
      }
    }
  }

  /** One exactly for windows without a common key. */
  lemma OneIffDisjoint(a: Frequencies, b: Frequencies)
    requires IsDistribution(a) && IsDistribution(b)
    ensures TV(a, b) == 1.0 <==> a.Keys !! b.Keys
  {
    var s := a.Keys + b.Keys;
    TVIsMissingOverlap(a, b);
    OverlapNonNegative(a, b);
    SumZeroIff(Overlap(a, b), s);
    if TV(a, b) == 1.0 {
      forall k | k in s ensures !(k in a && k in b) {
        assert Overlap(a, b)(k) == 0.0;
      }
    }
  }

  // ---- what that says of two windows ----

  ghost function Distance(x: seq<int>, y: seq<int>): real
    requires x != [] && y != []
  {
    TV(Probabilities(x), Probabilities(y))
  }

  /** Equal relative frequencies, key by key, without dividing. */
  ghost predicate SameShares(x: seq<int>, y: seq<int>) {
    forall k {:trigger Count(x, k)} {:trigger Count(y, k)} :: Count(x, k) * |y| == Count(y, k) * |x|
  }

  lemma CancelPositive(x: real, y: real, z: real)
    requires z > 0.0
    ensures x * z == y * z <==> x == y
  {
    assert (x - y) * z == x * z - y * z;
  }

  lemma CrossMultiply(a: nat, m: nat, b: nat, n: nat)
    requires m > 0 && n > 0
    ensures a as real / m as real == b as real / n as real <==> a * n == b * m
  {
    var x, y := a as real / m as real, b as real / n as real;
    assert x * m as real == a as real && y * n as real == b as real;
    assert (a * n) as real == a as real * n as real && (b * m) as real == b as real * m as real;
    assert a as real * n as real == x * (m as real * n as real);
    assert b as real * m as real == y * (m as real * n as real);
    assert m as real * n as real > 0.0;
    CancelPositive(x, y, m as real * n as real);
  }

  lemma CountIn(values: seq<int>, k: int)
    ensures k in values <==> Count(values, k) > 0
  {
    assert k in values <==> k in multiset(values);
  }

  lemma SameProbabilities(x: seq<int>, y: seq<int>)
    requires x != [] && y != []
    ensures Probabilities(x) == Probabilities(y) <==> SameShares(x, y)
  {
    var p, q := Probabilities(x), Probabilities(y);
    forall k ensures Get(p, k) == Get(q, k) <==> Count(x, k) * |y| == Count(y, k) * |x| {
      CountIn(x, k);
      CountIn(y, k);
      CrossMultiply(Count(x, k), |x|, Count(y, k), |y|);
      assert Get(p, k) == Count(x, k) as real / |x| as real;
      assert Get(q, k) == Count(y, k) as real / |y| as real;
    }
    if SameShares(x, y) {
      forall k ensures k in p <==> k in q {
        CountIn(x, k);
        CountIn(y, k);
        SharesVanishTogether(x, y, k);
      }
      forall k | k in p ensures p[k] == q[k] {
        assert Get(p, k) == Get(q, k);
      }
    }
  }

  lemma SharesVanishTogether(x: seq<int>, y: seq<int>, k: int)
    requires x != [] && y != [] && Count(x, k) * |y| == Count(y, k) * |x|
    ensures Count(x, k) == 0 <==> Count(y, k) == 0
  {
  }

  /** Windows of a trace: the distance lies in [0, 1], is symmetric, is 0 exactly for equal
      relative frequencies and 1 exactly for disjoint key sets. */
  lemma WindowDistance(x: seq<int>, y: seq<int>)
    requires x != [] && y != []
    ensures 0.0 <= Distance(x, y) <= 1.0
    ensures Distance(x, y) == Distance(y, x)
    ensures Distance(x, y) == 0.0 <==> SameShares(x, y)
    ensures Distance(x, y) == 1.0 <==> forall k :: k in x ==> k !in y
  {
    var p, q := Probabilities(x), Probabilities(y);
    WindowIsDistribution(x);
    WindowIsDistribution(y);
    Bounded(p, q);
    Symmetric(p, q);
    ZeroIffEqual(p, q);
    OneIffDisjoint(p, q);
    SameProbabilities(x, y);
    assert p.Keys !! q.Keys <==> forall k :: k in x ==> k !in y by {
      assert forall k :: k in x <==> k in p.Keys;
      assert forall k :: k in y <==> k in q.Keys;
    }
  }

  // ---- the comparison ----

  datatype DriftReport = DriftReport(
    baselineSamples: nat,
    observedSamples: nat,
    baselineUnique: nat,
    observedUnique: nat,
    distance: real,
    threshold: real,
    drifted: bool)

  const SAMPLE_LIMIT := 1_000_000

  predicate AcceptsWindow(values: seq<int>) {
    2 <= |values| <= SAMPLE_LIMIT
  }

  /** The frequency table of a window. */
  method Frequency(values: seq<int>) returns (p: Frequencies)
    requires values != []
    ensures p == Probabilities(values)
  {
    var counts: map<int, int> := map[];
    var i := 0;
    while i < |values|
      invariant i <= |values|
      invariant forall k :: k in counts <==> k in values[..i]
      invariant forall k :: k in counts ==> counts[k] == Count(values[..i], k)
    {
      var v := values[i];
      assert values[..i + 1] == values[..i] + [v];
      CountIn(values[..i], v);
      counts := counts[v := (if v in counts then counts[v] else 0) + 1];
      i := i + 1;
    }
    assert values[..i] == values;
    p := map k | k in counts :: counts[k] as real / |values| as real;
    assert forall k :: k in p <==> k in values;
    assert p == Probabilities(values);
  }

  method TotalVariation(a: Frequencies, b: Frequencies) returns (d: real)
    ensures d == TV(a, b)
  {
    var todo := a.Keys + b.Keys;
    var sum := 0.0;
    var gap := Gap(a, b);
    ghost var total := SumOver(gap, todo);
    while todo != {}
      invariant sum + SumOver(gap, todo) == total
      decreases |todo|
    {
      var key :| key in todo;
      SumRemove(gap, todo, key);
      sum := sum + gap(key);
      todo := todo - {key};
    }
    return 0.5 * sum;
  }

  /** `compare_access_trace_windows`, up to the divergence and the top-key overlap. */
  method CompareWindows(baseline: seq<int>, observed: seq<int>, threshold: real) returns (res: Option<DriftReport>)
    ensures res.Some? <==> 0.0 <= threshold <= 1.0 && 2 <= |baseline| <= 1_000_000 && 2 <= |observed| <= 1_000_000
    ensures res.Some? ==>
              && res.value.distance == Distance(baseline, observed)
              && (res.value.drifted <==> Distance(baseline, observed) >= threshold)
              && res.value.baselineSamples == |baseline| && res.value.observedSamples == |observed|
              && res.value.baselineUnique == |Probabilities(baseline)| && res.value.observedUnique == |Probabilities(observed)|
  {
    if !(0.0 <= threshold <= 1.0) || !AcceptsWindow(baseline) || !AcceptsWindow(observed) {
      return None;
    }
    var p := Frequency(baseline);
    var q := Frequency(observed);
    var tv := TotalVariation(p, q);
    return Some(DriftReport(|baseline|, |observed|, |p|, |q|, tv, threshold, tv >= threshold));
  }
}
