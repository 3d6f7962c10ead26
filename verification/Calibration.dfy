/** Calibration evidence, the cost estimators that consume it, and the coverage audit that
    says in advance which of them will. */
module Calibration {
  import opened Wrappers
  import opened Text
  import opened Queries

  /** An operation label: `build`, the value of a query kind, or anything else. */
  datatype Operation = Build | Of(kind: QueryKind) | Unknown(name: Text)

  /** A resolved access distribution; its identity is all of its parameters. */
  datatype Distribution = Distribution(
    kind: AccessKind,
    theta: Option<real>,
    fraction: Option<real>,
    probability: Option<real>)

  datatype Measurement = Measurement(
    primitive: Text,
    operation: Operation,
    implementation: Option<Text>,
    distribution: Option<Distribution>,
    nsPerOp: real,
    repetitions: int,
    stdev: Option<real>)

  datatype Profile = Profile(id: Text, recordCount: int, measurements: seq<Measurement>)

  datatype Primitive = Primitive(implementation: Text, capabilities: set<QueryKind>, updateLatency: real)

  type Catalog = map<Text, Primitive>

  datatype Query = Query(kind: QueryKind, weight: real, distribution: Distribution)

  datatype Workload = Workload(recordCount: int, queries: seq<Query>)

  // ---- the strongest matching measurement ----

  /** What `measurement` is asked for. */
  datatype Request = Request(
    primitive: Text,
    operation: Operation,
    implementation: Option<Text>,
    distribution: Option<Distribution>,
    identityRequired: bool)

  predicate Matches(m: Measurement, q: Request) {
    && m.primitive == q.primitive && m.operation == q.operation
    && (q.implementation.Some? ==> m.implementation == q.implementation)
    && (q.identityRequired ==> m.distribution.Some? && m.distribution == q.distribution)
  }

  /** Sort key: more repetitions, then smaller deviation (none counts as infinite), then
      fewer nanoseconds. */
  predicate Before(a: Measurement, b: Measurement) {
    || a.repetitions > b.repetitions
    || (a.repetitions == b.repetitions && DeviationBelow(a.stdev, b.stdev))
    || (a.repetitions == b.repetitions && a.stdev == b.stdev && a.nsPerOp < b.nsPerOp)
  }

  predicate DeviationBelow(a: Option<real>, b: Option<real>) {
    a.Some? && (b.None? || a.value < b.value)
  }

  lemma BeforeTransitive(a: Measurement, b: Measurement, c: Measurement)
    ensures Before(a, b) && Before(b, c) ==> Before(a, c)
    ensures Before(a, b) && !Before(c, b) ==> Before(a, c)
    ensures !Before(a, b) && !Before(b, c) ==> !Before(a, c)
  {
  }

  function MatchesOf(ms: seq<Measurement>, q: Request): seq<Measurement> {
    if ms == [] then []
    else
      var last := ms[|ms| - 1];
      MatchesOf(ms[..|ms| - 1], q) + if Matches(last, q) then [last] else []
  }

  /** The first of the least. */
  function FirstLeast(ms: seq<Measurement>): (best: Measurement)
    requires ms != []
  {
    var last := ms[|ms| - 1];
    if |ms| == 1 then last
    else
      var best := FirstLeast(ms[..|ms| - 1]);
      if Before(last, best) then last else best
  }

  function Strongest(ms: seq<Measurement>, q: Request): Option<Measurement> {
    if MatchesOf(ms, q) == [] then None else Some(FirstLeast(MatchesOf(ms, q)))
  }

  lemma {:induction false} MatchesOfIff(ms: seq<Measurement>, q: Request, m: Measurement)
    ensures m in MatchesOf(ms, q) <==> m in ms && Matches(m, q)
  {
    if ms != [] {
      MatchesOfIff(ms[..|ms| - 1], q, m);
      assert ms == ms[..|ms| - 1] + [ms[|ms| - 1]];
    }
  }

  /** It is one of them, none comes before it, and those ahead of it in the list all come
      after it in the order. */
  lemma {:induction false} FirstLeastIs(ms: seq<Measurement>)
    requires ms != []
    ensures exists i :: 0 <= i < |ms| && IsFirstLeast(ms, i) && FirstLeast(ms) == ms[i]
  {
    var n := |ms| - 1;
    if n == 0 {
      assert IsFirstLeast(ms, 0);
    } else {
      FirstLeastIs(ms[..n]);
      var i :| 0 <= i < n && IsFirstLeast(ms[..n], i) && FirstLeast(ms[..n]) == ms[..n][i];
      if Before(ms[n], ms[i]) {
        LastTakesOver(ms, i);
      } else {
        FirstStays(ms, i);
      }
    }
  }

  lemma LastTakesOver(ms: seq<Measurement>, i: nat)
    requires i < |ms| - 1 && IsFirstLeast(ms[..|ms| - 1], i) && Before(ms[|ms| - 1], ms[i])
    ensures IsFirstLeast(ms, |ms| - 1)
  {
    var n := |ms| - 1;
    forall j | 0 <= j < n ensures Before(ms[n], ms[j]) && !Before(ms[j], ms[n]) {
      assert !Before(ms[..n][j], ms[..n][i]);
      BeforeTransitive(ms[n], ms[i], ms[j]);
      BeforeTransitive(ms[n], ms[j], ms[n]);
    }
    BeforeTransitive(ms[n], ms[n], ms[n]);
  }

  lemma FirstStays(ms: seq<Measurement>, i: nat)
    requires i < |ms| - 1 && IsFirstLeast(ms[..|ms| - 1], i) && !Before(ms[|ms| - 1], ms[i])
    ensures IsFirstLeast(ms, i)
  {
    var n := |ms| - 1;
    forall j | 0 <= j < |ms| ensures !Before(ms[j], ms[i]) && (j < i ==> Before(ms[i], ms[j])) {
      if j < n { assert ms[..n][j] == ms[j]; }
    }
  }

  ghost predicate IsFirstLeast(ms: seq<Measurement>, i: nat)
    requires i < |ms|
  {
    forall j :: 0 <= j < |ms| ==> !Before(ms[j], ms[i]) && (j < i ==> Before(ms[i], ms[j]))
  }

  lemma StrongestIffSome(ms: seq<Measurement>, q: Request)
    ensures Strongest(ms, q).Some? <==> exists m :: m in ms && Matches(m, q)
    ensures Strongest(ms, q).Some? ==>
              var best := Strongest(ms, q).value;
              && best in ms && Matches(best, q)
              && forall m :: m in ms && Matches(m, q) ==> !Before(m, best) && AtLeastAsStrong(best, m)
  {
    var found := MatchesOf(ms, q);
    forall m ensures m in found <==> m in ms && Matches(m, q) {
      MatchesOfIff(ms, q, m);
    }
    if found != [] {
      FirstLeastIs(found);
      var i :| 0 <= i < |found| && IsFirstLeast(found, i) && FirstLeast(found) == found[i];
      assert found[0] in found && found[i] in found;
    }
  }

  /** At least as often repeated; if as often, no greater deviation, no deviation counting
      as infinite; if that is equal too, no slower. */
  ghost predicate AtLeastAsStrong(best: Measurement, m: Measurement) {
    && best.repetitions >= m.repetitions
    && (best.repetitions == m.repetitions ==>
          && (best.stdev.None? ==> m.stdev.None?)
          && (best.stdev.Some? && m.stdev.Some? ==> best.stdev.value <= m.stdev.value)
          && (best.stdev == m.stdev ==> best.nsPerOp <= m.nsPerOp))
  }

  /** What the request asks for. */
  ghost predicate Answers(m: Measurement, q: Request) {
    && m.primitive == q.primitive
    && m.operation == q.operation
    && (q.implementation.Some? ==> m.implementation.Some? && m.implementation.value == q.implementation.value)
    && (q.identityRequired ==> m.distribution.Some? && q.distribution.Some? && m.distribution.value == q.distribution.value)
  }

  /** It is among the measurements and answers the request, and is at least as strong as any that does. */
  ghost predicate IsStrongest(best: Measurement, ms: seq<Measurement>, q: Request) {
    best in ms && Answers(best, q) && forall m :: m in ms && Answers(m, q) ==> AtLeastAsStrong(best, m)
  }

  lemma StrongestIs(ms: seq<Measurement>, q: Request)
    ensures Strongest(ms, q).None? <==> forall m :: m in ms ==> !Answers(m, q)
    ensures Strongest(ms, q).Some? ==> IsStrongest(Strongest(ms, q).value, ms, q)
  {
    StrongestIffSome(ms, q);
    assert forall m :: Answers(m, q) <==> Matches(m, q);
  }

  /** The registry of profiles, with at most one of them active. */
  class CalibrationRegistry {
    var profiles: map<Text, Profile>
    var activeId: Option<Text>

    constructor ()
      ensures profiles == map[] && activeId == None
    {
      profiles, activeId := map[], None;
    }

    method Register(profile: Profile)
      modifies this`profiles
      ensures profiles == old(profiles)[profile.id := profile]
    {
      profiles := profiles[profile.id := profile];
    }

    method Activate(id: Text) returns (res: Option<Profile>)
      modifies this`activeId
      ensures res.Some? <==> id in profiles
      ensures res.Some? ==> res.value == profiles[id] && activeId == Some(id)
      ensures res.None? ==> activeId == old(activeId)
    {
      if id !in profiles {
        return None;
      }
      activeId := Some(id);
      return Some(profiles[id]);
    }

    method Deactivate()
      modifies this`activeId
      ensures activeId == None
    {
      activeId := None;
    }

    function Active(): Option<Profile>
      reads this
    {
      if activeId.Some? && activeId.value in profiles then Some(profiles[activeId.value]) else None
    }

    /** `measurement`: collect the matches, sort them, take the first. */
    method FindMeasurement(profile: Option<Profile>, q: Request) returns (res: Option<Measurement>)
      ensures var selected := if profile.Some? then profile else Active();
              res == if selected.None? then None else Strongest(selected.value.measurements, q)
      ensures var selected := if profile.Some? then profile else Active();
              && (res.None? <==> selected.None? || forall m :: m in selected.value.measurements ==> !Answers(m, q))
              && (res.Some? ==> IsStrongest(res.value, selected.value.measurements, q))
    {
      if profile.Some? || Active().Some? {
        StrongestIs((if profile.Some? then profile else Active()).value.measurements, q);
      }
      var selected := if profile.Some? then profile else Active();
      if selected.None? {
        return None;
      }
      var items := selected.value.measurements;
      var matches := [];
      var i := 0;
      while i < |items|
        invariant i <= |items|
        invariant matches == MatchesOf(items[..i], q)
      {
        assert items[..i + 1][..i] == items[..i];
        if Matches(items[i], q) {
          matches := matches + [items[i]];
        }
        i := i + 1;
      }
      assert items[..i] == items;
      if matches == [] {
        return None;
      }
      var ordered := SortMatches(matches);
      return Some(ordered[0]);
    }
  }

  /** A stable sort by the key; what matters of it here is its first element. */
  method SortMatches(ms: seq<Measurement>) returns (out: seq<Measurement>)
    requires ms != []
    ensures multiset(out) == multiset(ms) && out != []
    ensures Ordered(out) && out[0] == FirstLeast(ms)
  {
    out := [ms[0]];
    assert ms[..1] == [ms[0]];
    var i := 1;
    while i < |ms|
      invariant 1 <= i <= |ms| && multiset(out) == multiset(ms[..i])
      invariant out != [] && out[0] == FirstLeast(ms[..i])
      invariant Ordered(out)
    {
      assert ms[..i + 1] == ms[..i] + [ms[i]];
      out := InsertMatch(out, ms[i]);
      i := i + 1;
    }
    assert ms[..i] == ms;
  }

  method InsertMatch(ms: seq<Measurement>, m: Measurement) returns (out: seq<Measurement>)
    requires ms != [] && Ordered(ms)
    ensures multiset(out) == multiset(ms) + multiset{m} && out != []
    ensures Ordered(out)
    ensures out[0] == if Before(m, ms[0]) then m else ms[0]
  {
    var at := |ms|;
    while at > 0 && Before(m, ms[at - 1])
      invariant 0 <= at <= |ms|
      invariant forall i :: at <= i < |ms| ==> Before(m, ms[i])
    {
      at := at - 1;
    }
    out := ms[..at] + [m] + ms[at..];
    assert ms == ms[..at] + ms[at..];
    InsertedOrdered(ms, m, at);
    if at > 0 { NoneEarlier(ms, m, at, 0); }
  }

  ghost predicate Ordered(ms: seq<Measurement>) {
    forall i, j :: 0 <= i < j < |ms| ==> !Before(ms[j], ms[i])
  }

  lemma NoneEarlier(ms: seq<Measurement>, m: Measurement, at: nat, i: nat)
    requires Ordered(ms) && i < at <= |ms| && !Before(m, ms[at - 1])
    ensures !Before(m, ms[i])
  {
    if i < at - 1 {
      assert !Before(ms[at - 1], ms[i]);
      BeforeTransitive(m, ms[at - 1], ms[i]);
    }
  }

  lemma InsertedOrdered(ms: seq<Measurement>, m: Measurement, at: nat)
    requires Ordered(ms) && at <= |ms| && (at > 0 ==> !Before(m, ms[at - 1]))
    requires forall i :: at <= i < |ms| ==> Before(m, ms[i])
    ensures Ordered(ms[..at] + [m] + ms[at..])
  {
    var out := ms[..at] + [m] + ms[at..];
    forall i, j | 0 <= i < j < |out| ensures !Before(out[j], out[i]) {
      if j == at {
        NoneEarlier(ms, m, at, i);
      } else if i == at {
        assert out[j] == ms[j - 1] && Before(m, ms[j - 1]);
        BeforeTransitive(m, ms[j - 1], m);
      } else {
        var x, y := if i < at then i else i - 1, if j < at then j else j - 1;
        assert out[i] == ms[x] && out[j] == ms[y];
      }
    }
  }

  // ---- the estimators ----

  /** Where an estimate comes from; the first two render as labels that start with
      `CALIBRATED:`. */
  datatype Source =
    | Calibrated(profile: Text, implementation: Text, recordCount: int, distribution: Distribution)
    | CalibratedMix(sources: set<Source>)
    | MixedMix(sources: set<Source>)
    | Bootstrap
    | BootstrapUnmodeled(distribution: Distribution)

  predicate IsCalibrated(s: Source) {
    s.Calibrated? || s.CalibratedMix?
  }

  datatype Estimate = Estimate(value: real, source: Source, uncertainty: real)

  function Clamp(x: real, low: real, high: real): real {
    if (if x < low then low else x) < high then (if x < low then low else x) else high
  }

  /** `_measurement_uncertainty` */
  function Uncertainty(m: Measurement, low: real, high: real): real {
    if m.stdev.Some? && m.nsPerOp > 0.0 then Clamp(m.stdev.value / m.nsPerOp * 2.0, low, high)
    else if low < 0.20 then 0.20 else low
  }

  /** What an estimator asks the registry for, under the current implementation. */
  function Asked(catalog: Catalog, name: Text, kind: QueryKind, d: Distribution): Request
    requires name in catalog
  {
    Request(name, Of(kind), Some(catalog[name].implementation), Some(d), true)
  }

  /** The anchor an estimator finds: only in a profile of exactly this scale. */
  function Anchor(catalog: Catalog, selected: Option<Profile>, recordCount: int, name: Text, kind: QueryKind, d: Distribution): Option<Measurement>
    requires name in catalog
  {
    if selected.None? || recordCount != selected.value.recordCount then None
    else Strongest(selected.value.measurements, Asked(catalog, name, kind, d))
  }

  /** `estimate_query_latency_us`; the bootstrap prior for the query is an input. */
  function EstimateQuery(catalog: Catalog, selected: Option<Profile>, spec: Workload, q: Query, name: Text, prior: real): Estimate
    requires name in catalog
  {
    var m := Anchor(catalog, selected, spec.recordCount, name, q.kind, q.distribution);
    if m.Some? then
      Estimate(m.value.nsPerOp / 1000.0,
               Calibrated(selected.value.id, catalog[name].implementation, selected.value.recordCount, q.distribution),
               Uncertainty(m.value, 0.08, 0.60))
    else if q.distribution.kind != Uniform then Estimate(prior, BootstrapUnmodeled(q.distribution), 0.80)
    else Estimate(prior, Bootstrap, 0.50)
  }

  /** `estimate_update_us` with its operation and distribution given. */
  function EstimateUpdate(catalog: Catalog, selected: Option<Profile>, recordCount: int, name: Text, d: Distribution, kind: QueryKind): Estimate
    requires name in catalog
  {
    var m := if IsMutation(kind) then Anchor(catalog, selected, recordCount, name, kind, d) else None;
    if m.Some? then
      Estimate(m.value.nsPerOp / 1000.0,
               Calibrated(selected.value.id, catalog[name].implementation, selected.value.recordCount, d),
               Uncertainty(m.value, 0.10, 0.65))
    else Estimate(catalog[name].updateLatency, Bootstrap, 0.55)
  }

  /** The estimate rests on this measurement: its time in microseconds, and as uncertainty
      twice its relative deviation kept between the bounds, or a fifth if it has none. */
  ghost predicate RestsOn(e: Estimate, m: Measurement, low: real, high: real) {
    && e.value * 1000.0 == m.nsPerOp
    && (m.stdev.None? || m.nsPerOp <= 0.0 ==> e.uncertainty == 0.20)
    && (m.stdev.Some? && m.nsPerOp > 0.0 ==>
          && low <= e.uncertainty <= high
          && var ratio := m.stdev.value / m.nsPerOp * 2.0;
             && (ratio <= low ==> e.uncertainty == low)
             && (ratio >= high ==> e.uncertainty == high)
             && (low <= ratio <= high ==> e.uncertainty == ratio))
  }

  /** A query estimate is calibrated exactly if a measurement at the profile's scale answers it,
      and then rests on the strongest; otherwise it is the prior, marked if the access is not uniform. */
  lemma QueryEstimateIs(catalog: Catalog, selected: Option<Profile>, spec: Workload, q: Query, name: Text, prior: real)
    requires name in catalog
    ensures var e := EstimateQuery(catalog, selected, spec, q, name, prior);
            var asked := Request(name, Of(q.kind), Some(catalog[name].implementation), Some(q.distribution), true);
            var answered := && selected.Some? && spec.recordCount == selected.value.recordCount
                            && exists m :: m in selected.value.measurements && Answers(m, asked);
            && (IsCalibrated(e.source) <==> answered)
            && (answered ==> exists m :: IsStrongest(m, selected.value.measurements, asked) && RestsOn(e, m, 0.08, 0.60))
            && (!answered ==> e == if q.distribution.kind.Uniform? then Estimate(prior, Bootstrap, 0.50)
                                   else Estimate(prior, BootstrapUnmodeled(q.distribution), 0.80))
  {
    if selected.Some? {
      StrongestIs(selected.value.measurements, Asked(catalog, name, q.kind, q.distribution));
    }
  }

  /** The same for one mutation. */
  lemma UpdateEstimateIs(catalog: Catalog, selected: Option<Profile>, recordCount: int, name: Text, d: Distribution, kind: QueryKind)
    requires name in catalog
    ensures var e := EstimateUpdate(catalog, selected, recordCount, name, d, kind);
            var asked := Request(name, Of(kind), Some(catalog[name].implementation), Some(d), true);
            var answered := && (kind.InsertOp? || kind.UpdateOp? || kind.DeleteOp?)
                            && selected.Some? && recordCount == selected.value.recordCount
                            && exists m :: m in selected.value.measurements && Answers(m, asked);
            && (IsCalibrated(e.source) <==> answered)
            && (answered ==> exists m :: IsStrongest(m, selected.value.measurements, asked) && RestsOn(e, m, 0.10, 0.65))
            && (!answered ==> e == Estimate(catalog[name].updateLatency, Bootstrap, 0.55))
  {
    if selected.Some? {
      StrongestIs(selected.value.measurements, Asked(catalog, name, kind, d));
    }
  }

  // ---- the mutation mix ----

  function Mutations(queries: seq<Query>): (ms: seq<Query>)
    ensures forall q :: q in ms ==> IsMutation(q.kind)
  {
    if queries == [] then []
    else
      var last := queries[|queries| - 1];
      Mutations(queries[..|queries| - 1]) + if IsMutation(last.kind) then [last] else []
  }

  lemma {:induction false} MutationsIff(queries: seq<Query>, q: Query)
    ensures q in Mutations(queries) <==> q in queries && IsMutation(q.kind)
  {
    if queries != [] {
      MutationsIff(queries[..|queries| - 1], q);
      assert queries == queries[..|queries| - 1] + [queries[|queries| - 1]];
    }
  }

  function Weights(qs: seq<Query>): (ws: seq<real>)
    ensures |ws| == |qs| && forall i :: 0 <= i < |qs| ==> ws[i] == qs[i].weight
  {
    seq(|qs|, i requires 0 <= i < |qs| => qs[i].weight)
  }

  function Total(ws: seq<real>): real {
    if ws == [] then 0.0 else Total(ws[..|ws| - 1]) + ws[|ws| - 1]
  }

  function Products(ws: seq<real>, vs: seq<real>): (ps: seq<real>)
    requires |ws| == |vs|
    ensures |ps| == |ws| && forall i :: 0 <= i < |ws| ==> ps[i] == ws[i] * vs[i]
  {
    seq(|ws|, i requires 0 <= i < |ws| => ws[i] * vs[i])
  }

  function Weighted(ws: seq<real>, vs: seq<real>): real
    requires |ws| == |vs|
  {
    Total(Products(ws, vs))
  }

  const TINY: real := 0.000000000001

  /** The weighted mean, its divisor kept away from zero. */
  function MixValue(ws: seq<real>, vs: seq<real>): real
    requires |ws| == |vs|
  {
    Weighted(ws, vs) / (if Total(ws) < TINY then TINY else Total(ws))
  }

  function UpdateEstimates(catalog: Catalog, selected: Option<Profile>, spec: Workload, name: Text): (es: seq<Estimate>)
    requires name in catalog
    ensures |es| == |Mutations(spec.queries)|
    ensures forall i :: 0 <= i < |es| ==>
              var q := Mutations(spec.queries)[i];
              es[i] == EstimateUpdate(catalog, selected, spec.recordCount, name, q.distribution, q.kind)
  {
    var qs := Mutations(spec.queries);
    seq(|qs|, i requires 0 <= i < |qs| =>
                EstimateUpdate(catalog, selected, spec.recordCount, name, qs[i].distribution, qs[i].kind))
  }

  function SourcesOf(es: seq<Estimate>): set<Source> {
    set i | 0 <= i < |es| :: es[i].source
  }

  function Values(es: seq<Estimate>): (vs: seq<real>)
    ensures |vs| == |es| && forall i :: 0 <= i < |es| ==> vs[i] == es[i].value
  {
    seq(|es|, i requires 0 <= i < |es| => es[i].value)
  }

  function Largest(es: seq<Estimate>): real
    requires es != []
  {
    var last := es[|es| - 1].uncertainty;
    if |es| == 1 then last
    else
      var best := Largest(es[..|es| - 1]);
      if last > best then last else best
  }

  /** `estimate_update_mix_us` */
  function EstimateMix(catalog: Catalog, selected: Option<Profile>, spec: Workload, name: Text): Estimate
    requires name in catalog
  {
    var es := UpdateEstimates(catalog, selected, spec, name);
    if es == [] then Estimate(catalog[name].updateLatency, Bootstrap, 0.55)
    else
      var sources := SourcesOf(es);
      Estimate(MixValue(Weights(Mutations(spec.queries)), Values(es)),
               if forall s :: s in sources ==> IsCalibrated(s) then CalibratedMix(sources)
               else if exists s :: s in sources && IsCalibrated(s) then MixedMix(sources)
               else Bootstrap,
               Largest(es))
  }

  // ---- the coverage audit ----

  datatype Status = Matched | ScaleMismatch | DistributionMismatch | StaleOnly | Missing

  datatype Cell = Cell(
    index: nat,
    primitive: Text,
    implementation: Text,
    operation: QueryKind,
    distribution: Distribution,
    status: Status,
    exact: nat,
    implementationMatches: nat,
    stale: nat)

  function Csr(): Text {
    Lit("csr_graph")
  }

  /** Which primitives a query is checked against. */
  predicate Applies(catalog: Catalog, q: Query, name: Text) {
    name in catalog && if IsMutation(q.kind) then name != Csr() else q.kind in catalog[name].capabilities
  }

  /** A list comprehension with a filter. */
  function Keep(ms: seq<Measurement>, test: Measurement -> bool): seq<Measurement> {
    if ms == [] then []
    else
      var last := ms[|ms| - 1];
      Keep(ms[..|ms| - 1], test) + if test(last) then [last] else []
  }

  lemma {:induction false} KeepIff(ms: seq<Measurement>, test: Measurement -> bool, m: Measurement)
    ensures m in Keep(ms, test) <==> m in ms && test(m)
  {
    if ms != [] {
      KeepIff(ms[..|ms| - 1], test, m);
      assert ms == ms[..|ms| - 1] + [ms[|ms| - 1]];
    }
  }

  type Test = Measurement -> bool

  function OfOperation(name: Text, kind: QueryKind): Test {
    (m: Measurement) => m.primitive == name && m.operation == Of(kind)
  }

  function Under(implementation: Text): Test {
    (m: Measurement) => m.implementation == Some(implementation)
  }

  function NotUnder(implementation: Text): Test {
    (m: Measurement) => m.implementation != Some(implementation)
  }

  function Showing(d: Distribution): Test {
    (m: Measurement) => m.distribution == Some(d)
  }

  function SameOperation(ms: seq<Measurement>, name: Text, kind: QueryKind): seq<Measurement> {
    Keep(ms, OfOperation(name, kind))
  }

  function CurrentImplementation(ms: seq<Measurement>, name: Text, kind: QueryKind, implementation: Text): seq<Measurement> {
    Keep(SameOperation(ms, name, kind), Under(implementation))
  }

  function ExactMatches(ms: seq<Measurement>, name: Text, kind: QueryKind, implementation: Text, d: Distribution): seq<Measurement> {
    Keep(CurrentImplementation(ms, name, kind, implementation), Showing(d))
  }

  /** Measured under some other implementation, or under none that is named. */
  function StaleMatches(ms: seq<Measurement>, name: Text, kind: QueryKind, implementation: Text): seq<Measurement> {
    Keep(SameOperation(ms, name, kind), NotUnder(implementation))
  }

  /** The cell of one query and one primitive. */
  function CellOf(catalog: Catalog, profile: Profile, spec: Workload, index: nat, name: Text): Cell
    requires index < |spec.queries| && name in catalog
  {
    var q := spec.queries[index];
    var implementation := catalog[name].implementation;
    var current := CurrentImplementation(profile.measurements, name, q.kind, implementation);
    var exact := ExactMatches(profile.measurements, name, q.kind, implementation, q.distribution);
    var stale := StaleMatches(profile.measurements, name, q.kind, implementation);
    Cell(index, name, implementation, q.kind, q.distribution,
         if exact != [] && spec.recordCount == profile.recordCount then Matched
         else if exact != [] then ScaleMismatch
         else if current != [] then DistributionMismatch
         else if stale != [] then StaleOnly
         else Missing,
         |exact|, |current|, |stale|)
  }

  // ---- what each status says ----

  /** Some measurement is of this operation of this primitive. */
  ghost predicate Measured(ms: seq<Measurement>, name: Text, kind: QueryKind) {
    exists m :: m in ms && m.primitive == name && m.operation == Of(kind)
  }

  /** Some such measurement was taken under this implementation. */
  ghost predicate MeasuredUnder(ms: seq<Measurement>, name: Text, kind: QueryKind, implementation: Text) {
    exists m :: m in ms && m.primitive == name && m.operation == Of(kind) && m.implementation == Some(implementation)
  }

  /** And with this access distribution. */
  ghost predicate MeasuredWith(ms: seq<Measurement>, name: Text, kind: QueryKind, implementation: Text, d: Distribution) {
    exists m ::
      && m in ms && m.primitive == name && m.operation == Of(kind)
      && m.implementation == Some(implementation) && m.distribution == Some(d)
  }

  /** Status and particulars of a cell, by the measurements that exist. */
  ghost predicate Fits(c: Cell, catalog: Catalog, profile: Profile, spec: Workload) {
    && c.index < |spec.queries| && c.primitive in catalog
    && var q, ms := spec.queries[c.index], profile.measurements;
    var scale, here := spec.recordCount == profile.recordCount, catalog[c.primitive].implementation;
    && c.implementation == here && c.operation == q.kind && c.distribution == q.distribution
    && (c.status == Matched <==> MeasuredWith(ms, c.primitive, q.kind, here, q.distribution) && scale)
    && (c.status == ScaleMismatch <==> MeasuredWith(ms, c.primitive, q.kind, here, q.distribution) && !scale)
    && (c.status == DistributionMismatch <==>
          !MeasuredWith(ms, c.primitive, q.kind, here, q.distribution) && MeasuredUnder(ms, c.primitive, q.kind, here))
    && (c.status == StaleOnly <==> !MeasuredUnder(ms, c.primitive, q.kind, here) && Measured(ms, c.primitive, q.kind))
    && (c.status == Missing <==> !Measured(ms, c.primitive, q.kind))
  }

  /** Where the measurements of this operation under this implementation are. */
  ghost function Currents(ms: seq<Measurement>, name: Text, kind: QueryKind, here: Text): set<int> {
    set i | 0 <= i < |ms| && ms[i].primitive == name && ms[i].operation == Of(kind) && ms[i].implementation == Some(here)
  }

  /** Those of them with this access distribution. */
  ghost function Exacts(ms: seq<Measurement>, name: Text, kind: QueryKind, here: Text, d: Distribution): set<int> {
    set i | 0 <= i < |ms| && ms[i].primitive == name && ms[i].operation == Of(kind) && ms[i].implementation == Some(here)
            && ms[i].distribution == Some(d)
  }

  /** Where those of this operation under another implementation, or none named, are. */
  ghost function Stales(ms: seq<Measurement>, name: Text, kind: QueryKind, here: Text): set<int> {
    set i | 0 <= i < |ms| && ms[i].primitive == name && ms[i].operation == Of(kind) && ms[i].implementation != Some(here)
  }

  /** How many measurements a cell counts: exact ones, those under its implementation, and stale ones. */
  ghost predicate Counts(c: Cell, ms: seq<Measurement>) {
    && c.exact == |Exacts(ms, c.primitive, c.operation, c.implementation, c.distribution)|
    && c.implementationMatches == |Currents(ms, c.primitive, c.operation, c.implementation)|
    && c.stale == |Stales(ms, c.primitive, c.operation, c.implementation)|
  }

  function Both(a: Test, b: Test): Test {
    (m: Measurement) => a(m) && b(m)
  }

  lemma {:induction false} KeepTwice(ms: seq<Measurement>, a: Test, b: Test)
    ensures Keep(Keep(ms, a), b) == Keep(ms, Both(a, b))
  {
    if ms != [] {
      var init, last := ms[..|ms| - 1], ms[|ms| - 1];
      KeepTwice(init, a, b);
      if a(last) {
        assert (Keep(init, a) + [last])[..|Keep(init, a)|] == Keep(init, a);
      } else {
        assert Keep(ms, a) == Keep(init, a);
      }
    }
  }

  ghost function Hits(ms: seq<Measurement>, test: Test): set<int> {
    set i | 0 <= i < |ms| && test(ms[i])
  }

  lemma {:induction false} KeepCount(ms: seq<Measurement>, test: Test)
    ensures |Keep(ms, test)| == |Hits(ms, test)|
  {
    if ms != [] {
      var n := |ms| - 1;
      KeepCount(ms[..n], test);
      HitsGrow(ms, test);
    }
  }

  lemma HitsGrow(ms: seq<Measurement>, test: Test)
    requires ms != []
    ensures var n := |ms| - 1; |Hits(ms, test)| == |Hits(ms[..n], test)| + if test(ms[n]) then 1 else 0
  {
    var n := |ms| - 1;
    assert Hits(ms, test) == Hits(ms[..n], test) + if test(ms[n]) then {n} else {};
  }

  lemma CurrentCount(ms: seq<Measurement>, name: Text, kind: QueryKind, here: Text)
    ensures |CurrentImplementation(ms, name, kind, here)| == |Currents(ms, name, kind, here)|
  {
    var test := Both(OfOperation(name, kind), Under(here));
    KeepTwice(ms, OfOperation(name, kind), Under(here));
    KeepCount(ms, test);
    assert Hits(ms, test) == Currents(ms, name, kind, here);
  }

  lemma StaleCount(ms: seq<Measurement>, name: Text, kind: QueryKind, here: Text)
    ensures |StaleMatches(ms, name, kind, here)| == |Stales(ms, name, kind, here)|
  {
    var test := Both(OfOperation(name, kind), NotUnder(here));
    KeepTwice(ms, OfOperation(name, kind), NotUnder(here));
    KeepCount(ms, test);
    assert Hits(ms, test) == Stales(ms, name, kind, here);
  }

  lemma ExactCount(ms: seq<Measurement>, name: Text, kind: QueryKind, here: Text, d: Distribution)
    ensures |ExactMatches(ms, name, kind, here, d)| == |Exacts(ms, name, kind, here, d)|
  {
    var test := Both(Both(OfOperation(name, kind), Under(here)), Showing(d));
    KeepTwice(ms, OfOperation(name, kind), Under(here));
    KeepTwice(ms, Both(OfOperation(name, kind), Under(here)), Showing(d));
    KeepCount(ms, test);
    assert Hits(ms, test) == Exacts(ms, name, kind, here, d);
  }

  lemma CellCounts(catalog: Catalog, profile: Profile, spec: Workload, index: nat, name: Text)
    requires index < |spec.queries| && name in catalog
    ensures Counts(CellOf(catalog, profile, spec, index, name), profile.measurements)
  {
    var q, here, ms := spec.queries[index], catalog[name].implementation, profile.measurements;
    CurrentCount(ms, name, q.kind, here);
    StaleCount(ms, name, q.kind, here);
    ExactCount(ms, name, q.kind, here, q.distribution);
  }

  lemma KeepSome(ms: seq<Measurement>, test: Measurement -> bool)
    ensures Keep(ms, test) != [] <==> exists m :: m in ms && test(m)
  {
    var kept := Keep(ms, test);
    if kept != [] {
      KeepIff(ms, test, kept[0]);
      assert kept[0] in ms && test(kept[0]);
    }
    if m: Measurement :| m in ms && test(m) {
      KeepIff(ms, test, m);
    }
  }

  lemma SameOperationIff(ms: seq<Measurement>, name: Text, kind: QueryKind)
    ensures forall m :: m in SameOperation(ms, name, kind) <==> m in ms && m.primitive == name && m.operation == Of(kind)
  {
    forall m ensures m in SameOperation(ms, name, kind) <==> m in ms && m.primitive == name && m.operation == Of(kind) {
      KeepIff(ms, OfOperation(name, kind), m);
    }
  }

  lemma CurrentIff(ms: seq<Measurement>, name: Text, kind: QueryKind, implementation: Text)
    ensures CurrentImplementation(ms, name, kind, implementation) != [] <==> MeasuredUnder(ms, name, kind, implementation)
    ensures StaleMatches(ms, name, kind, implementation) != [] || MeasuredUnder(ms, name, kind, implementation) <==>
            Measured(ms, name, kind)
  {
    var same := SameOperation(ms, name, kind);
    SameOperationIff(ms, name, kind);
    KeepSome(same, Under(implementation));
    KeepSome(same, NotUnder(implementation));
    if m: Measurement :| m in same && NotUnder(implementation)(m) {
      assert m in ms && m.primitive == name && m.operation == Of(kind);
    }
    if MeasuredUnder(ms, name, kind, implementation) {
      var m :| m in ms && m.primitive == name && m.operation == Of(kind) && m.implementation == Some(implementation);
      assert m in same && Under(implementation)(m);
    }
    if Measured(ms, name, kind) {
      var m :| m in ms && m.primitive == name && m.operation == Of(kind);
      assert m in same && (Under(implementation)(m) || NotUnder(implementation)(m));
    }
  }

  lemma ExactSome(ms: seq<Measurement>, name: Text, kind: QueryKind, implementation: Text, d: Distribution)
    ensures ExactMatches(ms, name, kind, implementation, d) != [] <==> MeasuredWith(ms, name, kind, implementation, d)
  {
    var exact := ExactMatches(ms, name, kind, implementation, d);
    if exact != [] {
      ExactIff(ms, name, kind, implementation, d, exact[0]);
      assert exact[0] in exact;
    }
    if MeasuredWith(ms, name, kind, implementation, d) {
      var m :| && m in ms && m.primitive == name && m.operation == Of(kind)
               && m.implementation == Some(implementation) && m.distribution == Some(d);
      ExactIff(ms, name, kind, implementation, d, m);
    }
  }

  lemma CellFits(catalog: Catalog, profile: Profile, spec: Workload, index: nat, name: Text)
    requires index < |spec.queries| && name in catalog
    ensures var c := CellOf(catalog, profile, spec, index, name);
            c.index == index && c.primitive == name && Fits(c, catalog, profile, spec)
  {
    var q, here := spec.queries[index], catalog[name].implementation;
    ExactSome(profile.measurements, name, q.kind, here, q.distribution);
    CurrentIff(profile.measurements, name, q.kind, here);
  }

  /** The cells of one query, for the names in their order. */
  function CellsOf(catalog: Catalog, profile: Profile, spec: Workload, index: nat, names: seq<Text>): seq<Cell>
    requires index < |spec.queries|
  {
    if names == [] then []
    else
      var last := names[|names| - 1];
      CellsOf(catalog, profile, spec, index, names[..|names| - 1]) +
      if Applies(catalog, spec.queries[index], last) then [CellOf(catalog, profile, spec, index, last)] else []
  }

  /** The cells of the first `n` queries. */
  function CellsUpTo(catalog: Catalog, profile: Profile, spec: Workload, names: seq<Text>, n: nat): seq<Cell>
    requires n <= |spec.queries|
  {
    if n == 0 then []
    else CellsUpTo(catalog, profile, spec, names, n - 1) + CellsOf(catalog, profile, spec, n - 1, names)
  }

  function CountStatus(cells: seq<Cell>, status: Status): nat {
    if cells == [] then 0
    else CountStatus(cells[..|cells| - 1], status) + if cells[|cells| - 1].status == status then 1 else 0
  }

  datatype Coverage = Coverage(
    scaleMatches: bool,
    required: nat,
    matched: nat,
    distributionMismatch: nat,
    scaleMismatch: nat,
    staleOnly: nat,
    missing: nat,
    ratio: real,
    cells: seq<Cell>)

  /** `audit_workload_distribution_coverage`; None stands for unknown primitive names. */
  method Audit(catalog: Catalog, profile: Profile, spec: Workload, requested: Option<set<Text>>) returns (res: Option<Coverage>)
    ensures var names := if requested.Some? then requested.value else catalog.Keys;
            && (res.Some? <==> names <= catalog.Keys)
            && (res.Some? ==>
                  var cells := CellsUpTo(catalog, profile, spec, SortedIds(names), |spec.queries|);
                  res.value == Coverage(spec.recordCount == profile.recordCount, |cells|,
                                        CountStatus(cells, Matched), CountStatus(cells, DistributionMismatch),
                                        CountStatus(cells, ScaleMismatch), CountStatus(cells, StaleOnly), CountStatus(cells, Missing),
                                        if cells == [] then 1.0 else CountStatus(cells, Matched) as real / |cells| as real, cells))
    ensures res.Some? ==> Covers(res.value.cells, catalog, profile, spec, if requested.Some? then requested.value else catalog.Keys)
  {
    var wanted := if requested.Some? then requested.value else catalog.Keys;
    if !(wanted <= catalog.Keys) {
      return None;
    }
    var names := SortIds(wanted);
    var cells := [];
    var index := 0;
    while index < |spec.queries|
      invariant index <= |spec.queries|
      invariant cells == CellsUpTo(catalog, profile, spec, names, index)
    {
      var row := AuditQuery(catalog, profile, spec, index, names);
      cells := cells + row;
      index := index + 1;
    }
    var matched := CountStatus(cells, Matched);
    CellsCover(catalog, profile, spec, wanted, names);
    return Some(Coverage(spec.recordCount == profile.recordCount, |cells|, matched,
                         CountStatus(cells, DistributionMismatch), CountStatus(cells, ScaleMismatch),
                         CountStatus(cells, StaleOnly), CountStatus(cells, Missing),
                         if cells == [] then 1.0 else matched as real / |cells| as real, cells));
  }

  /** The query concerns the primitive: a mutation concerns all but the graph, a read those that offer it. */
  ghost predicate Concerns(catalog: Catalog, q: Query, name: Text) {
    && name in catalog
    && (q.kind.InsertOp? || q.kind.UpdateOp? || q.kind.DeleteOp? ==> name != Lit("csr_graph"))
    && (!q.kind.InsertOp? && !q.kind.UpdateOp? && !q.kind.DeleteOp? ==> q.kind in catalog[name].capabilities)
  }

  /** The cells stand in the order of queries and, for one query, of names: one for each
      name a query concerns, each as the measurements that exist decide. */
  ghost predicate Covers(cells: seq<Cell>, catalog: Catalog, profile: Profile, spec: Workload, names: set<Text>) {
    && InCellOrder(cells)
    && (forall c :: c in cells ==> Fits(c, catalog, profile, spec) && Counts(c, profile.measurements))
    && (forall index, name :: HasCell(cells, index, name) <==>
          0 <= index < |spec.queries| && name in names && Concerns(catalog, spec.queries[index], name))
  }

  ghost predicate HasCell(cells: seq<Cell>, index: int, name: Text) {
    exists c :: c in cells && c.index == index && c.primitive == name
  }

  ghost predicate InCellOrder(cells: seq<Cell>) {
    forall i, j :: 0 <= i < j < |cells| ==>
      cells[i].index < cells[j].index || (cells[i].index == cells[j].index && Less(cells[i].primitive, cells[j].primitive))
  }

  lemma {:induction false} RowInOrder(catalog: Catalog, profile: Profile, spec: Workload, index: nat, names: seq<Text>)
    requires index < |spec.queries| && Sorted(names)
    ensures InCellOrder(CellsOf(catalog, profile, spec, index, names))
    ensures forall c :: c in CellsOf(catalog, profile, spec, index, names) ==> c.index == index && c.primitive in names
  {
    if names != [] {
      var init, last := names[..|names| - 1], names[|names| - 1];
      RowInOrder(catalog, profile, spec, index, init);
      assert forall name :: name in init ==> Less(name, last);
    }
  }

  lemma {:induction false} CellsInOrder(catalog: Catalog, profile: Profile, spec: Workload, names: seq<Text>, n: nat)
    requires n <= |spec.queries| && Sorted(names)
    ensures InCellOrder(CellsUpTo(catalog, profile, spec, names, n))
    ensures forall c :: c in CellsUpTo(catalog, profile, spec, names, n) ==> c.index < n
  {
    if n > 0 {
      var before, row := CellsUpTo(catalog, profile, spec, names, n - 1), CellsOf(catalog, profile, spec, n - 1, names);
      CellsInOrder(catalog, profile, spec, names, n - 1);
      RowInOrder(catalog, profile, spec, n - 1, names);
      RowsInOrder(before, row, n - 1);
      assert CellsUpTo(catalog, profile, spec, names, n) == before + row;
    }
  }

  lemma RowsInOrder(before: seq<Cell>, row: seq<Cell>, n: nat)
    requires InCellOrder(before) && InCellOrder(row)
    requires (forall c :: c in before ==> c.index < n) && (forall c :: c in row ==> c.index == n)
    ensures InCellOrder(before + row) && forall c :: c in before + row ==> c.index < n + 1
  {
    var cells := before + row;
    forall i, j | 0 <= i < j < |cells|
      ensures cells[i].index < cells[j].index || (cells[i].index == cells[j].index && Less(cells[i].primitive, cells[j].primitive))
    {
      if i < |before| <= j { assert before[i] in before && row[j - |before|] in row; }
    }
  }

  lemma CellIs(catalog: Catalog, profile: Profile, spec: Workload, names: seq<Text>, c: Cell)
    ensures c in CellsUpTo(catalog, profile, spec, names, |spec.queries|) <==>
            && 0 <= c.index < |spec.queries| && c.primitive in names && Applies(catalog, spec.queries[c.index], c.primitive)
            && c == CellOf(catalog, profile, spec, c.index, c.primitive)
  {
    var n := |spec.queries|;
    InCellsUpTo(catalog, profile, spec, names, n, c);
    if c in CellsUpTo(catalog, profile, spec, names, n) {
      var i :| 0 <= i < n && c in CellsOf(catalog, profile, spec, i, names);
      InCellsOf(catalog, profile, spec, i, names, c);
    }
    if 0 <= c.index < n { InCellsOf(catalog, profile, spec, c.index, names, c); }
  }

  lemma ConcernsIff(catalog: Catalog, q: Query, name: Text)
    ensures Applies(catalog, q, name) <==> Concerns(catalog, q, name)
  {
  }

  lemma HasCellIff(catalog: Catalog, profile: Profile, spec: Workload, names: seq<Text>, index: int, name: Text)
    ensures HasCell(CellsUpTo(catalog, profile, spec, names, |spec.queries|), index, name) <==>
            0 <= index < |spec.queries| && name in names && Concerns(catalog, spec.queries[index], name)
  {
    var cells := CellsUpTo(catalog, profile, spec, names, |spec.queries|);
    if HasCell(cells, index, name) {
      var c :| c in cells && c.index == index && c.primitive == name;
      CellIs(catalog, profile, spec, names, c);
      ConcernsIff(catalog, spec.queries[index], name);
    }
    if 0 <= index < |spec.queries| && name in names && Concerns(catalog, spec.queries[index], name) {
      ConcernsIff(catalog, spec.queries[index], name);
      CellIs(catalog, profile, spec, names, CellOf(catalog, profile, spec, index, name));
    }
  }

  lemma CellsCover(catalog: Catalog, profile: Profile, spec: Workload, wanted: set<Text>, names: seq<Text>)
    requires names == SortedIds(wanted)
    ensures Covers(CellsUpTo(catalog, profile, spec, names, |spec.queries|), catalog, profile, spec, wanted)
  {
    var cells := CellsUpTo(catalog, profile, spec, names, |spec.queries|);
    CellsInOrder(catalog, profile, spec, names, |spec.queries|);
    forall c | c in cells ensures Fits(c, catalog, profile, spec) && Counts(c, profile.measurements) {
      CellIs(catalog, profile, spec, names, c);
      CellFits(catalog, profile, spec, c.index, c.primitive);
      CellCounts(catalog, profile, spec, c.index, c.primitive);
    }
    forall index, name ensures HasCell(cells, index, name) <==>
                               0 <= index < |spec.queries| && name in wanted && Concerns(catalog, spec.queries[index], name)
    {
      HasCellIff(catalog, profile, spec, names, index, name);
    }
  }

  /** The inner loop. */
  method AuditQuery(catalog: Catalog, profile: Profile, spec: Workload, index: nat, names: seq<Text>) returns (row: seq<Cell>)
    requires index < |spec.queries|
    ensures row == CellsOf(catalog, profile, spec, index, names)
  {
    row := [];
    var i := 0;
    while i < |names|
      invariant i <= |names|
      invariant row == CellsOf(catalog, profile, spec, index, names[..i])
    {
      assert names[..i + 1][..i] == names[..i];
      if Applies(catalog, spec.queries[index], names[i]) {
        row := row + [CellOf(catalog, profile, spec, index, names[i])];
      }
      i := i + 1;
    }
    assert names[..i] == names;
  }

  /** The five statuses partition the cells. */
  lemma {:induction false} CountsPartition(cells: seq<Cell>)
    ensures CountStatus(cells, Matched) + CountStatus(cells, ScaleMismatch) + CountStatus(cells, DistributionMismatch)
            + CountStatus(cells, StaleOnly) + CountStatus(cells, Missing) == |cells|
  {
    if cells != [] {
      CountsPartition(cells[..|cells| - 1]);
    }
  }

  lemma {:induction false} KeepSplits(ms: seq<Measurement>, test: Measurement -> bool, other: Measurement -> bool)
    requires forall m: Measurement :: test(m) <==> !other(m)
    ensures |Keep(ms, test)| + |Keep(ms, other)| == |ms|
  {
    if ms != [] {
      KeepSplits(ms[..|ms| - 1], test, other);
    }
  }

  /** Current and stale measurements partition those of the operation. */
  lemma StalePartition(ms: seq<Measurement>, name: Text, kind: QueryKind, implementation: Text)
    ensures |SameOperation(ms, name, kind)| ==
            |CurrentImplementation(ms, name, kind, implementation)| + |StaleMatches(ms, name, kind, implementation)|
  {
    KeepSplits(SameOperation(ms, name, kind), Under(implementation), NotUnder(implementation));
  }

  lemma {:induction false} InCellsOf(catalog: Catalog, profile: Profile, spec: Workload, index: nat, names: seq<Text>, c: Cell)
    requires index < |spec.queries|
    ensures c in CellsOf(catalog, profile, spec, index, names) <==>
            exists name :: name in names && Applies(catalog, spec.queries[index], name)
                           && c == CellOf(catalog, profile, spec, index, name)
  {
    if names != [] {
      InCellsOf(catalog, profile, spec, index, names[..|names| - 1], c);
      assert names == names[..|names| - 1] + [names[|names| - 1]];
    }
  }

  lemma {:induction false} InCellsUpTo(catalog: Catalog, profile: Profile, spec: Workload, names: seq<Text>, n: nat, c: Cell)
    requires n <= |spec.queries|
    ensures c in CellsUpTo(catalog, profile, spec, names, n) <==>
            exists i :: 0 <= i < n && c in CellsOf(catalog, profile, spec, i, names)
  {
    if n > 0 {
      InCellsUpTo(catalog, profile, spec, names, n - 1, c);
      if c in CellsOf(catalog, profile, spec, n - 1, names) {
        assert exists i :: 0 <= i < n && c in CellsOf(catalog, profile, spec, i, names);
      } else {
        assert c in CellsUpTo(catalog, profile, spec, names, n) <==> c in CellsUpTo(catalog, profile, spec, names, n - 1);
      }
    }
  }

  // ---- audit and estimators agree ----

  lemma ExactIff(ms: seq<Measurement>, name: Text, kind: QueryKind, implementation: Text, d: Distribution, m: Measurement)
    ensures m in ExactMatches(ms, name, kind, implementation, d) <==>
            m in ms && Matches(m, Request(name, Of(kind), Some(implementation), Some(d), true))
  {
    KeepIff(ms, OfOperation(name, kind), m);
    KeepIff(SameOperation(ms, name, kind), Under(implementation), m);
    KeepIff(CurrentImplementation(ms, name, kind, implementation), Showing(d), m);
  }

  /** The audit's list of exact matches is empty exactly if the registry finds nothing. */
  lemma ExactIffFound(catalog: Catalog, ms: seq<Measurement>, name: Text, kind: QueryKind, d: Distribution)
    requires name in catalog
    ensures ExactMatches(ms, name, kind, catalog[name].implementation, d) != [] <==>
            Strongest(ms, Asked(catalog, name, kind, d)).Some?
  {
    var exact := ExactMatches(ms, name, kind, catalog[name].implementation, d);
    var asked := Asked(catalog, name, kind, d);
    StrongestIffSome(ms, asked);
    if exact != [] {
      ExactIff(ms, name, kind, catalog[name].implementation, d, exact[0]);
      assert exact[0] in exact;
    }
    if m: Measurement :| m in ms && Matches(m, asked) {
      ExactIff(ms, name, kind, catalog[name].implementation, d, m);
    }
  }

  /** A read cell is MATCHED exactly if the query estimator returns a calibrated source. */
  lemma MatchedIffQueryCalibrated(catalog: Catalog, profile: Profile, spec: Workload, index: nat, name: Text, prior: real)
    requires index < |spec.queries| && name in catalog
    ensures CellOf(catalog, profile, spec, index, name).status == Matched <==>
            IsCalibrated(EstimateQuery(catalog, Some(profile), spec, spec.queries[index], name, prior).source)
  {
    var q := spec.queries[index];
    ExactIffFound(catalog, profile.measurements, name, q.kind, q.distribution);
  }

  /** A mutation cell is MATCHED exactly if the update estimator does. */
  lemma MatchedIffUpdateCalibrated(catalog: Catalog, profile: Profile, spec: Workload, index: nat, name: Text)
    requires index < |spec.queries| && name in catalog && IsMutation(spec.queries[index].kind)
    ensures var q := spec.queries[index];
            CellOf(catalog, profile, spec, index, name).status == Matched <==>
            IsCalibrated(EstimateUpdate(catalog, Some(profile), spec.recordCount, name, q.distribution, q.kind).source)
  {
    var q := spec.queries[index];
    ExactIffFound(catalog, profile.measurements, name, q.kind, q.distribution);
  }

  ghost predicate HasMutation(spec: Workload) {
    exists i :: 0 <= i < |spec.queries| && IsMutation(spec.queries[i].kind)
  }

  ghost predicate MutationCellsMatched(catalog: Catalog, profile: Profile, spec: Workload, name: Text)
    requires name in catalog
  {
    forall i :: 0 <= i < |spec.queries| && IsMutation(spec.queries[i].kind) ==>
      CellOf(catalog, profile, spec, i, name).status == Matched
  }

  lemma EstimateOfMutation(catalog: Catalog, profile: Profile, spec: Workload, name: Text, i: nat) returns (k: nat)
    requires name in catalog && i < |spec.queries| && IsMutation(spec.queries[i].kind)
    ensures k < |UpdateEstimates(catalog, Some(profile), spec, name)|
    ensures var q := spec.queries[i];
            UpdateEstimates(catalog, Some(profile), spec, name)[k] ==
            EstimateUpdate(catalog, Some(profile), spec.recordCount, name, q.distribution, q.kind)
  {
    var q := spec.queries[i];
    MutationsIff(spec.queries, q);
    assert q in spec.queries;
    k :| 0 <= k < |Mutations(spec.queries)| && Mutations(spec.queries)[k] == q;
  }

  lemma MutationOfEstimate(catalog: Catalog, profile: Profile, spec: Workload, name: Text, k: nat) returns (i: nat)
    requires name in catalog && k < |Mutations(spec.queries)|
    ensures i < |spec.queries| && IsMutation(spec.queries[i].kind)
    ensures var q := spec.queries[i];
            UpdateEstimates(catalog, Some(profile), spec, name)[k] ==
            EstimateUpdate(catalog, Some(profile), spec.recordCount, name, q.distribution, q.kind)
  {
    var q := Mutations(spec.queries)[k];
    MutationsIff(spec.queries, q);
    i :| 0 <= i < |spec.queries| && spec.queries[i] == q;
  }

  /** The mix of a primitive is fully calibrated exactly if there is a mutation and every
      mutation cell of that primitive is MATCHED. */
  lemma MixCalibratedIff(catalog: Catalog, profile: Profile, spec: Workload, name: Text)
    requires name in catalog
    ensures EstimateMix(catalog, Some(profile), spec, name).source.CalibratedMix? <==>
            HasMutation(spec) && MutationCellsMatched(catalog, profile, spec, name)
  {
    SomeEstimateIff(catalog, profile, spec, name);
    AllCalibratedIff(catalog, profile, spec, name);
  }

  lemma SomeEstimateIff(catalog: Catalog, profile: Profile, spec: Workload, name: Text)
    requires name in catalog
    ensures UpdateEstimates(catalog, Some(profile), spec, name) != [] <==> HasMutation(spec)
  {
    if HasMutation(spec) {
      var i :| 0 <= i < |spec.queries| && IsMutation(spec.queries[i].kind);
      var k := EstimateOfMutation(catalog, profile, spec, name, i);
    }
    if UpdateEstimates(catalog, Some(profile), spec, name) != [] {
      var i := MutationOfEstimate(catalog, profile, spec, name, 0);
    }
  }

  lemma AllCalibratedIff(catalog: Catalog, profile: Profile, spec: Workload, name: Text)
    requires name in catalog
    ensures (forall s :: s in SourcesOf(UpdateEstimates(catalog, Some(profile), spec, name)) ==> IsCalibrated(s))
            <==> MutationCellsMatched(catalog, profile, spec, name)
  {
    var es := UpdateEstimates(catalog, Some(profile), spec, name);
    if forall s :: s in SourcesOf(es) ==> IsCalibrated(s) {
      forall i | 0 <= i < |spec.queries| && IsMutation(spec.queries[i].kind)
        ensures CellOf(catalog, profile, spec, i, name).status == Matched
      {
        var k := EstimateOfMutation(catalog, profile, spec, name, i);
        assert es[k].source in SourcesOf(es);
        MatchedIffUpdateCalibrated(catalog, profile, spec, i, name);
      }
    }
    if MutationCellsMatched(catalog, profile, spec, name) {
      forall s | s in SourcesOf(es) ensures IsCalibrated(s) {
        var k :| 0 <= k < |es| && es[k].source == s;
        var i := MutationOfEstimate(catalog, profile, spec, name, k);
        MatchedIffUpdateCalibrated(catalog, profile, spec, i, name);
      }
    }
  }

  /** The mutation cells an audit lists for a record-backed primitive are those meant above. */
  lemma AuditedMutationCells(catalog: Catalog, profile: Profile, spec: Workload, names: seq<Text>, name: Text)
    requires name in names && name in catalog && name != Csr()
    ensures MutationCellsMatched(catalog, profile, spec, name) <==>
            forall c :: c in CellsUpTo(catalog, profile, spec, names, |spec.queries|) && c.primitive == name && IsMutation(c.operation) ==>
              c.status == Matched
  {
    var cells := CellsUpTo(catalog, profile, spec, names, |spec.queries|);
    if MutationCellsMatched(catalog, profile, spec, name) {
      forall c | c in cells && c.primitive == name && IsMutation(c.operation) ensures c.status == Matched {
        InCellsUpTo(catalog, profile, spec, names, |spec.queries|, c);
        var i :| 0 <= i < |spec.queries| && c in CellsOf(catalog, profile, spec, i, names);
        InCellsOf(catalog, profile, spec, i, names, c);
      }
    }
    if forall c :: c in cells && c.primitive == name && IsMutation(c.operation) ==> c.status == Matched {
      forall i | 0 <= i < |spec.queries| && IsMutation(spec.queries[i].kind)
        ensures CellOf(catalog, profile, spec, i, name).status == Matched
      {
        var c := CellOf(catalog, profile, spec, i, name);
        assert Applies(catalog, spec.queries[i], name);
        InCellsOf(catalog, profile, spec, i, names, c);
        InCellsUpTo(catalog, profile, spec, names, |spec.queries|, c);
      }
    }
  }

  // ---- where the mix lies ----

  predicate Within(ws: seq<real>, vs: seq<real>, low: real, high: real) {
    |ws| == |vs| && forall i :: 0 <= i < |vs| ==> low <= vs[i] <= high && ws[i] > 0.0
  }

  lemma {:induction false} TotalsCompare(ps: seq<real>, qs: seq<real>)
    requires |ps| == |qs| && forall i :: 0 <= i < |ps| ==> ps[i] <= qs[i]
    ensures Total(ps) <= Total(qs)
  {
    if ps != [] {
      TotalsCompare(ps[..|ps| - 1], qs[..|qs| - 1]);
    }
  }

  /** The weights times one value. */
  function Level(ws: seq<real>, c: real): (ps: seq<real>)
    ensures |ps| == |ws| && forall i :: 0 <= i < |ws| ==> ps[i] == Times(ws[i], c)
  {
    seq(|ws|, i requires 0 <= i < |ws| => Times(ws[i], c))
  }

  function Times(w: real, c: real): real {
    w * c
  }

  lemma Distributes(c: real, x: real, y: real)
    ensures Times(x, c) + Times(y, c) == Times(x + y, c)
  {
  }

  lemma {:induction false} LevelIs(ws: seq<real>, c: real)
    ensures Total(Level(ws, c)) == Times(Total(ws), c)
  {
    if ws != [] {
      var n := |ws| - 1;
      LevelIs(ws[..n], c);
      assert Level(ws, c)[..n] == Level(ws[..n], c);
      Distributes(c, Total(ws[..n]), ws[n]);
    }
  }

  lemma ScaleBetween(w: real, v: real, low: real, high: real)
    requires w > 0.0 && low <= v <= high
    ensures Times(w, low) <= w * v <= Times(w, high)
  {
    assert w * (v - low) >= 0.0 && w * (high - v) >= 0.0;
  }

  lemma {:induction false} TotalPositive(ws: seq<real>)
    requires forall i :: 0 <= i < |ws| ==> ws[i] > 0.0
    ensures Total(ws) >= 0.0 && (ws != [] ==> Total(ws) > 0.0)
  {
    if ws != [] {
      TotalPositive(ws[..|ws| - 1]);
    }
  }

  lemma BetweenLevels(ws: seq<real>, vs: seq<real>, low: real, high: real)
    requires Within(ws, vs, low, high)
    ensures Total(Level(ws, low)) <= Weighted(ws, vs) <= Total(Level(ws, high))
  {
    forall i | 0 <= i < |ws| ensures Level(ws, low)[i] <= Products(ws, vs)[i] <= Level(ws, high)[i] {
      ScaleBetween(ws[i], vs[i], low, high);
    }
    TotalsCompare(Level(ws, low), Products(ws, vs));
    TotalsCompare(Products(ws, vs), Level(ws, high));
  }

  lemma WeightedWithin(ws: seq<real>, vs: seq<real>, low: real, high: real)
    requires Within(ws, vs, low, high)
    ensures Times(Total(ws), low) <= Weighted(ws, vs) <= Times(Total(ws), high)
    ensures ws != [] ==> Total(ws) > 0.0
  {
    BetweenLevels(ws, vs, low, high);
    LevelIs(ws, low);
    LevelIs(ws, high);
    TotalPositive(ws);
  }

  lemma Cancel(a: real, b: real, t: real)
    requires t > 0.0
    ensures a <= b <==> a * t <= b * t
  {
    assert (b - a) * t == b * t - a * t;
  }

  lemma DivideBetween(x: real, t: real, low: real, high: real)
    requires t > 0.0 && Times(t, low) <= x <= Times(t, high)
    ensures low <= x / t <= high
  {
    Cancel(low, x / t, t);
    Cancel(x / t, high, t);
  }

  /** With a total weight of at least 1e-12 the mix lies between the least and the greatest
      estimate. */
  lemma MixBetween(ws: seq<real>, vs: seq<real>, low: real, high: real)
    requires Within(ws, vs, low, high) && Total(ws) >= TINY
    ensures low <= MixValue(ws, vs) <= high
  {
    WeightedWithin(ws, vs, low, high);
    DivideBetween(Weighted(ws, vs), Total(ws), low, high);
  }

  lemma DivideBelow(x: real, t: real, v: real)
    requires t > 0.0 && x < v * t
    ensures x / t < v
  {
    var q := x / t;
    assert q * t == x;
    Cancel(v, q, t);
  }

  lemma ScaleStrictly(v: real, t: real, u: real)
    requires v > 0.0 && t < u
    ensures v * t < v * u
  {
    assert v * (u - t) == v * u - v * t;
  }

  lemma LightQuotient(x: real, t: real, v: real, u: real)
    requires x == Times(t, v) && v > 0.0 && t < u && u > 0.0
    ensures x / u < v
  {
    ScaleStrictly(v, t, u);
    DivideBelow(x, u, v);
  }

  /** Below that it does not: with equal estimates the mix is smaller than all of them. */
  lemma LightMixFallsBelow(ws: seq<real>, vs: seq<real>, v: real)
    requires ws != [] && Within(ws, vs, v, v) && v > 0.0 && Total(ws) < TINY
    ensures MixValue(ws, vs) < v
  {
    WeightedWithin(ws, vs, v, v);
    LightQuotient(Weighted(ws, vs), Total(ws), v, TINY);
  }

  function Ones(n: nat): (vs: seq<real>)
    ensures |vs| == n && forall i :: 0 <= i < n ==> vs[i] == 1.0
  {
    seq(n, i => 1.0)
  }

  lemma EqualOnes(ws: seq<real>)
    requires forall i :: 0 <= i < |ws| ==> ws[i] > 0.0
    ensures Within(ws, Ones(|ws|), 1.0, 1.0)
  {
  }

  /** So for given positive weights, the mix lies within the estimates for all positive
      estimates exactly if the total weight is at least 1e-12. */
  lemma MixWithinIff(ws: seq<real>)
    requires ws != [] && forall i :: 0 <= i < |ws| ==> ws[i] > 0.0
    ensures (forall vs, low, high :: Within(ws, vs, low, high) && low > 0.0 ==> low <= MixValue(ws, vs) <= high)
            <==> Total(ws) >= TINY
  {
    if Total(ws) >= TINY {
      forall vs, low, high | Within(ws, vs, low, high) && low > 0.0 ensures low <= MixValue(ws, vs) <= high {
        MixBetween(ws, vs, low, high);
      }
    } else {
      EqualOnes(ws);
      LightMixFallsBelow(ws, Ones(|ws|), 1.0);
    }
  }
}
