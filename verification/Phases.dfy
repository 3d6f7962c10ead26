/** Phase candidates of a trace: rolling windows and the drift between neighbours. */
module Phases {
  import opened Wrappers
  import opened Drift

  datatype Window = Window(index: nat, start: nat, end: nat, samples: seq<int>)

  datatype Boundary = Boundary(previous: nat, current: nat, sample: nat, distance: real)

  datatype PhaseReport = PhaseReport(
    sampleCount: nat,
    windowSize: nat,
    stepSize: nat,
    threshold: real,
    windows: seq<Window>,
    boundaries: seq<Boundary>)

  // ---- slicing ----

  /** How many complete windows a trace of this length has. */
  function WindowCount(length: nat, size: nat, step: nat): (n: nat)
    requires 0 < step && size <= length
    ensures n >= 1
  {
    (length - size) / step + 1
  }

  /** Exactly the starts i * step with i below the count leave room for a window. */
  lemma WindowsFit(length: nat, size: nat, step: nat, i: nat)
    requires 0 < step && size <= length
    ensures i < WindowCount(length, size, step) <==> i * step + size <= length
  {
    var room := length - size;
    var q := room / step;
    assert room == q * step + room % step;
    if i <= q {
      Scaled(i, q, step);
    } else {
      Scaled(q + 1, i, step);
      assert (q + 1) * step == q * step + step;
    }
  }

  lemma Scaled(a: nat, b: nat, k: nat)
    requires a <= b
    ensures a * k <= b * k
  {
  }

  function WindowAt(values: seq<int>, size: nat, step: nat, i: nat): Window
    requires i * step + size <= |values|
  {
    Window(i, i * step, i * step + size, values[i * step..i * step + size])
  }

  /** The while loop of `analyze_trace_phases`. */
  method Slice(values: seq<int>, size: nat, step: nat) returns (windows: seq<Window>)
    requires 0 < step && size <= |values|
    ensures |windows| == WindowCount(|values|, size, step)
    ensures forall i :: 0 <= i < |windows| ==>
              i * step + size <= |values| && windows[i] == WindowAt(values, size, step, i)
  {
    windows := [];
    var start := 0;
    while start + size <= |values|
      invariant start == |windows| * step
      invariant forall i :: 0 <= i < |windows| ==>
                  i * step + size <= |values| && windows[i] == WindowAt(values, size, step, i)
      decreases |values| - start
    {
      var end := start + size;
      windows := windows + [Window(|windows|, start, end, values[start..end])];
      start := start + step;
    }
    WindowsFit(|values|, size, step, |windows|);
    if |windows| > 0 {
      WindowsFit(|values|, size, step, |windows| - 1);
    }
  }

  // ---- boundaries ----

  ghost predicate Windowed(windows: seq<Window>) {
    forall i :: 0 <= i < |windows| ==> windows[i].index == i && AcceptsWindow(windows[i].samples)
  }

  /** A distance between positions in a list of windows. */
  type Metric = (int, int) -> real

  /** The drift between two windows. */
  ghost function Between(windows: seq<Window>): Metric {
    (i: int, j: int) =>
      if 0 <= i < |windows| && 0 <= j < |windows| && windows[i].samples != [] && windows[j].samples != []
      then Distance(windows[i].samples, windows[j].samples) else 0.0
  }

  predicate IsBoundary(d: Metric, threshold: real, i: int) {
    d(i - 1, i) >= threshold
  }

  predicate Reported(found: seq<Boundary>, i: nat) {
    exists j :: 0 <= j < |found| && found[j].current == i
  }

  /** Exactly the boundaries below `n`, in order, each as it is reported. */
  ghost predicate BoundariesUpTo(windows: seq<Window>, d: Metric, threshold: real, n: nat, found: seq<Boundary>) {
    && (forall b :: b in found ==>
          && 0 < b.current < n && b.current < |windows| && IsBoundary(d, threshold, b.current)
          && b == Boundary(b.current - 1, b.current, windows[b.current].start, d(b.current - 1, b.current)))
    && (forall j, k :: 0 <= j < k < |found| ==> found[j].current < found[k].current)
    && (forall i :: 0 < i < n && IsBoundary(d, threshold, i) ==> Reported(found, i))
  }

  lemma BoundaryFound(windows: seq<Window>, d: Metric, threshold: real, n: nat, found: seq<Boundary>)
    requires BoundariesUpTo(windows, d, threshold, n, found) && 0 < n < |windows|
    ensures IsBoundary(d, threshold, n) ==>
              BoundariesUpTo(windows, d, threshold, n + 1, found + [Boundary(n - 1, n, windows[n].start, d(n - 1, n))])
    ensures !IsBoundary(d, threshold, n) ==> BoundariesUpTo(windows, d, threshold, n + 1, found)
  {
    if IsBoundary(d, threshold, n) {
      var more := found + [Boundary(n - 1, n, windows[n].start, d(n - 1, n))];
      forall i | 0 < i < n + 1 && IsBoundary(d, threshold, i) ensures Reported(more, i) {
        if i < n {
          assert Reported(found, i);
          var j :| 0 <= j < |found| && found[j].current == i;
          assert more[j].current == i;
        } else {
          assert more[|found|].current == i;
        }
      }
      forall j, k | 0 <= j < k < |more| ensures more[j].current < more[k].current {
        assert more[j] in found;
      }
    }
  }

  /** The second loop of `analyze_trace_phases`. */
  method FindBoundaries(windows: seq<Window>, threshold: real) returns (found: seq<Boundary>)
    requires Windowed(windows) && windows != [] && 0.0 <= threshold <= 1.0
    ensures BoundariesUpTo(windows, Between(windows), threshold, |windows|, found)
  {
    ghost var d := Between(windows);
    found := [];
    var i := 1;
    while i < |windows|
      invariant 1 <= i <= |windows|
      invariant BoundariesUpTo(windows, d, threshold, i, found)
    {
      var distance, drifted := CompareNeighbours(windows, threshold, i);
      BoundaryFound(windows, d, threshold, i, found);
      if drifted {
        found := found + [Boundary(i - 1, i, windows[i].start, distance)];
      }
      i := i + 1;
    }
  }

  method CompareNeighbours(windows: seq<Window>, threshold: real, i: nat) returns (distance: real, drifted: bool)
    requires Windowed(windows) && 0 < i < |windows| && 0.0 <= threshold <= 1.0
    ensures distance == Between(windows)(i - 1, i)
    ensures drifted <==> IsBoundary(Between(windows), threshold, i)
  {
    assert AcceptsWindow(windows[i - 1].samples) && AcceptsWindow(windows[i].samples);
    var drift := CompareWindows(windows[i - 1].samples, windows[i].samples, threshold);
    return drift.value.distance, drift.value.drifted;
  }

  // ---- the report ----

  /** `analyze_trace_phases`: the windows start at every multiple of the step that leaves
      room for one, and the boundaries are exactly the neighbours at or over the threshold. */
  method AnalyzeTracePhases(values: seq<int>, size: int, stepOrNone: Option<int>, threshold: real) returns (res: Option<PhaseReport>)
    ensures var step := if stepOrNone.Some? then stepOrNone.value else size;
            && (res.Some? <==>
                  && 4 <= |values| <= 1_000_000 && 2 <= size && step >= 1 && 0.0 <= threshold <= 1.0
                  && size + step <= |values|)
            && (res.Some? ==>
                  var r := res.value;
                  && r.sampleCount == |values| && r.windowSize == size && r.stepSize == step && r.threshold == threshold
                  && |r.windows| == WindowCount(|values|, size, step)
                  && (forall i :: 0 <= i < |r.windows| ==>
                        i * step + size <= |values| && r.windows[i] == WindowAt(values, size, step, i))
                  && BoundariesUpTo(r.windows, Between(r.windows), threshold, |r.windows|, r.boundaries))
  {
    if |values| < 4 || |values| > SAMPLE_LIMIT || size < 2 || size > |values| {
      return None;
    }
    var step := if stepOrNone.Some? then stepOrNone.value else size;
    if step < 1 || !(0.0 <= threshold <= 1.0) {
      return None;
    }
    var windows := Slice(values, size, step);
    WindowsFit(|values|, size, step, 1);
    if |windows| < 2 {
      return None;
    }
    var boundaries := FindBoundaries(windows, threshold);
    return Some(PhaseReport(|values|, size, step, threshold, windows, boundaries));
  }

  // ---- between boundaries ----

  ghost predicate TriangleAt(d: Metric, i: int, j: int, k: int) {
    d(i, k) <= d(i, j) + d(j, k)
  }

  lemma BetweenTriangle(windows: seq<Window>, i: nat, j: nat, k: nat)
    requires Windowed(windows) && i < |windows| && j < |windows| && k < |windows|
    ensures TriangleAt(Between(windows), i, j, k)
  {
    assert AcceptsWindow(windows[i].samples) && AcceptsWindow(windows[j].samples) && AcceptsWindow(windows[k].samples);
    Triangle(Probabilities(windows[i].samples), Probabilities(windows[j].samples), Probabilities(windows[k].samples));
  }

  lemma {:induction false} QuietStretch(d: Metric, n: nat, threshold: real, i: nat, j: nat)
    requires i < j < n && forall k: nat :: 0 < k < n ==> TriangleTo(d, i, k)
    requires forall k :: i < k <= j ==> !IsBoundary(d, threshold, k)
    ensures d(i, j) < (j - i) as real * threshold
    decreases j - i
  {
    assert !IsBoundary(d, threshold, j);
    if i + 1 < j {
      QuietStretch(d, n, threshold, i, j - 1);
      assert TriangleTo(d, i, j);
      OneMoreThreshold(j - 1 - i, threshold);
    }
  }

  ghost predicate TriangleTo(d: Metric, i: int, k: int) {
    d(i, k) <= d(i, k - 1) + d(k - 1, k)
  }

  lemma OneMoreThreshold(n: nat, threshold: real)
    ensures (n + 1) as real * threshold == n as real * threshold + threshold
  {
  }

  /** With no boundary reported between windows i and j, their distance is below (j - i)
      times the threshold. */
  lemma QuietBetweenReported(windows: seq<Window>, threshold: real, found: seq<Boundary>, i: nat, j: nat)
    requires Windowed(windows) && i < j < |windows|
    requires BoundariesUpTo(windows, Between(windows), threshold, |windows|, found)
    requires forall b :: b in found ==> !(i < b.current <= j)
    ensures Between(windows)(i, j) < (j - i) as real * threshold
  {
    var d := Between(windows);
    forall k | i < k <= j ensures !IsBoundary(d, threshold, k) {
      NotReported(windows, d, threshold, found, i, j, k);
    }
    QuietWindows(windows, threshold, i, j);
  }

  lemma NotReported(windows: seq<Window>, d: Metric, threshold: real, found: seq<Boundary>, i: nat, j: nat, k: nat)
    requires BoundariesUpTo(windows, d, threshold, |windows|, found) && i < k <= j < |windows|
    requires forall b :: b in found ==> !(i < b.current <= j)
    ensures !IsBoundary(d, threshold, k)
  {
    assert !Reported(found, k);
  }

  lemma QuietWindows(windows: seq<Window>, threshold: real, i: nat, j: nat)
    requires Windowed(windows) && i < j < |windows|
    requires forall k :: i < k <= j ==> !IsBoundary(Between(windows), threshold, k)
    ensures Between(windows)(i, j) < (j - i) as real * threshold
  {
    forall k: nat | 0 < k < |windows| ensures TriangleTo(Between(windows), i, k) {
      BetweenTriangle(windows, i, k - 1, k);
    }
    QuietStretch(Between(windows), |windows|, threshold, i, j);
  }
}
