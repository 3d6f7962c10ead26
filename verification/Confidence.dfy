/** Decision confidence: whether the modelled winner survives the uncertainty intervals of
    its challengers. */
module Confidence {
  import opened Wrappers
  import opened Text
  import opened Reals

  datatype Candidate = Candidate(id: Text, score: real, uncertainty: real, feasible: bool)

  datatype Synthesis = Synthesis(winner: Option<Candidate>, candidates: seq<Candidate>)

  datatype Interval = Interval(lower: real, upper: real)

  datatype Action = NoFeasibleCandidate | AcceptModeledWinner | BenchmarkMore

  datatype Assessment = Assessment(
    action: Action,
    confident: bool,
    ambiguous: seq<Candidate>,
    winnerInterval: Option<Interval>,
    runnerUpGap: Option<real>)

  /** The scaled uncertainty ratio. */
  function Spread(c: Candidate, scale: real): (u: real)
    ensures u >= 0.0
  {
    Max(0.0, c.uncertainty * scale)
  }

  function Radius(c: Candidate, scale: real): real {
    Abs(c.score) * Spread(c, scale)
  }

  /** `_score_interval` of a candidate whose uncertainty is multiplied by the scale. */
  function IntervalOf(c: Candidate, scale: real): Interval {
    Interval(Max(0.0, c.score - Radius(c, scale)), c.score + Radius(c, scale))
  }

  /** The interval holds exactly the scores, 0 at the least, that are no further from the
      modelled one than its scaled uncertainty ratio allows. */
  lemma IntervalHolds(c: Candidate, scale: real, x: real)
    ensures IntervalOf(c, scale).lower <= x <= IntervalOf(c, scale).upper <==>
            0.0 <= x && c.score - Reach(c, scale) <= x <= c.score + Reach(c, scale)
    ensures Reach(c, scale) >= 0.0
  {
    ReachIsRadius(c, scale);
    Product(Abs(c.score), Spread(c, scale));
  }

  lemma ReachIsRadius(c: Candidate, scale: real)
    ensures Reach(c, scale) == Radius(c, scale)
  {
    var ratio := c.uncertainty * scale;
    assert Spread(c, scale) == if ratio <= 0.0 then 0.0 else ratio;
    assert Abs(c.score) == if c.score < 0.0 then -c.score else c.score;
    assert Abs(c.score) * 0.0 == 0.0;
  }

  /** How far from the score its uncertainty reaches; an uncertainty that is not positive reaches nowhere. */
  ghost function Reach(c: Candidate, scale: real): real {
    if c.uncertainty * scale <= 0.0 then 0.0
    else if c.score < 0.0 then -c.score * (c.uncertainty * scale)
    else c.score * (c.uncertainty * scale)
  }

  /** The challenger's least score is no greater than the winner's greatest. */
  ghost predicate Overlaps(c: Candidate, winner: Candidate, scale: real) {
    && c.score - Reach(c, scale) <= winner.score + Reach(winner, scale)
    && 0.0 <= winner.score + Reach(winner, scale)
  }

  lemma AmbiguousMeans(c: Candidate, winner: Candidate, scale: real)
    ensures IsAmbiguous(c, winner, scale) <==> c.feasible && c.id != winner.id && Overlaps(c, winner, scale)
  {
    ReachIsRadius(c, scale);
    ReachIsRadius(winner, scale);
  }

  predicate Challenges(c: Candidate, winner: Candidate) {
    c.feasible && c.id != winner.id
  }

  /** The challenger's lower bound reaches the winner's upper bound. */
  predicate IsAmbiguous(c: Candidate, winner: Candidate, scale: real) {
    Challenges(c, winner) && IntervalOf(c, scale).lower <= IntervalOf(winner, scale).upper
  }

  function Ambiguous(cs: seq<Candidate>, winner: Candidate, scale: real): seq<Candidate> {
    if cs == [] then []
    else
      var last := cs[|cs| - 1];
      Ambiguous(cs[..|cs| - 1], winner, scale) + if IsAmbiguous(last, winner, scale) then [last] else []
  }

  lemma {:induction false} AmbiguousCount(cs: seq<Candidate>, winner: Candidate, scale: real, c: Candidate)
    ensures multiset(Ambiguous(cs, winner, scale))[c] == if IsAmbiguous(c, winner, scale) then multiset(cs)[c] else 0
  {
    if cs != [] {
      AmbiguousCount(cs[..|cs| - 1], winner, scale, c);
      assert cs == cs[..|cs| - 1] + [cs[|cs| - 1]];
    }
  }

  // ---- sorting ----

  predicate NotAfter(a: Candidate, b: Candidate) {
    a.score < b.score || (a.score == b.score && !Less(b.id, a.id))
  }

  predicate Ranked(cs: seq<Candidate>) {
    forall i, j :: 0 <= i < j < |cs| ==> NotAfter(cs[i], cs[j])
  }

  lemma NotAfterTransitive(a: Candidate, b: Candidate, c: Candidate)
    requires NotAfter(a, b) && NotAfter(b, c)
    ensures NotAfter(a, c)
  {
    if a.score == c.score && Less(c.id, a.id) {
      LessTrichotomy(b.id, a.id);
      LessTrichotomy(c.id, b.id);
      if a.id == b.id || b.id == c.id {
        assert false;
      }
      LessTransitive(c.id, a.id, b.id);
      assert false;
    }
  }

  lemma NotAfterTotal(a: Candidate, b: Candidate)
    ensures NotAfter(a, b) || NotAfter(b, a)
  {
    LessTrichotomy(a.id, b.id);
  }

  /** `feasible.sort(key=lambda candidate: (candidate.score, candidate.id))` */
  method Rank(cs: seq<Candidate>) returns (out: seq<Candidate>)
    ensures multiset(out) == multiset(cs) && |out| == |cs| && Ranked(out)
  {
    out := [];
    var i := 0;
    while i < |cs|
      invariant i <= |cs| && |out| == i
      invariant multiset(out) == multiset(cs[..i]) && Ranked(out)
    {
      assert cs[..i + 1] == cs[..i] + [cs[i]];
      out := InsertRanked(out, cs[i]);
      i := i + 1;
    }
    assert cs[..i] == cs;
  }

  method InsertRanked(cs: seq<Candidate>, c: Candidate) returns (out: seq<Candidate>)
    requires Ranked(cs)
    ensures multiset(out) == multiset(cs) + multiset{c} && |out| == |cs| + 1 && Ranked(out)
  {
    var at := |cs|;
    while at > 0 && !NotAfter(cs[at - 1], c)
      invariant 0 <= at <= |cs|
      invariant forall i :: at <= i < |cs| ==> NotAfter(c, cs[i])
    {
      NotAfterTotal(cs[at - 1], c);
      at := at - 1;
    }
    out := cs[..at] + [c] + cs[at..];
    assert cs == cs[..at] + cs[at..];
    InsertedRanked(cs, c, at);
  }

  lemma InsertedRanked(cs: seq<Candidate>, c: Candidate, at: nat)
    requires Ranked(cs) && at <= |cs| && (at > 0 ==> NotAfter(cs[at - 1], c))
    requires forall i :: at <= i < |cs| ==> NotAfter(c, cs[i])
    ensures Ranked(cs[..at] + [c] + cs[at..])
  {
    var out := cs[..at] + [c] + cs[at..];
    forall i, j | 0 <= i < j < |out| ensures NotAfter(out[i], out[j]) {
      if j == at {
        if i < at - 1 {
          assert NotAfter(cs[i], cs[at - 1]);
          NotAfterTransitive(cs[i], cs[at - 1], c);
        }
      } else if i != at {
        var x, y := if i < at then i else i - 1, if j < at then j else j - 1;
        assert out[i] == cs[x] && out[j] == cs[y];
      }
    }
  }

  // ---- the assessment ----

  function Feasible(cs: seq<Candidate>): seq<Candidate> {
    if cs == [] then []
    else Feasible(cs[..|cs| - 1]) + if cs[|cs| - 1].feasible then [cs[|cs| - 1]] else []
  }

  lemma {:induction false} FeasibleCount(cs: seq<Candidate>, c: Candidate)
    ensures multiset(Feasible(cs))[c] == if c.feasible then multiset(cs)[c] else 0
  {
    if cs != [] {
      FeasibleCount(cs[..|cs| - 1], c);
      assert cs == cs[..|cs| - 1] + [cs[|cs| - 1]];
    }
  }

  /** `assess_decision_confidence`, up to the recommended measurements. */
  method Assess(result: Synthesis, scale: real, maxRecommendations: int) returns (res: Option<Assessment>)
    ensures res.Some? <==> scale >= 0.0 && maxRecommendations >= 1
    ensures res.Some? && result.winner.None? ==> res.value == Assessment(NoFeasibleCandidate, false, [], None, None)
    ensures res.Some? && result.winner.Some? ==>
              var a, winner := res.value, result.winner.value;
              && Ranked(a.ambiguous)
              && multiset(a.ambiguous) == multiset(Ambiguous(result.candidates, winner, scale))
              && a.confident == (a.ambiguous == [])
              && a.action == (if a.ambiguous == [] then AcceptModeledWinner else BenchmarkMore)
              && a.winnerInterval == Some(IntervalOf(winner, scale))
              && exists ranked: seq<Candidate> ::
                   && Ranked(ranked) && multiset(ranked) == multiset(Feasible(result.candidates))
                   && a.runnerUpGap == if |ranked| >= 2 then Some(Max(0.0, ranked[1].score - winner.score)) else None
    ensures res.Some? && result.winner.Some? ==>
              var a, winner := res.value, result.winner.value;
              Reports(a, result.candidates, winner, scale)
  {
    if scale < 0.0 || maxRecommendations < 1 {
      return None;
    }
    if result.winner.None? {
      return Some(Assessment(NoFeasibleCandidate, false, [], None, None));
    }
    var winner := result.winner.value;
    var feasible := Rank(Feasible(result.candidates));
    OnlyFeasible(result.candidates, feasible);
    var ambiguous := CollectAmbiguous(feasible, winner, scale);
    SameAmbiguous(result.candidates, feasible, winner, scale);
    var gap := None;
    if |feasible| >= 2 {
      gap := Some(Max(0.0, feasible[1].score - winner.score));
    }
    var assessment := Assessment(if ambiguous == [] then AcceptModeledWinner else BenchmarkMore, ambiguous == [], ambiguous,
                                 Some(IntervalOf(winner, scale)), gap);
    Means(assessment, result.candidates, winner, scale);
    return Some(assessment);
  }

  /** By score; equal scores by id. */
  ghost predicate InScoreOrder(cs: seq<Candidate>) {
    forall i, j :: 0 <= i < j < |cs| ==>
      cs[i].score <= cs[j].score && (cs[i].score == cs[j].score ==> !Less(cs[j].id, cs[i].id))
  }

  /** Each feasible candidate other than the winner whose scores overlap the winner's, as
      often as it occurs, and no other. */
  ghost predicate ListsOverlapping(ambiguous: seq<Candidate>, cs: seq<Candidate>, winner: Candidate, scale: real) {
    forall c :: multiset(ambiguous)[c] ==
                if c.feasible && c.id != winner.id && Overlaps(c, winner, scale) then multiset(cs)[c] else 0
  }

  /** From the score less its reach, 0 at the least, to the score and its reach. */
  ghost predicate SpansReach(i: Interval, c: Candidate, scale: real) {
    && i.upper == c.score + Reach(c, scale)
    && i.lower == if c.score < Reach(c, scale) then 0.0 else c.score - Reach(c, scale)
  }

  ghost predicate Reports(a: Assessment, cs: seq<Candidate>, winner: Candidate, scale: real) {
    && InScoreOrder(a.ambiguous) && ListsOverlapping(a.ambiguous, cs, winner, scale)
    && a.winnerInterval.Some? && SpansReach(a.winnerInterval.value, winner, scale)
  }

  lemma Means(a: Assessment, cs: seq<Candidate>, winner: Candidate, scale: real)
    requires multiset(a.ambiguous) == multiset(Ambiguous(cs, winner, scale)) && Ranked(a.ambiguous)
    requires a.winnerInterval == Some(IntervalOf(winner, scale))
    ensures Reports(a, cs, winner, scale)
  {
    ReachIsRadius(winner, scale);
    forall c ensures multiset(a.ambiguous)[c] ==
                     if c.feasible && c.id != winner.id && Overlaps(c, winner, scale) then multiset(cs)[c] else 0
    {
      AmbiguousCount(cs, winner, scale, c);
      AmbiguousMeans(c, winner, scale);
    }
  }

  lemma OnlyFeasible(cs: seq<Candidate>, feasible: seq<Candidate>)
    requires multiset(feasible) == multiset(Feasible(cs))
    ensures forall c :: c in feasible ==> c.feasible
  {
    forall c | c in feasible ensures c.feasible {
      assert multiset(feasible)[c] > 0;
      FeasibleCount(cs, c);
    }
  }

  /** The loop of `assess_decision_confidence`. */
  method CollectAmbiguous(feasible: seq<Candidate>, winner: Candidate, scale: real) returns (ambiguous: seq<Candidate>)
    requires Ranked(feasible) && forall c :: c in feasible ==> c.feasible
    ensures ambiguous == Ambiguous(feasible, winner, scale) && Ranked(ambiguous)
  {
    ambiguous := [];
    var interval := IntervalOf(winner, scale);
    var i := 0;
    while i < |feasible|
      invariant i <= |feasible| && Ranked(ambiguous)
      invariant ambiguous == Ambiguous(feasible[..i], winner, scale)
      invariant forall c :: c in ambiguous ==> c in feasible[..i]
    {
      var c := feasible[i];
      assert feasible[..i + 1][..i] == feasible[..i];
      assert c in feasible;
      if c.id != winner.id && IntervalOf(c, scale).lower <= interval.upper {
        forall k | 0 <= k < |ambiguous| ensures NotAfter(ambiguous[k], c) {
          assert ambiguous[k] in ambiguous;
          var j :| 0 <= j < i && feasible[j] == ambiguous[k];
        }
        ambiguous := ambiguous + [c];
      }
      i := i + 1;
    }
    assert feasible[..i] == feasible;
  }

  lemma SameAmbiguous(cs: seq<Candidate>, feasible: seq<Candidate>, winner: Candidate, scale: real)
    requires multiset(feasible) == multiset(Feasible(cs))
    ensures multiset(Ambiguous(feasible, winner, scale)) == multiset(Ambiguous(cs, winner, scale))
  {
    forall c ensures multiset(Ambiguous(feasible, winner, scale))[c] == multiset(Ambiguous(cs, winner, scale))[c] {
      AmbiguousCount(feasible, winner, scale, c);
      AmbiguousCount(cs, winner, scale, c);
      FeasibleCount(cs, c);
    }
  }

  // ---- soundness and completeness over the intervals ----

  predicate Contains(i: Interval, x: real) {
    i.lower <= x <= i.upper
  }

  /** One score for every candidate, by position. */
  type Pick = int -> real

  /** Scores the intervals allow. */
  ghost predicate Allowed(cs: seq<Candidate>, winner: Candidate, scale: real, w: real, pick: Pick) {
    && Contains(IntervalOf(winner, scale), w)
    && forall i :: 0 <= i < |cs| && Challenges(cs[i], winner) ==> Contains(IntervalOf(cs[i], scale), pick(i))
  }

  ghost predicate StrictMinimum(cs: seq<Candidate>, winner: Candidate, w: real, pick: Pick) {
    forall i :: 0 <= i < |cs| && Challenges(cs[i], winner) ==> w < pick(i)
  }

  lemma Product(x: real, y: real)
    requires x >= 0.0 && y >= 0.0
    ensures x * y >= 0.0
  {
  }

  /** Intervals of non-negative scores are not empty. */
  lemma IntervalNotEmpty(c: Candidate, scale: real)
    requires c.score >= 0.0
    ensures IntervalOf(c, scale).lower <= c.score <= IntervalOf(c, scale).upper
  {
    Product(Abs(c.score), Spread(c, scale));
    assert Radius(c, scale) >= 0.0;
  }

  lemma {:induction false} AmbiguousIff(cs: seq<Candidate>, winner: Candidate, scale: real)
    ensures Ambiguous(cs, winner, scale) == [] <==> forall i :: 0 <= i < |cs| ==> !IsAmbiguous(cs[i], winner, scale)
  {
    if cs != [] {
      var n := |cs| - 1;
      AmbiguousIff(cs[..n], winner, scale);
      assert forall i :: 0 <= i < n ==> cs[..n][i] == cs[i];
    }
  }

  /** The lower bounds of the challengers against the upper bound of the winner. */
  function WorstPick(cs: seq<Candidate>, scale: real): Pick {
    i => if 0 <= i < |cs| then IntervalOf(cs[i], scale).lower else 0.0
  }

  predicate NonNegative(result: seq<Candidate>, winner: Candidate) {
    winner.score >= 0.0 && forall i :: 0 <= i < |result| ==> result[i].score >= 0.0
  }

  lemma WorstPickAllowed(cs: seq<Candidate>, winner: Candidate, scale: real)
    requires NonNegative(cs, winner)
    ensures Allowed(cs, winner, scale, IntervalOf(winner, scale).upper, WorstPick(cs, scale))
  {
    IntervalNotEmpty(winner, scale);
    forall i | 0 <= i < |cs| ensures Contains(IntervalOf(cs[i], scale), WorstPick(cs, scale)(i)) {
      IntervalNotEmpty(cs[i], scale);
    }
  }

  /** For non-negative scores the winner is accepted exactly if it is the strict minimum
      under every choice of scores from the intervals. */
  lemma AcceptedIffAlwaysMinimum(cs: seq<Candidate>, winner: Candidate, scale: real)
    requires NonNegative(cs, winner)
    ensures Ambiguous(cs, winner, scale) == [] <==>
            forall w, pick :: Allowed(cs, winner, scale, w, pick) ==> StrictMinimum(cs, winner, w, pick)
  {
    AmbiguousIff(cs, winner, scale);
    if Ambiguous(cs, winner, scale) == [] {
      forall w, pick | Allowed(cs, winner, scale, w, pick) ensures StrictMinimum(cs, winner, w, pick) {
        forall i | 0 <= i < |cs| && Challenges(cs[i], winner) ensures w < pick(i) {
          assert !IsAmbiguous(cs[i], winner, scale);
        }
      }
    }
    if forall w, pick :: Allowed(cs, winner, scale, w, pick) ==> StrictMinimum(cs, winner, w, pick) {
      WorstPickAllowed(cs, winner, scale);
      assert StrictMinimum(cs, winner, IntervalOf(winner, scale).upper, WorstPick(cs, scale));
      forall i | 0 <= i < |cs| ensures !IsAmbiguous(cs[i], winner, scale) {
        if Challenges(cs[i], winner) {
          assert IntervalOf(winner, scale).upper < WorstPick(cs, scale)(i);
        }
      }
    }
  }

  /** Asking for more measurements means that some allowed choice lets a challenger tie or
      win. */
  lemma BenchmarkMeansUpset(cs: seq<Candidate>, winner: Candidate, scale: real)
    requires NonNegative(cs, winner) && Ambiguous(cs, winner, scale) != []
    ensures exists w, pick, i ::
              && 0 <= i < |cs| && Challenges(cs[i], winner)
              && Allowed(cs, winner, scale, w, pick) && pick(i) <= w
  {
    AmbiguousIff(cs, winner, scale);
    var i :| 0 <= i < |cs| && IsAmbiguous(cs[i], winner, scale);
    WorstPickAllowed(cs, winner, scale);
    assert WorstPick(cs, scale)(i) <= IntervalOf(winner, scale).upper;
  }

  // ---- widening ----

  lemma Scales(x: real, a: real, b: real)
    requires x >= 0.0 && a <= b
    ensures x * a <= x * b
  {
    assert x * (b - a) == x * b - x * a;
    Product(x, b - a);
  }

  lemma RadiusGrows(c: Candidate, a: real, b: real)
    requires c.uncertainty >= 0.0 && 0.0 <= a <= b
    ensures Radius(c, a) <= Radius(c, b)
  {
    SpreadGrows(c, a, b);
    Scales(Abs(c.score), Spread(c, a), Spread(c, b));
  }

  lemma SpreadGrows(c: Candidate, a: real, b: real)
    requires c.uncertainty >= 0.0 && 0.0 <= a <= b
    ensures Spread(c, a) <= Spread(c, b)
  {
    Scales(c.uncertainty, a, b);
  }

  lemma IntervalWidens(c: Candidate, a: real, b: real)
    requires c.uncertainty >= 0.0 && 0.0 <= a <= b
    ensures IntervalOf(c, b).lower <= IntervalOf(c, a).lower && IntervalOf(c, a).upper <= IntervalOf(c, b).upper
  {
    RadiusGrows(c, a, b);
  }

  /** Raising the scale only enlarges the ambiguous set, whatever the signs of the scores. */
  lemma WideningKeepsAmbiguous(c: Candidate, winner: Candidate, a: real, b: real)
    requires c.uncertainty >= 0.0 && winner.uncertainty >= 0.0 && 0.0 <= a <= b
    requires IsAmbiguous(c, winner, a)
    ensures IsAmbiguous(c, winner, b)
  {
    IntervalWidens(c, a, b);
    IntervalWidens(winner, a, b);
  }

  lemma WideningEnlarges(cs: seq<Candidate>, winner: Candidate, a: real, b: real)
    requires winner.uncertainty >= 0.0 && forall i :: 0 <= i < |cs| ==> cs[i].uncertainty >= 0.0
    requires 0.0 <= a <= b
    ensures multiset(Ambiguous(cs, winner, a)) <= multiset(Ambiguous(cs, winner, b))
  {
    forall c ensures multiset(Ambiguous(cs, winner, a))[c] <= multiset(Ambiguous(cs, winner, b))[c] {
      AmbiguousCount(cs, winner, a, c);
      AmbiguousCount(cs, winner, b, c);
      if c in multiset(cs) && IsAmbiguous(c, winner, a) {
        assert c in cs;
        WideningKeepsAmbiguous(c, winner, a, b);
      }
    }
  }

  /** A negative score leaves an interval without any score in it unless its scaled
      uncertainty reaches 1. */
  lemma EmptyIntervalIff(c: Candidate, scale: real)
    ensures IntervalOf(c, scale).lower > IntervalOf(c, scale).upper <==> c.score < 0.0 && Spread(c, scale) < 1.0
  {
    if c.score < 0.0 {
      NegativeUpper(Abs(c.score), Spread(c, scale), Radius(c, scale));
      assert Abs(c.score) == -c.score;
      assert IntervalOf(c, scale) == Interval(0.0, c.score + Radius(c, scale));
    } else {
      IntervalNotEmpty(c, scale);
    }
  }

  lemma NegativeUpper(x: real, u: real, r: real)
    requires x > 0.0 && u >= 0.0 && r == x * u
    ensures r >= 0.0
    ensures r < x <==> u < 1.0
  {
    Product(x, u);
    assert x * (1.0 - u) == x - x * u;
    if u < 1.0 { assert x * (1.0 - u) > 0.0; } else { Product(x, u - 1.0); assert x * (u - 1.0) == x * u - x; }
  }
}
