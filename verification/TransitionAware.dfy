/** The transition-aware policy: it switches only when the phase repays the transition with
    a margin and the cooldown has passed. */
module TransitionAware {
  import opened Wrappers
  import opened Text
  import opened Policies
  import opened Reals

  datatype Tuning = Tuning(factor: real, margin: real, cooldown: int)

  predicate ValidTuning(u: Tuning) {
    u.factor >= 0.0 && u.margin >= 0.0 && u.cooldown >= 0
  }

  // ---- the rule ----

  function Threshold(u: Tuning, transition: real): real {
    u.factor * transition * (1.0 + u.margin)
  }

  predicate Worthwhile(p: Phase, u: Tuning, current: Text, target: Text, transition: real)
    requires current in p.costs && target in p.costs
  {
    Max(0.0, Execution(p, current) - Execution(p, target)) > Threshold(u, transition)
  }

  /** The index of the last step that switched. */
  function LastSwitch(steps: seq<Step>): (last: Option<nat>)
    ensures last.Some? ==> last.value < |steps| && steps[last.value].switched
    ensures forall k :: 0 <= k < |steps| && steps[k].switched ==> last.Some? && k <= last.value
  {
    if steps == [] then None
    else if steps[|steps| - 1].switched then Some(|steps| - 1)
    else LastSwitch(steps[..|steps| - 1])
  }

  predicate Cooling(last: Option<nat>, index: nat, cooldown: int) {
    last.Some? && index <= last.value + cooldown
  }

  /** What the policy records in a phase whose cheapest candidate is `target`. */
  ghost predicate Chooses(p: Phase, tc: Transitions, u: Tuning, current: Text, cooling: bool, target: Text, s: Step) {
    && current in p.costs
    && IsCheapest(p.costs, target)
    && TransitionCost(tc, current, target).Some?
    && s.switched == (target != current && !cooling && Worthwhile(p, u, current, target, TransitionCost(tc, current, target).value))
    && s.candidate == if s.switched then target else current
  }

  ghost predicate FollowsAt(phases: seq<Phase>, initial: Text, tc: Transitions, u: Tuning, steps: seq<Step>, i: nat)
    requires i < |steps| <= |phases|
  {
    exists target :: Chooses(phases[i], tc, u, CurrentAt(initial, steps, i), Cooling(LastSwitch(steps[..i]), i, u.cooldown),
                             target, steps[i])
  }

  ghost predicate Follows(phases: seq<Phase>, initial: Text, tc: Transitions, u: Tuning, steps: seq<Step>) {
    && AllRecord(phases, initial, tc, steps)
    && forall i :: 0 <= i < |steps| ==> FollowsAt(phases, initial, tc, u, steps, i)
  }

  /** The phase after these steps lacks the current candidate, or the transition to its
      cheapest one is not declared. */
  ghost predicate StuckAfter(phases: seq<Phase>, initial: Text, tc: Transitions, u: Tuning, steps: seq<Step>) {
    && Follows(phases, initial, tc, u, steps)
    && |steps| < |phases|
    && var p, current := phases[|steps|], CurrentAt(initial, steps, |steps|);
       (current !in p.costs || exists target :: IsCheapest(p.costs, target) && TransitionCost(tc, current, target).None?)
  }

  lemma FollowOneMore(phases: seq<Phase>, initial: Text, tc: Transitions, u: Tuning, steps: seq<Step>, target: Text, s: Step)
    requires Follows(phases, initial, tc, u, steps) && |steps| < |phases|
    requires Records(phases[|steps|], tc, CurrentAt(initial, steps, |steps|), s)
    requires Chooses(phases[|steps|], tc, u, CurrentAt(initial, steps, |steps|),
                     Cooling(LastSwitch(steps), |steps|, u.cooldown), target, s)
    ensures Follows(phases, initial, tc, u, steps + [s])
  {
    RecordOneMore(phases, initial, tc, steps, s);
    FollowsEarlier(phases, initial, tc, u, steps, s);
    FollowsLast(phases, initial, tc, u, steps, target, s);
    FollowsJoined(phases, initial, tc, u, steps + [s]);
  }

  lemma FollowsJoined(phases: seq<Phase>, initial: Text, tc: Transitions, u: Tuning, more: seq<Step>)
    requires more != [] && AllRecord(phases, initial, tc, more)
    requires forall i :: 0 <= i < |more| - 1 ==> FollowsAt(phases, initial, tc, u, more, i)
    requires FollowsAt(phases, initial, tc, u, more, |more| - 1)
    ensures Follows(phases, initial, tc, u, more)
  {
  }

  lemma FollowsEarlier(phases: seq<Phase>, initial: Text, tc: Transitions, u: Tuning, steps: seq<Step>, s: Step)
    requires Follows(phases, initial, tc, u, steps) && |steps| < |phases|
    ensures forall i :: 0 <= i < |steps| ==> FollowsAt(phases, initial, tc, u, steps + [s], i)
  {
    forall i | 0 <= i < |steps| ensures FollowsAt(phases, initial, tc, u, steps + [s], i) {
      assert FollowsAt(phases, initial, tc, u, steps, i);
      assert (steps + [s])[..i + 1] == steps[..i + 1];
      FollowsShift(phases, initial, tc, u, steps, steps + [s], i);
    }
  }

  lemma FollowsLast(phases: seq<Phase>, initial: Text, tc: Transitions, u: Tuning, steps: seq<Step>, target: Text, s: Step)
    requires |steps| < |phases|
    requires Chooses(phases[|steps|], tc, u, CurrentAt(initial, steps, |steps|),
                     Cooling(LastSwitch(steps), |steps|, u.cooldown), target, s)
    ensures FollowsAt(phases, initial, tc, u, steps + [s], |steps|)
  {
    var more, n := steps + [s], |steps|;
    assert more[..n] == steps && CurrentAt(initial, more, n) == CurrentAt(initial, steps, n);
    assert Chooses(phases[n], tc, u, CurrentAt(initial, more, n), Cooling(LastSwitch(more[..n]), n, u.cooldown), target, more[n]);
  }

  /** Whether a step follows the rule depends only on the steps up to it. */
  lemma FollowsShift(phases: seq<Phase>, initial: Text, tc: Transitions, u: Tuning, a: seq<Step>, b: seq<Step>, i: nat)
    requires i < |a| <= |phases| && i < |b| <= |phases| && a[..i + 1] == b[..i + 1]
    requires FollowsAt(phases, initial, tc, u, a, i)
    ensures FollowsAt(phases, initial, tc, u, b, i)
  {
    assert a[..i] == a[..i + 1][..i] && b[..i] == b[..i + 1][..i];
    assert a[i] == a[..i + 1][i] && b[i] == b[..i + 1][i];
    assert CurrentAt(initial, a, i) == CurrentAt(initial, b, i) by {
      if i > 0 { assert a[i - 1] == a[..i + 1][i - 1] && b[i - 1] == b[..i + 1][i - 1]; }
    }
    var target :| Chooses(phases[i], tc, u, CurrentAt(initial, a, i), Cooling(LastSwitch(a[..i]), i, u.cooldown), target, a[i]);
    assert Chooses(phases[i], tc, u, CurrentAt(initial, b, i), Cooling(LastSwitch(b[..i]), i, u.cooldown), target, b[i]);
  }

  // ---- the rule, written out ----

  /** `target` costs least in the phase, and sorts first among those that cost as little. */
  ghost predicate LeastIn(p: Phase, target: Text) {
    target in p.costs &&
    forall c :: c in p.costs ==> p.costs[target] < p.costs[c] || (p.costs[target] == p.costs[c] && (target == c || Less(target, c)))
  }

  /** Some switch lies no more than the cooldown back. */
  ghost predicate JustSwitched(steps: seq<Step>, i: nat, cooldown: int)
    requires i <= |steps|
  {
    exists j :: 0 <= j < i && steps[j].switched && i <= j + cooldown
  }

  /** The policy switches to the least candidate exactly if that is another one, the cooldown is
      over, and what the phase saves exceeds factor * transition * (1 + margin). */
  ghost predicate RuleAt(phases: seq<Phase>, initial: Text, tc: Transitions, u: Tuning, steps: seq<Step>, i: nat)
    requires i < |steps| <= |phases|
  {
    var current := CurrentAt(initial, steps, i);
    && current in phases[i].costs
    && exists target :: RuleFor(phases[i], tc, u, current, JustSwitched(steps, i, u.cooldown), target, steps[i])
  }

  ghost predicate RuleFor(p: Phase, tc: Transitions, u: Tuning, current: Text, cooling: bool, target: Text, s: Step)
    requires current in p.costs
  {
    && LeastIn(p, target)
    && (current == target || (current, target) in tc)
    && (s.switched <==>
          && current != target && !cooling
          && var saved := p.queries as real * p.costs[current] - p.queries as real * p.costs[target];
             (if saved > 0.0 then saved else 0.0) > u.factor * tc[(current, target)] * (1.0 + u.margin))
    && s.candidate == (if s.switched then target else current)
  }

  lemma ChoosesIsRule(p: Phase, tc: Transitions, u: Tuning, current: Text, cooling: bool, target: Text, s: Step)
    requires Chooses(p, tc, u, current, cooling, target, s)
    ensures RuleFor(p, tc, u, current, cooling, target, s)
  {
  }

  lemma FollowsRule(phases: seq<Phase>, initial: Text, tc: Transitions, u: Tuning, steps: seq<Step>, i: nat)
    requires |steps| <= |phases| && i < |steps| && FollowsAt(phases, initial, tc, u, steps, i)
    ensures RuleAt(phases, initial, tc, u, steps, i)
  {
    var current, last := CurrentAt(initial, steps, i), LastSwitch(steps[..i]);
    var target :| Chooses(phases[i], tc, u, current, Cooling(last, i, u.cooldown), target, steps[i]);
    CoolingIff(steps, i, u.cooldown);
    ChoosesIsRule(phases[i], tc, u, current, Cooling(last, i, u.cooldown), target, steps[i]);
  }

  lemma CoolingIff(steps: seq<Step>, i: nat, cooldown: int)
    requires i <= |steps|
    ensures Cooling(LastSwitch(steps[..i]), i, cooldown) <==> JustSwitched(steps, i, cooldown)
  {
    var last := LastSwitch(steps[..i]);
    if last.Some? && i <= last.value + cooldown {
      assert steps[last.value].switched;
    }
    if j :| 0 <= j < i && steps[j].switched && i <= j + cooldown {
      assert steps[..i][j].switched;
    }
  }

  /** The loop of `evaluate_transition_aware`. */
  method FollowRule(phases: seq<Phase>, initial: Text, tc: Transitions, u: Tuning) returns (res: Option<seq<Step>>)
    requires HaveCandidates(phases)
    ensures res.Some? ==> |res.value| == |phases| && Follows(phases, initial, tc, u, res.value)
    ensures res.None? ==> exists steps :: StuckAfter(phases, initial, tc, u, steps)
  {
    var current := initial;
    var lastSwitch: Option<nat> := None;
    var steps := [];
    var index := 0;
    while index < |phases|
      invariant 0 <= index <= |phases| && |steps| == index
      invariant Follows(phases, initial, tc, u, steps)
      invariant current == CurrentAt(initial, steps, index) && lastSwitch == LastSwitch(steps)
    {
      var phase := phases[index];
      if current !in phase.costs {
        assert StuckAfter(phases, initial, tc, u, steps);
        return None;
      }
      var target := Cheapest(phase.costs);
      var transition := TransitionCost(tc, current, target);
      if transition.None? {
        assert StuckAfter(phases, initial, tc, u, steps);
        return None;
      }
      var cooling := Cooling(lastSwitch, index, u.cooldown);
      var switch := target != current && !cooling && Worthwhile(phase, u, current, target, transition.value);
      var selected := if switch then target else current;
      var step := Step(phase.id, selected, Execution(phase, selected), if switch then transition.value else 0.0, switch);
      assert Chooses(phase, tc, u, current, cooling, target, step);
      assert Records(phase, tc, current, step);
      FollowOneMore(phases, initial, tc, u, steps, target, step);
      LastSwitchSnoc(steps, step);
      steps := steps + [step];
      if switch {
        current := selected;
        lastSwitch := Some(index);
      }
      index := index + 1;
    }
    return Some(steps);
  }

  lemma LastSwitchSnoc(steps: seq<Step>, s: Step)
    ensures LastSwitch(steps + [s]) == if s.switched then Some(|steps|) else LastSwitch(steps)
  {
    assert (steps + [s])[..|steps|] == steps;
  }

  /** `evaluate_transition_aware`: it succeeds exactly if the inputs are valid and the rule
      nowhere runs into a missing candidate or transition. */
  method EvaluateTransitionAware(phases: seq<Phase>, initial: Text, tc: Transitions, u: Tuning) returns (res: Option<PolicyResult>)
    ensures res.Some? <==> && Acceptable(phases, initial, tc)
                           && u.factor >= 0.0 && u.margin >= 0.0 && u.cooldown >= 0
                           && !exists steps :: StuckAfter(phases, initial, tc, u, steps)
    ensures res.Some? ==>
              && Reports(phases, initial, tc, res.value) && Follows(phases, initial, tc, u, res.value.steps)
              && Accounts(phases, initial, tc, res.value)
              && forall i :: 0 <= i < |phases| ==> RuleAt(phases, initial, tc, u, res.value.steps, i)
  {
    AcceptableIff(phases, initial, tc);
    if !ValidInputs(phases, initial, tc) || !ValidTuning(u) {
      return None;
    }
    var steps := FollowRule(phases, initial, tc, u);
    if steps.None? {
      return None;
    }
    FinishedReports(phases, initial, tc, steps.value);
    ReportsAccounts(phases, initial, tc, Finish(initial, steps.value));
    forall i | 0 <= i < |phases| ensures RuleAt(phases, initial, tc, u, steps.value, i) {
      FollowsRule(phases, initial, tc, u, steps.value, i);
    }
    forall before ensures !StuckAfter(phases, initial, tc, u, before) {
      NotStuck(phases, initial, tc, u, steps.value, before);
    }
    return Some(Finish(initial, steps.value));
  }

  // ---- the rule determines the run ----

  lemma {:induction false} RuleDetermines(phases: seq<Phase>, initial: Text, tc: Transitions, u: Tuning,
                                          a: seq<Step>, b: seq<Step>, k: nat)
    requires Follows(phases, initial, tc, u, a) && Follows(phases, initial, tc, u, b)
    requires k <= |a| && k <= |b|
    ensures a[..k] == b[..k]
  {
    if k > 0 {
      RuleDetermines(phases, initial, tc, u, a, b, k - 1);
      assert CurrentAt(initial, a, k - 1) == CurrentAt(initial, b, k - 1) by {
        if k > 1 { assert a[..k - 1][k - 2] == b[..k - 1][k - 2]; }
      }
      SameChoice(phases, initial, tc, u, a, b, k - 1);
      assert a[..k] == a[..k - 1] + [a[k - 1]] && b[..k] == b[..k - 1] + [b[k - 1]];
    }
  }

  lemma SameChoice(phases: seq<Phase>, initial: Text, tc: Transitions, u: Tuning, a: seq<Step>, b: seq<Step>, i: nat)
    requires i < |a| <= |phases| && i < |b| <= |phases| && a[..i] == b[..i]
    requires CurrentAt(initial, a, i) == CurrentAt(initial, b, i)
    requires FollowsAt(phases, initial, tc, u, a, i) && FollowsAt(phases, initial, tc, u, b, i)
    requires RecordedAt(phases, initial, tc, a, i) && RecordedAt(phases, initial, tc, b, i)
    ensures a[i] == b[i]
  {
    var p, current, cooling := phases[i], CurrentAt(initial, a, i), Cooling(LastSwitch(a[..i]), i, u.cooldown);
    var x :| Chooses(p, tc, u, current, cooling, x, a[i]);
    var y :| Chooses(p, tc, u, current, cooling, y, b[i]);
    CheapestIsUnique(p.costs, x, y);
  }

  lemma NotStuck(phases: seq<Phase>, initial: Text, tc: Transitions, u: Tuning, steps: seq<Step>, before: seq<Step>)
    requires Follows(phases, initial, tc, u, steps) && |steps| == |phases|
    ensures !StuckAfter(phases, initial, tc, u, before)
  {
    if StuckAfter(phases, initial, tc, u, before) {
      var n := |before|;
      RuleDetermines(phases, initial, tc, u, steps, before, n);
      assert before[..n] == before;
      var current := CurrentAt(initial, before, n);
      assert CurrentAt(initial, steps, n) == current by {
        if n > 0 { assert steps[..n][n - 1] == before[n - 1]; }
      }
      assert FollowsAt(phases, initial, tc, u, steps, n);
      var x :| Chooses(phases[n], tc, u, current, Cooling(LastSwitch(steps[..n]), n, u.cooldown), x, steps[n]);
      var y :| IsCheapest(phases[n].costs, y) && TransitionCost(tc, current, y).None?;
      CheapestIsUnique(phases[n].costs, x, y);
    }
  }

  // ---- spacing ----

  /** Any two switches are at least cooldown + 1 phases apart. */
  lemma SwitchesSpaced(phases: seq<Phase>, initial: Text, tc: Transitions, u: Tuning, steps: seq<Step>, i: nat, j: nat)
    requires Follows(phases, initial, tc, u, steps) && i < j < |steps|
    requires steps[i].switched && steps[j].switched
    ensures j - i >= u.cooldown + 1
  {
    assert FollowsAt(phases, initial, tc, u, steps, j);
    assert steps[..j][i] == steps[i];
  }

  lemma {:induction false} SwitchesUpTo(phases: seq<Phase>, initial: Text, tc: Transitions, u: Tuning, steps: seq<Step>, n: nat)
    requires Follows(phases, initial, tc, u, steps) && n <= |steps| && u.cooldown >= 0
    ensures var last := LastSwitch(steps[..n]);
            CountSwitched(steps[..n]) * (u.cooldown + 1) <= if last.Some? then last.value + u.cooldown + 1 else 0
  {
    if n > 0 {
      SwitchesUpTo(phases, initial, tc, u, steps, n - 1);
      assert steps[..n][..n - 1] == steps[..n - 1];
      var before := LastSwitch(steps[..n - 1]);
      var count := CountSwitched(steps[..n - 1]);
      if steps[n - 1].switched {
        if before.Some? {
          SwitchesSpaced(phases, initial, tc, u, steps, before.value, n - 1);
        } else {
          assert count == 0 by { NoSwitchNoCount(steps[..n - 1]); }
        }
        assert (count + 1) * (u.cooldown + 1) == count * (u.cooldown + 1) + (u.cooldown + 1);
      }
    }
  }

  lemma {:induction false} NoSwitchNoCount(steps: seq<Step>)
    requires LastSwitch(steps).None?
    ensures CountSwitched(steps) == 0
  {
    if steps != [] {
      NoSwitchNoCount(steps[..|steps| - 1]);
    }
  }

  /** At most ceil(n / (cooldown + 1)) switches in n phases. */
  lemma SwitchesBounded(phases: seq<Phase>, initial: Text, tc: Transitions, u: Tuning, steps: seq<Step>)
    requires Follows(phases, initial, tc, u, steps) && u.cooldown >= 0
    ensures CountSwitched(steps) <= (|steps| + u.cooldown) / (u.cooldown + 1)
  {
    SwitchesUpTo(phases, initial, tc, u, steps, |steps|);
    assert steps[..|steps|] == steps;
    var c, k := CountSwitched(steps), u.cooldown + 1;
    assert c * k <= |steps| + u.cooldown;
    DivideBound(c, k, |steps| + u.cooldown);
  }

  lemma DivideBound(c: nat, k: int, n: int)
    requires k > 0 && n >= 0 && c * k <= n
    ensures c <= n / k
  {
    var q := n / k;
    assert n == q * k + n % k;
    assert (q + 1) * k == q * k + k;
    if c > q {
      MulMonotone(q + 1, c, k);
    }
  }

  lemma MulMonotone(a: int, b: int, k: int)
    requires a <= b && k > 0
    ensures a * k <= b * k
  {
  }

  // ---- what a run costs against its incumbents ----

  /** What the candidates in force at the start of each phase would have cost there. */
  ghost function IncumbentCost(phases: seq<Phase>, initial: Text, tc: Transitions, u: Tuning, steps: seq<Step>): real
    requires Follows(phases, initial, tc, u, steps)
  {
    if steps == [] then 0.0
    else
      var n := |steps| - 1;
      FollowsPrefix(phases, initial, tc, u, steps);
      assert FollowsAt(phases, initial, tc, u, steps, n);
      IncumbentCost(phases, initial, tc, u, steps[..n]) + Execution(phases[n], CurrentAt(initial, steps, n))
  }

  lemma FollowsPrefix(phases: seq<Phase>, initial: Text, tc: Transitions, u: Tuning, steps: seq<Step>)
    requires Follows(phases, initial, tc, u, steps) && steps != []
    ensures Follows(phases, initial, tc, u, steps[..|steps| - 1])
  {
    var n := |steps| - 1;
    RecordPrefix(phases, initial, tc, steps);
    forall i | 0 <= i < n ensures FollowsAt(phases, initial, tc, u, steps[..n], i) {
      assert FollowsAt(phases, initial, tc, u, steps, i);
      assert steps[..n][..i + 1] == steps[..i + 1];
      FollowsShift(phases, initial, tc, u, steps, steps[..n], i);
    }
  }

  lemma ThresholdCovers(u: Tuning, transition: real)
    requires u.factor * (1.0 + u.margin) >= 1.0 && transition >= 0.0
    ensures Threshold(u, transition) >= transition
  {
    var k := u.factor * (1.0 + u.margin);
    assert Threshold(u, transition) == transition * k;
    ScaleUp(transition, k);
  }

  lemma ScaleUp(t: real, k: real)
    requires t >= 0.0 && k >= 1.0
    ensures t * k >= t
  {
    assert t * (k - 1.0) >= 0.0;
  }

  /** One step never costs more than its incumbent if the threshold covers the transition. */
  lemma StepBelowIncumbent(p: Phase, tc: Transitions, u: Tuning, current: Text, cooling: bool, target: Text, s: Step)
    requires Chooses(p, tc, u, current, cooling, target, s) && Records(p, tc, current, s)
    requires u.factor * (1.0 + u.margin) >= 1.0
    ensures s.execution + s.transition <= Execution(p, current)
  {
    if s.switched {
      var t := TransitionCost(tc, current, target).value;
      assert t >= 0.0;
      ThresholdCovers(u, t);
    }
  }

  /** If factor * (1 + margin) >= 1, a run costs at most what the incumbent of each phase
      would have cost there. */
  lemma {:induction false} NeverWorseThanIncumbents(phases: seq<Phase>, initial: Text, tc: Transitions, u: Tuning, steps: seq<Step>)
    requires Follows(phases, initial, tc, u, steps)
    requires u.factor * (1.0 + u.margin) >= 1.0
    ensures SumExecution(steps) + SumTransition(steps) <= IncumbentCost(phases, initial, tc, u, steps)
  {
    if steps != [] {
      var n := |steps| - 1;
      FollowsPrefix(phases, initial, tc, u, steps);
      NeverWorseThanIncumbents(phases, initial, tc, u, steps[..n]);
      assert FollowsAt(phases, initial, tc, u, steps, n) && RecordedAt(phases, initial, tc, steps, n);
      var current, cooling := CurrentAt(initial, steps, n), Cooling(LastSwitch(steps[..n]), n, u.cooldown);
      var target :| Chooses(phases[n], tc, u, current, cooling, target, steps[n]);
      StepBelowIncumbent(phases[n], tc, u, current, cooling, target, steps[n]);
    }
  }

  lemma NonNegativeProduct(x: real, y: real)
    requires x >= 0.0 && y >= 0.0
    ensures x * y >= 0.0
  {
  }

  /** Valid inputs on which the run costs more than its incumbents. */
  ghost predicate LosesOn(phases: seq<Phase>, initial: Text, tc: Transitions, u: Tuning, steps: seq<Step>) {
    && ValidInputs(phases, initial, tc) && |steps| == |phases|
    && Follows(phases, initial, tc, u, steps)
    && SumExecution(steps) + SumTransition(steps) > IncumbentCost(phases, initial, tc, u, steps)
  }

  /** Otherwise the bound fails for some input: with factor * (1 + margin) < 1 a single
      phase with candidates of cost `b` and 0 and a transition of cost 1, `b` between the
      two, is switched at a loss. The margin condition is therefore exact. */
  lemma WorseThanIncumbent(u: Tuning, id: Text, a: Text, c: Text)
    requires ValidTuning(u) && u.factor * (1.0 + u.margin) < 1.0
    requires Strip(id) != [] && Strip(a) != [] && Strip(c) != [] && a != c
    ensures exists phases, tc, steps :: LosesOn(phases, a, tc, u, steps)
  {
    var b := BetweenThresholdAndOne(u);
    LossyInputs(id, a, c, b);
    LossyChoice(u, id, a, c, b);
    LossySwitch([LossyPhase(id, a, c, b)], a, map[(a, c) := 1.0], u, c, Step(id, c, 0.0, 1.0, true));
  }

  lemma BetweenThresholdAndOne(u: Tuning) returns (b: real)
    requires ValidTuning(u) && u.factor * (1.0 + u.margin) < 1.0
    ensures 0.0 <= Threshold(u, 1.0) < b < 1.0
  {
    var k := u.factor * (1.0 + u.margin);
    NonNegativeProduct(u.factor, 1.0 + u.margin);
    assert Threshold(u, 1.0) == k;
    b := (k + 1.0) / 2.0;
  }

  function LossyPhase(id: Text, a: Text, c: Text, b: real): Phase {
    Phase(id, 1, map[a := b, c := 0.0])
  }

  lemma LossyInputs(id: Text, a: Text, c: Text, b: real)
    requires Strip(id) != [] && Strip(a) != [] && Strip(c) != [] && b >= 0.0
    ensures ValidInputs([LossyPhase(id, a, c, b)], a, map[(a, c) := 1.0])
  {
    var p := LossyPhase(id, a, c, b);
    assert a in p.costs;
    assert ValidPhase(p);
  }

  lemma LossyChoice(u: Tuning, id: Text, a: Text, c: Text, b: real)
    requires a != c && 0.0 <= Threshold(u, 1.0) < b
    ensures var p, s := LossyPhase(id, a, c, b), Step(id, c, 0.0, 1.0, true);
            && Records(p, map[(a, c) := 1.0], a, s)
            && Chooses(p, map[(a, c) := 1.0], u, a, false, c, s)
            && Execution(p, a) == b
  {
    var p := LossyPhase(id, a, c, b);
    assert Execution(p, a) == b && Execution(p, c) == 0.0;
    assert IsCheapest(p.costs, c);
  }

  lemma LossySwitch(phases: seq<Phase>, initial: Text, tc: Transitions, u: Tuning, target: Text, s: Step)
    requires |phases| == 1 && ValidInputs(phases, initial, tc)
    requires Records(phases[0], tc, initial, s) && Chooses(phases[0], tc, u, initial, false, target, s)
    requires s.execution + s.transition > Execution(phases[0], initial)
    ensures LosesOn(phases, initial, tc, u, [s])
  {
    var none: seq<Step> := [];
    assert none + [s] == [s];
    FollowOneMore(phases, initial, tc, u, none, target, s);
    assert [s][..0] == none;
    assert SumExecution(none) == 0.0 && SumTransition(none) == 0.0;
    assert IncumbentCost(phases, initial, tc, u, none) == 0.0;
  }
}
