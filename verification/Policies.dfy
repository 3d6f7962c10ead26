/** Adaptation policies over a finite sequence of workload phases: what a choice of one
    candidate per phase costs, and the three online policies. */
module Policies {
  import opened Wrappers
  import opened Text

  datatype Phase = Phase(id: Text, queries: int, costs: map<Text, real>)

  type Transitions = map<(Text, Text), real>

  datatype Step = Step(phase: Text, candidate: Text, execution: real, transition: real, switched: bool)

  datatype PolicyResult = PolicyResult(
    initial: Text,
    final: Text,
    execution: real,
    transition: real,
    cumulative: real,
    switches: nat,
    steps: seq<Step>)

  // ---- validation ----

  predicate ValidPhase(p: Phase) {
    && Strip(p.id) != []
    && p.queries > 0
    && p.costs != map[]
    && forall c :: c in p.costs ==> Strip(c) != [] && p.costs[c] >= 0.0
  }

  predicate ValidTransitions(tc: Transitions) {
    forall ab :: ab in tc ==> Strip(ab.0) != [] && Strip(ab.1) != [] && tc[ab] >= 0.0
  }

  /** `_validate_inputs` */
  predicate ValidInputs(phases: seq<Phase>, initial: Text, tc: Transitions) {
    && Strip(initial) != []
    && phases != []
    && (forall i :: 0 <= i < |phases| ==> ValidPhase(phases[i]) && initial in phases[i].costs)
    && ValidTransitions(tc)
  }

  // ---- costs ----

  /** `_transition_cost`; an undeclared transition raises. */
  function TransitionCost(tc: Transitions, source: Text, target: Text): Option<real> {
    if source == target then Some(0.0)
    else if (source, target) !in tc then None
    else if tc[(source, target)] < 0.0 then None
    else Some(tc[(source, target)])
  }

  function Execution(p: Phase, candidate: Text): real
    requires candidate in p.costs
  {
    p.queries as real * p.costs[candidate]
  }

  /** The candidate in force when phase `i` begins. */
  function Entering(initial: Text, path: seq<Text>, i: nat): Text
    requires i <= |path|
  {
    if i == 0 then initial else path[i - 1]
  }

  /** One candidate of each of the first phases. */
  predicate IsPath(phases: seq<Phase>, path: seq<Text>) {
    |path| <= |phases| && forall i :: 0 <= i < |path| ==> path[i] in phases[i].costs
  }

  /** The transition into phase `i` has a cost. */
  predicate Enterable(initial: Text, tc: Transitions, path: seq<Text>, i: nat)
    requires i < |path|
  {
    TransitionCost(tc, Entering(initial, path, i), path[i]).Some?
  }

  predicate IsLegal(phases: seq<Phase>, initial: Text, tc: Transitions, path: seq<Text>) {
    && IsPath(phases, path)
    && forall i :: 0 <= i < |path| ==> Enterable(initial, tc, path, i)
  }

  /** What is paid for entering and running one more phase. */
  function StageCost(p: Phase, tc: Transitions, current: Text, candidate: Text): real
    requires candidate in p.costs && TransitionCost(tc, current, candidate).Some?
  {
    TransitionCost(tc, current, candidate).value + Execution(p, candidate)
  }

  lemma LegalPrefix(phases: seq<Phase>, initial: Text, tc: Transitions, path: seq<Text>)
    requires IsLegal(phases, initial, tc, path) && path != []
    ensures IsLegal(phases, initial, tc, path[..|path| - 1])
  {
    var n := |path| - 1;
    forall i | 0 <= i < n ensures Enterable(initial, tc, path[..n], i) {
      assert Enterable(initial, tc, path, i);
    }
  }

  function PathCost(phases: seq<Phase>, initial: Text, tc: Transitions, path: seq<Text>): real
    requires IsLegal(phases, initial, tc, path)
  {
    if path == [] then 0.0
    else
      var n := |path| - 1;
      LegalPrefix(phases, initial, tc, path);
      assert Enterable(initial, tc, path, n);
      PathCost(phases, initial, tc, path[..n]) + StageCost(phases[n], tc, Entering(initial, path, n), path[n])
  }

  lemma PathCostSnoc(phases: seq<Phase>, initial: Text, tc: Transitions, path: seq<Text>, c: Text)
    requires IsLegal(phases, initial, tc, path) && |path| < |phases| && c in phases[|path|].costs
    requires TransitionCost(tc, Entering(initial, path, |path|), c).Some?
    ensures IsLegal(phases, initial, tc, path + [c])
    ensures PathCost(phases, initial, tc, path + [c]) ==
            PathCost(phases, initial, tc, path) + StageCost(phases[|path|], tc, Entering(initial, path, |path|), c)
  {
    var more := path + [c];
    LegalSnoc(phases, initial, tc, path, c);
    assert more[..|path|] == path;
    assert Entering(initial, more, |path|) == Entering(initial, path, |path|);
  }

  lemma LegalSnoc(phases: seq<Phase>, initial: Text, tc: Transitions, path: seq<Text>, c: Text)
    requires IsLegal(phases, initial, tc, path) && |path| < |phases| && c in phases[|path|].costs
    requires TransitionCost(tc, Entering(initial, path, |path|), c).Some?
    ensures IsLegal(phases, initial, tc, path + [c])
  {
    var more := path + [c];
    forall i | 0 <= i < |more| ensures Enterable(initial, tc, more, i) {
      assert Entering(initial, more, i) == Entering(initial, path, i);
      if i < |path| { assert Enterable(initial, tc, path, i); }
    }
  }

  // ---- steps and the reported result ----

  function Candidates(steps: seq<Step>): (path: seq<Text>)
    ensures |path| == |steps| && forall i :: 0 <= i < |steps| ==> path[i] == steps[i].candidate
  {
    seq(|steps|, i requires 0 <= i < |steps| => steps[i].candidate)
  }

  function CurrentAt(initial: Text, steps: seq<Step>, i: nat): Text
    requires i <= |steps|
  {
    if i == 0 then initial else steps[i - 1].candidate
  }

  /** A step that records the choice of a candidate and what it costs. */
  predicate Records(p: Phase, tc: Transitions, current: Text, s: Step) {
    && s.phase == p.id
    && s.candidate in p.costs
    && TransitionCost(tc, current, s.candidate) == Some(s.transition)
    && s.execution == Execution(p, s.candidate)
    && s.switched == (s.candidate != current)
  }

  predicate RecordedAt(phases: seq<Phase>, initial: Text, tc: Transitions, steps: seq<Step>, i: nat)
    requires i < |steps| <= |phases|
  {
    Records(phases[i], tc, CurrentAt(initial, steps, i), steps[i])
  }

  predicate AllRecord(phases: seq<Phase>, initial: Text, tc: Transitions, steps: seq<Step>) {
    |steps| <= |phases| && forall i :: 0 <= i < |steps| ==> RecordedAt(phases, initial, tc, steps, i)
  }

  lemma RecordPrefix(phases: seq<Phase>, initial: Text, tc: Transitions, steps: seq<Step>)
    requires AllRecord(phases, initial, tc, steps) && steps != []
    ensures AllRecord(phases, initial, tc, steps[..|steps| - 1])
  {
    var n := |steps| - 1;
    forall i | 0 <= i < n ensures RecordedAt(phases, initial, tc, steps[..n], i) {
      assert RecordedAt(phases, initial, tc, steps, i);
    }
  }

  function SumExecution(steps: seq<Step>): real {
    if steps == [] then 0.0 else SumExecution(steps[..|steps| - 1]) + steps[|steps| - 1].execution
  }

  function SumTransition(steps: seq<Step>): real {
    if steps == [] then 0.0 else SumTransition(steps[..|steps| - 1]) + steps[|steps| - 1].transition
  }

  function CountSwitched(steps: seq<Step>): nat {
    if steps == [] then 0 else CountSwitched(steps[..|steps| - 1]) + if steps[|steps| - 1].switched then 1 else 0
  }

  /** `_finish` */
  function Finish(initial: Text, steps: seq<Step>): PolicyResult
    requires steps != []
  {
    PolicyResult(initial, steps[|steps| - 1].candidate, SumExecution(steps), SumTransition(steps),
                 SumExecution(steps) + SumTransition(steps), CountSwitched(steps), steps)
  }

  /** What recorded steps add up to is the cost of the path they took. */
  lemma {:induction false} StepsCostPath(phases: seq<Phase>, initial: Text, tc: Transitions, steps: seq<Step>)
    requires AllRecord(phases, initial, tc, steps)
    ensures IsLegal(phases, initial, tc, Candidates(steps))
    ensures SumExecution(steps) + SumTransition(steps) == PathCost(phases, initial, tc, Candidates(steps))
  {
    if steps != [] {
      var n := |steps| - 1;
      var before := steps[..n];
      RecordPrefix(phases, initial, tc, steps);
      StepsCostPath(phases, initial, tc, before);
      assert Entering(initial, Candidates(before), n) == CurrentAt(initial, steps, n);
      assert RecordedAt(phases, initial, tc, steps, n);
      PathCostSnoc(phases, initial, tc, Candidates(before), steps[n].candidate);
      assert Candidates(steps) == Candidates(before) + [steps[n].candidate];
    }
  }

  /** A result reports its own path: every figure in it is the figure of that path. */
  ghost predicate Reports(phases: seq<Phase>, initial: Text, tc: Transitions, res: PolicyResult) {
    && |res.steps| == |phases| && phases != []
    && AllRecord(phases, initial, tc, res.steps)
    && IsLegal(phases, initial, tc, Candidates(res.steps))
    && res == Finish(initial, res.steps)
    && res.cumulative == PathCost(phases, initial, tc, Candidates(res.steps))
  }

  lemma FinishedReports(phases: seq<Phase>, initial: Text, tc: Transitions, steps: seq<Step>)
    requires AllRecord(phases, initial, tc, steps) && |steps| == |phases| && phases != []
    ensures Reports(phases, initial, tc, Finish(initial, steps))
  {
    StepsCostPath(phases, initial, tc, steps);
  }

  lemma RecordOneMore(phases: seq<Phase>, initial: Text, tc: Transitions, steps: seq<Step>, s: Step)
    requires AllRecord(phases, initial, tc, steps) && |steps| < |phases|
    requires Records(phases[|steps|], tc, CurrentAt(initial, steps, |steps|), s)
    ensures AllRecord(phases, initial, tc, steps + [s])
  {
    var more := steps + [s];
    forall i | 0 <= i < |more| ensures RecordedAt(phases, initial, tc, more, i) {
      assert CurrentAt(initial, more, i) == CurrentAt(initial, steps, i);
      if i < |steps| { assert RecordedAt(phases, initial, tc, steps, i); }
    }
  }

  // ---- the same, written out ----

  /** The inputs the program accepts: nothing blank, at least one phase, each with queries and
      with costs that are not negative, the initial candidate among them, no negative transition. */
  ghost predicate Acceptable(phases: seq<Phase>, initial: Text, tc: Transitions) {
    && |phases| > 0 && NotBlank(initial)
    && (forall p :: p in phases ==>
          && NotBlank(p.id) && p.queries >= 1 && initial in p.costs
          && forall c :: c in p.costs ==> NotBlank(c) && 0.0 <= p.costs[c])
    && (forall a, b :: (a, b) in tc ==> NotBlank(a) && NotBlank(b) && 0.0 <= tc[(a, b)])
  }

  predicate NotBlank(s: Text) {
    exists i :: 0 <= i < |s| && !IsSpace(s[i])
  }

  lemma AcceptableIff(phases: seq<Phase>, initial: Text, tc: Transitions)
    ensures ValidInputs(phases, initial, tc) <==> Acceptable(phases, initial, tc)
  {
    forall s: Text ensures Strip(s) != [] <==> NotBlank(s) {
      BlankIff(s);
    }
    if Acceptable(phases, initial, tc) {
      forall i | 0 <= i < |phases| ensures ValidPhase(phases[i]) && initial in phases[i].costs {
        assert phases[i] in phases;
      }
      forall ab | ab in tc ensures Strip(ab.0) != [] && Strip(ab.1) != [] && tc[ab] >= 0.0 {
        assert (ab.0, ab.1) in tc;
      }
    }
    if ValidInputs(phases, initial, tc) {
      forall p | p in phases ensures ValidPhase(p) && initial in p.costs {
        var i :| 0 <= i < |phases| && phases[i] == p;
      }
    }
  }

  function Before(initial: Text, path: seq<Text>, i: nat): Text
    requires i <= |path|
  {
    if i == 0 then initial else path[i - 1]
  }

  /** Each phase runs a candidate it knows, and each change of candidate is declared. */
  predicate Walkable(phases: seq<Phase>, initial: Text, tc: Transitions, path: seq<Text>) {
    && |path| <= |phases|
    && (forall i :: 0 <= i < |path| ==> path[i] in phases[i].costs)
    && (forall i :: 0 <= i < |path| ==> WalksAt(initial, tc, path, i))
  }

  predicate WalksAt(initial: Text, tc: Transitions, path: seq<Text>, i: nat)
    requires i < |path|
  {
    Before(initial, path, i) == path[i] || (Before(initial, path, i), path[i]) in tc
  }

  /** What the change into phase `i` costs, if there is one. */
  function ChangeCost(initial: Text, tc: Transitions, path: seq<Text>, i: nat): real
    requires i < |path| && WalksAt(initial, tc, path, i)
  {
    if Before(initial, path, i) == path[i] then 0.0 else tc[(Before(initial, path, i), path[i])]
  }

  /** Queries times cost per query, phase by phase. */
  function ExecutionTotal(phases: seq<Phase>, path: seq<Text>): real
    requires |path| <= |phases| && forall i :: 0 <= i < |path| ==> path[i] in phases[i].costs
  {
    if path == [] then 0.0
    else
      var n := |path| - 1;
      ExecutionTotal(phases, path[..n]) + phases[n].queries as real * phases[n].costs[path[n]]
  }

  /** The declared cost of each change of candidate. */
  function TransitionTotal(phases: seq<Phase>, initial: Text, tc: Transitions, path: seq<Text>): real
    requires Walkable(phases, initial, tc, path)
  {
    if path == [] then 0.0
    else
      var n := |path| - 1;
      assert Walkable(phases, initial, tc, path[..n]) by { WalkableBefore(phases, initial, tc, path, n); }
      TransitionTotal(phases, initial, tc, path[..n]) + ChangeCost(initial, tc, path, n)
  }

  lemma WalkableBefore(phases: seq<Phase>, initial: Text, tc: Transitions, path: seq<Text>, n: nat)
    requires Walkable(phases, initial, tc, path) && n <= |path|
    ensures Walkable(phases, initial, tc, path[..n])
  {
    forall i | 0 <= i < n ensures WalksAt(initial, tc, path[..n], i) {
      assert WalksAt(initial, tc, path, i);
    }
  }

  /** The figures of a result are those of the path it took. */
  ghost predicate Accounts(phases: seq<Phase>, initial: Text, tc: Transitions, res: PolicyResult) {
    var path := Candidates(res.steps);
    && |res.steps| == |phases| > 0
    && Walkable(phases, initial, tc, path)
    && res.initial == initial && res.final == path[|path| - 1]
    && (forall i :: 0 <= i < |phases| ==> AccountsAt(phases, initial, tc, path, res.steps, i))
    && res.execution == ExecutionTotal(phases, path)
    && res.transition == TransitionTotal(phases, initial, tc, path)
    && res.cumulative == ExecutionTotal(phases, path) + TransitionTotal(phases, initial, tc, path)
    && res.switches == |set i: nat | i < |path| && path[i] != Before(initial, path, i)|
  }

  ghost predicate AccountsAt(phases: seq<Phase>, initial: Text, tc: Transitions, path: seq<Text>, steps: seq<Step>, i: nat)
    requires Walkable(phases, initial, tc, path) && i < |path| == |steps|
  {
    && steps[i].phase == phases[i].id
    && steps[i].candidate == path[i]
    && steps[i].execution == phases[i].queries as real * phases[i].costs[path[i]]
    && WalksAt(initial, tc, path, i) && steps[i].transition == ChangeCost(initial, tc, path, i)
    && steps[i].switched == (path[i] != Before(initial, path, i))
  }

  lemma LegalIsWalkable(phases: seq<Phase>, initial: Text, tc: Transitions, path: seq<Text>)
    requires IsLegal(phases, initial, tc, path)
    ensures Walkable(phases, initial, tc, path)
  {
    forall i | 0 <= i < |path| ensures WalksAt(initial, tc, path, i) {
      assert Enterable(initial, tc, path, i);
    }
  }

  lemma WalkableIsLegal(phases: seq<Phase>, initial: Text, tc: Transitions, path: seq<Text>)
    requires Walkable(phases, initial, tc, path) && forall ab :: ab in tc ==> tc[ab] >= 0.0
    ensures IsLegal(phases, initial, tc, path)
  {
    forall i | 0 <= i < |path| ensures Enterable(initial, tc, path, i) {
      assert WalksAt(initial, tc, path, i);
    }
  }

  lemma {:induction false} PathCostIs(phases: seq<Phase>, initial: Text, tc: Transitions, path: seq<Text>)
    requires IsLegal(phases, initial, tc, path)
    ensures Walkable(phases, initial, tc, path)
    ensures PathCost(phases, initial, tc, path) == ExecutionTotal(phases, path) + TransitionTotal(phases, initial, tc, path)
  {
    LegalIsWalkable(phases, initial, tc, path);
    if path != [] {
      var n := |path| - 1;
      LegalPrefix(phases, initial, tc, path);
      PathCostIs(phases, initial, tc, path[..n]);
      assert Enterable(initial, tc, path, n);
      assert ChangeCost(initial, tc, path, n) == TransitionCost(tc, Entering(initial, path, n), path[n]).value;
    }
  }

  lemma RecordsWalk(phases: seq<Phase>, initial: Text, tc: Transitions, steps: seq<Step>)
    requires AllRecord(phases, initial, tc, steps)
    ensures Walkable(phases, initial, tc, Candidates(steps))
  {
    forall i | 0 <= i < |steps| ensures WalksAt(initial, tc, Candidates(steps), i) && steps[i].candidate in phases[i].costs {
      assert RecordedAt(phases, initial, tc, steps, i);
      RecordedChange(phases, initial, tc, steps, i);
    }
  }

  lemma CandidatesBefore(steps: seq<Step>)
    requires steps != []
    ensures Candidates(steps)[..|steps| - 1] == Candidates(steps[..|steps| - 1])
  {
  }

  lemma {:induction false} StepExecutions(phases: seq<Phase>, initial: Text, tc: Transitions, steps: seq<Step>)
    requires AllRecord(phases, initial, tc, steps)
    ensures Walkable(phases, initial, tc, Candidates(steps))
    ensures SumExecution(steps) == ExecutionTotal(phases, Candidates(steps))
  {
    RecordsWalk(phases, initial, tc, steps);
    if steps != [] {
      RecordPrefix(phases, initial, tc, steps);
      StepExecutions(phases, initial, tc, steps[..|steps| - 1]);
      CandidatesBefore(steps);
      assert RecordedAt(phases, initial, tc, steps, |steps| - 1);
    }
  }

  lemma {:induction false} StepTransitions(phases: seq<Phase>, initial: Text, tc: Transitions, steps: seq<Step>)
    requires AllRecord(phases, initial, tc, steps)
    ensures Walkable(phases, initial, tc, Candidates(steps))
    ensures SumTransition(steps) == TransitionTotal(phases, initial, tc, Candidates(steps))
  {
    RecordsWalk(phases, initial, tc, steps);
    if steps != [] {
      var n := |steps| - 1;
      RecordPrefix(phases, initial, tc, steps);
      StepTransitions(phases, initial, tc, steps[..n]);
      CandidatesBefore(steps);
      assert RecordedAt(phases, initial, tc, steps, n);
      RecordedChange(phases, initial, tc, steps, n);
    }
  }

  lemma RecordedChange(phases: seq<Phase>, initial: Text, tc: Transitions, steps: seq<Step>, i: nat)
    requires i < |steps| <= |phases| && RecordedAt(phases, initial, tc, steps, i)
    ensures Before(initial, Candidates(steps), i) == CurrentAt(initial, steps, i)
    ensures WalksAt(initial, tc, Candidates(steps), i)
    ensures steps[i].transition == ChangeCost(initial, tc, Candidates(steps), i)
  {
  }

  function ChangedAt(initial: Text, path: seq<Text>): set<nat> {
    set i: nat | i < |path| && path[i] != Before(initial, path, i)
  }

  lemma {:induction false} SwitchTotal(phases: seq<Phase>, initial: Text, tc: Transitions, steps: seq<Step>)
    requires AllRecord(phases, initial, tc, steps)
    ensures CountSwitched(steps) == |ChangedAt(initial, Candidates(steps))|
  {
    if steps != [] {
      var n := |steps| - 1;
      RecordPrefix(phases, initial, tc, steps);
      SwitchTotal(phases, initial, tc, steps[..n]);
      assert RecordedAt(phases, initial, tc, steps, n);
      ChangedSnoc(initial, Candidates(steps));
      assert Candidates(steps)[..n] == Candidates(steps[..n]);
      assert Before(initial, Candidates(steps), n) == CurrentAt(initial, steps, n);
    } else {
      assert ChangedAt(initial, Candidates(steps)) == {};
    }
  }

  lemma ChangedSnoc(initial: Text, path: seq<Text>)
    requires path != []
    ensures var n := |path| - 1;
            |ChangedAt(initial, path)| == |ChangedAt(initial, path[..n])| + if path[n] != Before(initial, path, n) then 1 else 0
  {
    var n := |path| - 1;
    forall i | 0 <= i < n ensures Before(initial, path[..n], i) == Before(initial, path, i) {
    }
    assert ChangedAt(initial, path) == ChangedAt(initial, path[..n]) + if path[n] != Before(initial, path, n) then {n} else {};
  }

  lemma StepsAccount(phases: seq<Phase>, initial: Text, tc: Transitions, steps: seq<Step>, i: nat)
    requires AllRecord(phases, initial, tc, steps) && i < |steps|
    ensures Walkable(phases, initial, tc, Candidates(steps))
    ensures AccountsAt(phases, initial, tc, Candidates(steps), steps, i)
  {
    RecordsWalk(phases, initial, tc, steps);
    assert RecordedAt(phases, initial, tc, steps, i);
    RecordedChange(phases, initial, tc, steps, i);
  }

  /** What a policy reports, written out. */
  lemma ReportsAccounts(phases: seq<Phase>, initial: Text, tc: Transitions, res: PolicyResult)
    requires Reports(phases, initial, tc, res)
    ensures Accounts(phases, initial, tc, res)
  {
    var path := Candidates(res.steps);
    StepExecutions(phases, initial, tc, res.steps);
    StepTransitions(phases, initial, tc, res.steps);
    SwitchTotal(phases, initial, tc, res.steps);
    assert ChangedAt(initial, path) == set i: nat | i < |path| && path[i] != Before(initial, path, i);
    forall i | 0 <= i < |phases| ensures AccountsAt(phases, initial, tc, path, res.steps, i) {
      StepsAccount(phases, initial, tc, res.steps, i);
    }
  }

  // ---- the cheapest candidate of a phase ----

  /** Ordered by (cost, id). */
  predicate NotAfter(costs: map<Text, real>, a: Text, b: Text)
    requires a in costs && b in costs
  {
    costs[a] < costs[b] || (costs[a] == costs[b] && (a == b || Less(a, b)))
  }

  ghost predicate IsCheapest(costs: map<Text, real>, c: Text) {
    c in costs && forall other :: other in costs ==> NotAfter(costs, c, other)
  }

  lemma NotAfterTransitive(costs: map<Text, real>, a: Text, b: Text, c: Text)
    requires a in costs && b in costs && c in costs
    requires NotAfter(costs, a, b) && NotAfter(costs, b, c)
    ensures NotAfter(costs, a, c)
  {
    if costs[a] == costs[c] && a != b && b != c {
      LessTransitive(a, b, c);
    }
  }

  lemma NotAfterTotal(costs: map<Text, real>, a: Text, b: Text)
    requires a in costs && b in costs
    ensures NotAfter(costs, a, b) || NotAfter(costs, b, a)
    ensures NotAfter(costs, a, b) && NotAfter(costs, b, a) ==> a == b
  {
    LessTrichotomy(a, b);
  }

  /** `min(phase.per_query_cost, key=lambda candidate: (cost, candidate))` */
  method Cheapest(costs: map<Text, real>) returns (best: Text)
    requires costs != map[]
    ensures IsCheapest(costs, best)
  {
    assert costs.Keys != {};
    var todo := costs.Keys;
    best :| best in todo;
    NotAfterTotal(costs, best, best);
    todo := todo - {best};
    while todo != {}
      invariant todo <= costs.Keys && best in costs && best !in todo
      invariant forall c :: c in costs && c !in todo ==> NotAfter(costs, best, c)
      decreases |todo|
    {
      var c :| c in todo;
      todo := todo - {c};
      NotAfterTotal(costs, best, c);
      NotAfterTotal(costs, c, c);
      if !NotAfter(costs, best, c) {
        forall o | o in costs && o !in todo ensures NotAfter(costs, c, o) {
          if o != c { NotAfterTransitive(costs, c, best, o); }
        }
        best := c;
      }
    }
  }

  // ---- never and immediate ----

  method EvaluateNeverSwitch(phases: seq<Phase>, initial: Text, tc: Transitions) returns (res: Option<PolicyResult>)
    ensures res.Some? <==> Acceptable(phases, initial, tc)
    ensures res.Some? ==>
              && Reports(phases, initial, tc, res.value)
              && Accounts(phases, initial, tc, res.value)
              && res.value.switches == 0
              && forall i :: 0 <= i < |phases| ==> res.value.steps[i].candidate == initial
  {
    AcceptableIff(phases, initial, tc);
    if !ValidInputs(phases, initial, tc) {
      return None;
    }
    var steps := [];
    var i := 0;
    while i < |phases|
      invariant 0 <= i <= |phases| && |steps| == i
      invariant AllRecord(phases, initial, tc, steps)
      invariant forall k :: 0 <= k < i ==> steps[k].candidate == initial
      invariant CountSwitched(steps) == 0
    {
      assert initial in phases[i].costs;
      var step := Step(phases[i].id, initial, Execution(phases[i], initial), 0.0, false);
      RecordOneMore(phases, initial, tc, steps, step);
      assert (steps + [step])[..i] == steps;
      steps := steps + [step];
      i := i + 1;
    }
    FinishedReports(phases, initial, tc, steps);
    ReportsAccounts(phases, initial, tc, Finish(initial, steps));
    return Some(Finish(initial, steps));
  }

  /** Each step takes the cheapest candidate of its phase. */
  ghost predicate AllCheapest(phases: seq<Phase>, path: seq<Text>) {
    |path| <= |phases| && forall i :: 0 <= i < |path| ==> IsCheapest(phases[i].costs, path[i])
  }

  /** The cheapest candidates up to some phase, the last of which cannot be entered. */
  ghost predicate CheapestStuck(phases: seq<Phase>, initial: Text, tc: Transitions, path: seq<Text>) {
    path != [] && AllCheapest(phases, path) && !Enterable(initial, tc, path, |path| - 1)
  }

  lemma CheapestIsUnique(costs: map<Text, real>, a: Text, b: Text)
    requires IsCheapest(costs, a) && IsCheapest(costs, b)
    ensures a == b
  {
    NotAfterTotal(costs, a, b);
  }

  /** Only one path takes the cheapest candidates, so a legal one is nowhere stuck. */
  lemma LegalNotStuck(phases: seq<Phase>, initial: Text, tc: Transitions, path: seq<Text>, stuck: seq<Text>)
    requires AllCheapest(phases, path) && |path| == |phases| && IsLegal(phases, initial, tc, path)
    ensures !CheapestStuck(phases, initial, tc, stuck)
  {
    if CheapestStuck(phases, initial, tc, stuck) {
      assert Enterable(initial, tc, path, |stuck| - 1);
      forall i | 0 <= i < |stuck| ensures stuck[i] == path[i] {
        CheapestIsUnique(phases[i].costs, stuck[i], path[i]);
      }
    }
  }

  lemma OneMoreCheapest(phases: seq<Phase>, path: seq<Text>, c: Text)
    requires AllCheapest(phases, path) && |path| < |phases| && IsCheapest(phases[|path|].costs, c)
    ensures AllCheapest(phases, path + [c])
  {
  }

  predicate HaveCandidates(phases: seq<Phase>) {
    forall i :: 0 <= i < |phases| ==> phases[i].costs != map[]
  }

  /** The loop of `evaluate_immediate_switch`. */
  method FollowCheapest(phases: seq<Phase>, initial: Text, tc: Transitions) returns (res: Option<seq<Step>>)
    requires HaveCandidates(phases)
    ensures res.Some? ==>
              && |res.value| == |phases|
              && AllRecord(phases, initial, tc, res.value)
              && AllCheapest(phases, Candidates(res.value))
    ensures res.None? ==> exists path :: CheapestStuck(phases, initial, tc, path)
  {
    var current := initial;
    var steps := [];
    var i := 0;
    while i < |phases|
      invariant 0 <= i <= |phases| && |steps| == i
      invariant AllRecord(phases, initial, tc, steps) && AllCheapest(phases, Candidates(steps))
      invariant current == CurrentAt(initial, steps, i)
    {
      var target := Cheapest(phases[i].costs);
      OneMoreCheapest(phases, Candidates(steps), target);
      var transition := TransitionCost(tc, current, target);
      if transition.None? {
        StuckHere(phases, initial, tc, steps, target);
        return None;
      }
      var step := Step(phases[i].id, target, Execution(phases[i], target), transition.value, target != current);
      RecordOneMore(phases, initial, tc, steps, step);
      assert Candidates(steps + [step]) == Candidates(steps) + [target];
      steps := steps + [step];
      current := target;
      i := i + 1;
    }
    return Some(steps);
  }

  lemma StuckHere(phases: seq<Phase>, initial: Text, tc: Transitions, steps: seq<Step>, target: Text)
    requires AllCheapest(phases, Candidates(steps) + [target])
    requires TransitionCost(tc, CurrentAt(initial, steps, |steps|), target).None?
    ensures CheapestStuck(phases, initial, tc, Candidates(steps) + [target])
  {
  }

  /** It succeeds exactly if the inputs are valid and every transition between the
      cheapest candidates of neighbouring phases is declared. */
  method EvaluateImmediateSwitch(phases: seq<Phase>, initial: Text, tc: Transitions) returns (res: Option<PolicyResult>)
    ensures res.Some? <==> Acceptable(phases, initial, tc) && !exists path :: CheapestStuck(phases, initial, tc, path)
    ensures res.Some? ==>
              && Reports(phases, initial, tc, res.value)
              && Accounts(phases, initial, tc, res.value)
              && AllCheapest(phases, Candidates(res.value.steps))
              && forall i, c :: 0 <= i < |phases| && c in phases[i].costs ==>
                   var taken := res.value.steps[i].candidate;
                   && phases[i].costs[taken] <= phases[i].costs[c]
                   && (phases[i].costs[taken] == phases[i].costs[c] ==> taken == c || Less(taken, c))
  {
    AcceptableIff(phases, initial, tc);
    if !ValidInputs(phases, initial, tc) {
      return None;
    }
    var steps := FollowCheapest(phases, initial, tc);
    if steps.None? {
      return None;
    }
    FinishedReports(phases, initial, tc, steps.value);
    ReportsAccounts(phases, initial, tc, Finish(initial, steps.value));
    forall path ensures !CheapestStuck(phases, initial, tc, path) {
      LegalNotStuck(phases, initial, tc, Candidates(steps.value), path);
    }
    return Some(Finish(initial, steps.value));
  }
}
