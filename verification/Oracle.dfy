/** The offline oracle: a dynamic program over phases and candidates, with ties broken by
    the lexicographically least path. */
module Oracle {
  import opened Wrappers
  import opened Text
  import opened Policies

  // ---- order on paths: Python compares tuples element by element ----

  predicate PathBefore(a: seq<Text>, b: seq<Text>) {
    b != [] && (a == [] || Less(a[0], b[0]) || (a[0] == b[0] && PathBefore(a[1..], b[1..])))
  }

  lemma {:induction false} PathTrichotomy(a: seq<Text>, b: seq<Text>)
    ensures PathBefore(a, b) || PathBefore(b, a) || a == b
    ensures !(PathBefore(a, b) && PathBefore(b, a))
    ensures !PathBefore(a, a)
  {
    if a != [] {
      PathTrichotomy(a[1..], a[1..]);
      LessTrichotomy(a[0], a[0]);
      if b != [] {
        LessTrichotomy(a[0], b[0]);
        PathTrichotomy(a[1..], b[1..]);
        assert a == [a[0]] + a[1..] && b == [b[0]] + b[1..];
      }
    }
  }

  lemma {:induction false} PathTransitive(a: seq<Text>, b: seq<Text>, c: seq<Text>)
    requires PathBefore(a, b) && PathBefore(b, c)
    ensures PathBefore(a, c)
  {
    if a != [] {
      if Less(a[0], b[0]) && Less(b[0], c[0]) {
        LessTransitive(a[0], b[0], c[0]);
      } else if a[0] == b[0] == c[0] && !Less(a[0], b[0]) {
        LessTrichotomy(a[0], a[0]);
        PathTransitive(a[1..], b[1..], c[1..]);
      }
    }
  }

  lemma {:induction false} PathBeforeSnoc(a: seq<Text>, b: seq<Text>, c: Text)
    requires PathBefore(a, b) && |a| == |b|
    ensures PathBefore(a + [c], b + [c])
  {
    assert (a + [c])[1..] == a[1..] + [c] && (b + [c])[1..] == b[1..] + [c];
    if !Less(a[0], b[0]) {
      PathBeforeSnoc(a[1..], b[1..], c);
    }
  }

  /** Cheaper, or as cheap and not after it. */
  predicate NotWorse(cost: real, path: seq<Text>, otherCost: real, other: seq<Text>) {
    cost < otherCost || (cost == otherCost && (path == other || PathBefore(path, other)))
  }

  lemma NotWorseTransitive(x: real, a: seq<Text>, y: real, b: seq<Text>, z: real, c: seq<Text>)
    requires NotWorse(x, a, y, b) && NotWorse(y, b, z, c)
    ensures NotWorse(x, a, z, c)
  {
    if x == z && a != b && b != c {
      PathTransitive(a, b, c);
    }
  }

  lemma NotWorseTotal(x: real, a: seq<Text>, y: real, b: seq<Text>)
    ensures NotWorse(x, a, y, b) || NotWorse(y, b, x, a)
    ensures NotWorse(x, a, y, b) && NotWorse(y, b, x, a) ==> a == b
  {
    PathTrichotomy(a, b);
  }

  lemma NotWorseSnoc(x: real, a: seq<Text>, y: real, b: seq<Text>, stage: real, c: Text)
    requires NotWorse(x, a, y, b) && |a| == |b|
    ensures NotWorse(x + stage, a + [c], y + stage, b + [c])
  {
    if x == y && a != b {
      PathBeforeSnoc(a, b, c);
    }
  }

  // ---- which transitions the program needs ----

  /** The candidates phase `i` can be entered from. */
  function Sources(phases: seq<Phase>, initial: Text, i: nat): set<Text>
    requires i <= |phases|
  {
    if i == 0 then {initial} else phases[i - 1].costs.Keys
  }

  predicate AllCosted(tc: Transitions, sources: set<Text>, targets: set<Text>) {
    forall a, b :: a in sources && b in targets ==> TransitionCost(tc, a, b).Some?
  }

  predicate StageDeclared(phases: seq<Phase>, initial: Text, tc: Transitions, i: nat)
    requires i < |phases|
  {
    AllCosted(tc, Sources(phases, initial, i), phases[i].costs.Keys)
  }

  predicate AllDeclared(phases: seq<Phase>, initial: Text, tc: Transitions) {
    forall i :: 0 <= i < |phases| ==> StageDeclared(phases, initial, tc, i)
  }

  /** With every transition declared, any choice of candidates is a legal path. */
  lemma DeclaredIsLegal(phases: seq<Phase>, initial: Text, tc: Transitions, path: seq<Text>)
    requires AllDeclared(phases, initial, tc) && IsPath(phases, path)
    ensures IsLegal(phases, initial, tc, path)
  {
    forall i | 0 <= i < |path| ensures Enterable(initial, tc, path, i) {
      assert StageDeclared(phases, initial, tc, i);
      assert Entering(initial, path, i) in Sources(phases, initial, i);
    }
  }

  // ---- the table ----

  type Costs = map<Text, real>
  type Paths = map<Text, seq<Text>>

  /** A legal path over the first `k` phases that ends in `c`. */
  predicate EndsAt(phases: seq<Phase>, initial: Text, tc: Transitions, path: seq<Text>, k: nat, c: Text) {
    0 < k && |path| == k && IsLegal(phases, initial, tc, path) && path[k - 1] == c
  }

  /** The best of all paths over the first `k` phases that end in `c`. */
  ghost predicate BestTo(phases: seq<Phase>, initial: Text, tc: Transitions, k: nat, c: Text, cost: real, path: seq<Text>) {
    && EndsAt(phases, initial, tc, path, k, c)
    && cost == PathCost(phases, initial, tc, path)
    && forall q :: EndsAt(phases, initial, tc, q, k, c) ==> NotWorse(cost, path, PathCost(phases, initial, tc, q), q)
  }

  ghost predicate TableAt(phases: seq<Phase>, initial: Text, tc: Transitions, k: nat, costs: Costs, paths: Paths)
  {
    && 0 < k <= |phases|
    && costs.Keys == paths.Keys == phases[k - 1].costs.Keys
    && forall c :: c in costs && c in paths ==> BestTo(phases, initial, tc, k, c, costs[c], paths[c])
  }

  lemma LegalTail(phases: seq<Phase>, initial: Text, tc: Transitions, path: seq<Text>)
    requires IsLegal(phases, initial, tc, path) && |path| > 1
    ensures IsLegal(phases, initial, tc, path[..|path| - 1])
    ensures Enterable(initial, tc, path, |path| - 1)
    ensures PathCost(phases, initial, tc, path) ==
            PathCost(phases, initial, tc, path[..|path| - 1])
            + StageCost(phases[|path| - 1], tc, path[|path| - 2], path[|path| - 1])
  {
    LegalPrefix(phases, initial, tc, path);
    assert Enterable(initial, tc, path, |path| - 1);
    assert Entering(initial, path, |path| - 1) == path[|path| - 2];
  }

  // ---- the least of several choices ----

  /** A cost and a path for each previous candidate; None if its transition is not declared. */
  type Choosing = Text -> Option<(real, seq<Text>)>

  /** The least choice by (cost, path), all of them being there. */
  ghost predicate LeastOf(choice: Choosing, among: set<Text>, cost: real, path: seq<Text>) {
    && (exists p :: p in among && choice(p) == Some((cost, path)))
    && (forall p :: p in among ==> choice(p).Some? && NotWorse(cost, path, choice(p).value.0, choice(p).value.1))
  }

  lemma LeastOfOne(choice: Choosing, p: Text)
    requires choice(p).Some?
    ensures LeastOf(choice, {p}, choice(p).value.0, choice(p).value.1)
  {
    var x, q := choice(p).value.0, choice(p).value.1;
    NotWorseTotal(x, q, x, q);
    assert p in {p};
  }

  lemma LeastOfMore(choice: Choosing, among: set<Text>, cost: real, path: seq<Text>, p: Text)
    requires LeastOf(choice, among, cost, path) && choice(p).Some?
    ensures var x, q := choice(p).value.0, choice(p).value.1;
            if NotWorse(cost, path, x, q) then LeastOf(choice, among + {p}, cost, path) else LeastOf(choice, among + {p}, x, q)
  {
    var x, q := choice(p).value.0, choice(p).value.1;
    NotWorseTotal(cost, path, x, q);
    NotWorseTotal(x, q, x, q);
    if !NotWorse(cost, path, x, q) {
      assert p in among + {p};
      forall o | o in among ensures NotWorse(x, q, choice(o).value.0, choice(o).value.1) {
        NotWorseTransitive(x, q, cost, path, choice(o).value.0, choice(o).value.1);
      }
    }
  }

  /** `min(choices, key=lambda item: (item[0], item[1]))`, raising on a missing transition. */
  method LeastChoice(choice: Choosing, among: set<Text>) returns (res: Option<(real, seq<Text>)>)
    requires among != {}
    ensures res.Some? <==> forall p :: p in among ==> choice(p).Some?
    ensures res.Some? ==> LeastOf(choice, among, res.value.0, res.value.1)
  {
    var todo := among;
    var first :| first in todo;
    if choice(first).None? {
      return None;
    }
    var best := choice(first).value;
    LeastOfOne(choice, first);
    todo := todo - {first};
    ghost var seen := {first};
    while todo != {}
      invariant todo + seen == among
      invariant LeastOf(choice, seen, best.0, best.1)
      decreases |todo|
    {
      var p :| p in todo;
      if choice(p).None? {
        return None;
      }
      LeastOfMore(choice, seen, best.0, best.1, p);
      if !NotWorse(best.0, best.1, choice(p).value.0, choice(p).value.1) {
        best := choice(p).value;
      }
      todo, seen := todo - {p}, seen + {p};
    }
    assert seen == among;
    return Some(best);
  }

  // ---- one entry of the next row ----

  /** Reaching `c` in phase `k` through each previous candidate. */
  function Via(phases: seq<Phase>, tc: Transitions, k: nat, c: Text, costs: Costs, paths: Paths): Choosing
    requires k < |phases| && c in phases[k].costs && costs.Keys == paths.Keys
  {
    p => if p in costs && p in paths && TransitionCost(tc, p, c).Some?
         then Some((costs[p] + StageCost(phases[k], tc, p, c), paths[p] + [c])) else None
  }

  ghost predicate EntryFrom(phases: seq<Phase>, tc: Transitions, k: nat, c: Text, costs: Costs, paths: Paths, cost: real, path: seq<Text>)
    requires k < |phases|
  {
    && c in phases[k].costs && costs.Keys == paths.Keys
    && LeastOf(Via(phases, tc, k, c, costs, paths), costs.Keys, cost, path)
  }

  lemma ChoiceEnds(phases: seq<Phase>, initial: Text, tc: Transitions, k: nat, c: Text, costs: Costs, paths: Paths, p: Text)
    requires TableAt(phases, initial, tc, k, costs, paths) && k < |phases| && c in phases[k].costs
    requires p in costs && TransitionCost(tc, p, c).Some?
    ensures var cost, path := costs[p] + StageCost(phases[k], tc, p, c), paths[p] + [c];
            EndsAt(phases, initial, tc, path, k + 1, c) && cost == PathCost(phases, initial, tc, path)
  {
    assert BestTo(phases, initial, tc, k, p, costs[p], paths[p]);
    PathCostSnoc(phases, initial, tc, paths[p], c);
  }

  /** Any path ending in `c` is no better than the choice through its last but one candidate. */
  lemma ChoiceCovers(phases: seq<Phase>, initial: Text, tc: Transitions, k: nat, c: Text, costs: Costs, paths: Paths, q: seq<Text>)
    returns (p: Text)
    requires TableAt(phases, initial, tc, k, costs, paths) && k < |phases| && c in phases[k].costs
    requires EndsAt(phases, initial, tc, q, k + 1, c)
    ensures p in costs && TransitionCost(tc, p, c).Some?
    ensures NotWorse(costs[p] + StageCost(phases[k], tc, p, c), paths[p] + [c], PathCost(phases, initial, tc, q), q)
  {
    p := q[k - 1];
    LegalTail(phases, initial, tc, q);
    assert p in phases[k - 1].costs;
    var stage := StageCost(phases[k], tc, p, c);
    assert BestTo(phases, initial, tc, k, p, costs[p], paths[p]);
    BestExtends(phases, initial, tc, k, p, costs[p], paths[p], q[..k], stage, c);
    assert q == q[..k] + [c];
  }

  lemma BestExtends(phases: seq<Phase>, initial: Text, tc: Transitions, k: nat, previous: Text, cost: real, path: seq<Text>,
                    before: seq<Text>, stage: real, c: Text)
    requires BestTo(phases, initial, tc, k, previous, cost, path) && EndsAt(phases, initial, tc, before, k, previous)
    ensures NotWorse(cost + stage, path + [c], PathCost(phases, initial, tc, before) + stage, before + [c])
  {
    NotWorseSnoc(cost, path, PathCost(phases, initial, tc, before), before, stage, c);
  }

  lemma LeastSource(phases: seq<Phase>, tc: Transitions, k: nat, c: Text, costs: Costs, paths: Paths,
                    cost: real, path: seq<Text>) returns (p: Text)
    requires k < |phases| && EntryFrom(phases, tc, k, c, costs, paths, cost, path)
    ensures p in costs && TransitionCost(tc, p, c).Some?
    ensures cost == costs[p] + StageCost(phases[k], tc, p, c) && path == paths[p] + [c]
  {
    var choice := Via(phases, tc, k, c, costs, paths);
    p :| p in costs.Keys && choice(p) == Some((cost, path));
  }

  lemma LeastEnds(phases: seq<Phase>, initial: Text, tc: Transitions, k: nat, c: Text, costs: Costs, paths: Paths,
                  cost: real, path: seq<Text>)
    requires TableAt(phases, initial, tc, k, costs, paths) && k < |phases|
    requires EntryFrom(phases, tc, k, c, costs, paths, cost, path)
    ensures EndsAt(phases, initial, tc, path, k + 1, c) && cost == PathCost(phases, initial, tc, path)
  {
    var p := LeastSource(phases, tc, k, c, costs, paths, cost, path);
    ChoiceEnds(phases, initial, tc, k, c, costs, paths, p);
  }

  lemma LeastVia(phases: seq<Phase>, tc: Transitions, k: nat, c: Text, costs: Costs, paths: Paths,
                 cost: real, path: seq<Text>, o: Text)
    requires k < |phases| && EntryFrom(phases, tc, k, c, costs, paths, cost, path)
    requires o in costs && TransitionCost(tc, o, c).Some?
    ensures NotWorse(cost, path, costs[o] + StageCost(phases[k], tc, o, c), paths[o] + [c])
  {
    var choice := Via(phases, tc, k, c, costs, paths);
    assert choice(o) == Some((costs[o] + StageCost(phases[k], tc, o, c), paths[o] + [c]));
    assert o in costs.Keys;
  }

  lemma LeastBeats(phases: seq<Phase>, initial: Text, tc: Transitions, k: nat, c: Text, costs: Costs, paths: Paths,
                   cost: real, path: seq<Text>, q: seq<Text>)
    requires TableAt(phases, initial, tc, k, costs, paths) && k < |phases|
    requires EntryFrom(phases, tc, k, c, costs, paths, cost, path)
    requires EndsAt(phases, initial, tc, q, k + 1, c)
    ensures NotWorse(cost, path, PathCost(phases, initial, tc, q), q)
  {
    var o := ChoiceCovers(phases, initial, tc, k, c, costs, paths, q);
    LeastVia(phases, tc, k, c, costs, paths, cost, path, o);
    NotWorseTransitive(cost, path, costs[o] + StageCost(phases[k], tc, o, c), paths[o] + [c], PathCost(phases, initial, tc, q), q);
  }

  /** Optimal substructure: the least choice is the best path. */
  lemma LeastIsBest(phases: seq<Phase>, initial: Text, tc: Transitions, k: nat, c: Text, costs: Costs, paths: Paths,
                    cost: real, path: seq<Text>)
    requires TableAt(phases, initial, tc, k, costs, paths) && k < |phases|
    requires EntryFrom(phases, tc, k, c, costs, paths, cost, path)
    ensures BestTo(phases, initial, tc, k + 1, c, cost, path)
  {
    LeastEnds(phases, initial, tc, k, c, costs, paths, cost, path);
    forall q | EndsAt(phases, initial, tc, q, k + 1, c) ensures NotWorse(cost, path, PathCost(phases, initial, tc, q), q) {
      LeastBeats(phases, initial, tc, k, c, costs, paths, cost, path, q);
    }
  }

  // ---- the dynamic program ----

  /** The first row of the table. */
  method FirstRow(phases: seq<Phase>, initial: Text, tc: Transitions) returns (res: Option<(Costs, Paths)>)
    requires phases != []
    ensures res.Some? <==> AllCosted(tc, {initial}, phases[0].costs.Keys)
    ensures res.Some? ==> TableAt(phases, initial, tc, 1, res.value.0, res.value.1)
  {
    res := FirstEntries(phases[0], initial, tc);
    if res.Some? {
      FirstRowIsBest(phases, initial, tc, res.value.0, res.value.1);
    }
  }

  ghost predicate FirstSoFar(p: Phase, initial: Text, tc: Transitions, costs: Costs, paths: Paths) {
    && costs.Keys == paths.Keys
    && forall c :: c in costs && c in paths ==> FirstEntry(p, initial, tc, c, costs[c], paths[c])
  }

  method FirstEntries(p: Phase, initial: Text, tc: Transitions) returns (res: Option<(Costs, Paths)>)
    ensures res.Some? <==> AllCosted(tc, {initial}, p.costs.Keys)
    ensures res.Some? ==> FirstSoFar(p, initial, tc, res.value.0, res.value.1) && res.value.0.Keys == p.costs.Keys
  {
    var costs: Costs := map[];
    var paths: Paths := map[];
    var todo := p.costs.Keys;
    while todo != {}
      invariant todo <= p.costs.Keys && costs.Keys == p.costs.Keys - todo
      invariant FirstSoFar(p, initial, tc, costs, paths)
      decreases |todo|
    {
      var candidate :| candidate in todo;
      if TransitionCost(tc, initial, candidate).None? {
        return None;
      }
      costs := costs[candidate := StageCost(p, tc, initial, candidate)];
      paths := paths[candidate := [candidate]];
      todo := todo - {candidate};
    }
    forall c | c in p.costs.Keys ensures TransitionCost(tc, initial, c).Some? {
      assert c in costs && FirstEntry(p, initial, tc, c, costs[c], paths[c]);
    }
    return Some((costs, paths));
  }

  predicate FirstEntry(p: Phase, initial: Text, tc: Transitions, c: Text, cost: real, path: seq<Text>) {
    c in p.costs && TransitionCost(tc, initial, c).Some? && cost == StageCost(p, tc, initial, c) && path == [c]
  }

  lemma FirstRowIsBest(phases: seq<Phase>, initial: Text, tc: Transitions, costs: Costs, paths: Paths)
    requires phases != [] && FirstSoFar(phases[0], initial, tc, costs, paths) && costs.Keys == phases[0].costs.Keys
    ensures TableAt(phases, initial, tc, 1, costs, paths)
  {
    forall c | c in costs && c in paths ensures BestTo(phases, initial, tc, 1, c, costs[c], paths[c]) {
      assert FirstEntry(phases[0], initial, tc, c, costs[c], paths[c]);
      FirstIsBest(phases, initial, tc, c);
    }
  }

  lemma FirstIsBest(phases: seq<Phase>, initial: Text, tc: Transitions, c: Text)
    requires phases != [] && c in phases[0].costs && TransitionCost(tc, initial, c).Some?
    ensures BestTo(phases, initial, tc, 1, c, StageCost(phases[0], tc, initial, c), [c])
  {
    var none: seq<Text> := [];
    PathCostSnoc(phases, initial, tc, none, c);
    assert none + [c] == [c];
    NotWorseTotal(0.0, [c], 0.0, [c]);
    forall q | EndsAt(phases, initial, tc, q, 1, c) ensures q == [c] {
    }
  }

  /** Every entry of the next row is the best choice from this one. */
  ghost predicate RowFrom(phases: seq<Phase>, tc: Transitions, k: nat, costs: Costs, paths: Paths, nextCosts: Costs, nextPaths: Paths)
    requires k < |phases|
  {
    && nextCosts.Keys == nextPaths.Keys
    && forall c :: c in nextCosts && c in nextPaths ==> EntryFrom(phases, tc, k, c, costs, paths, nextCosts[c], nextPaths[c])
  }

  lemma RowGrows(phases: seq<Phase>, tc: Transitions, k: nat, costs: Costs, paths: Paths, nextCosts: Costs, nextPaths: Paths,
                 c: Text, cost: real, path: seq<Text>)
    requires k < |phases| && RowFrom(phases, tc, k, costs, paths, nextCosts, nextPaths)
    requires EntryFrom(phases, tc, k, c, costs, paths, cost, path)
    ensures RowFrom(phases, tc, k, costs, paths, nextCosts[c := cost], nextPaths[c := path])
  {
    var newCosts, newPaths := nextCosts[c := cost], nextPaths[c := path];
    forall d | d in newCosts && d in newPaths ensures EntryFrom(phases, tc, k, d, costs, paths, newCosts[d], newPaths[d]) {
      if d != c { assert EntryFrom(phases, tc, k, d, costs, paths, nextCosts[d], nextPaths[d]); }
    }
  }

  /** One further row. */
  method NextRow(phases: seq<Phase>, tc: Transitions, k: nat, costs: Costs, paths: Paths)
    returns (res: Option<(Costs, Paths)>)
    requires k < |phases| && costs.Keys == paths.Keys && costs != map[]
    ensures res.Some? <==> AllCosted(tc, costs.Keys, phases[k].costs.Keys)
    ensures res.Some? ==>
              && RowFrom(phases, tc, k, costs, paths, res.value.0, res.value.1)
              && res.value.0.Keys == phases[k].costs.Keys
  {
    var nextCosts: Costs := map[];
    var nextPaths: Paths := map[];
    var todo := phases[k].costs.Keys;
    assert costs.Keys != {};
    while todo != {}
      invariant todo <= phases[k].costs.Keys && nextCosts.Keys == phases[k].costs.Keys - todo
      invariant RowFrom(phases, tc, k, costs, paths, nextCosts, nextPaths)
      decreases |todo|
    {
      var candidate :| candidate in todo;
      var best := LeastChoice(Via(phases, tc, k, candidate, costs, paths), costs.Keys);
      if best.None? {
        return None;
      }
      RowGrows(phases, tc, k, costs, paths, nextCosts, nextPaths, candidate, best.value.0, best.value.1);
      nextCosts := nextCosts[candidate := best.value.0];
      nextPaths := nextPaths[candidate := best.value.1];
      todo := todo - {candidate};
    }
    RowCosted(phases, tc, k, costs, paths, nextCosts, nextPaths);
    return Some((nextCosts, nextPaths));
  }

  lemma RowCosted(phases: seq<Phase>, tc: Transitions, k: nat, costs: Costs, paths: Paths, nextCosts: Costs, nextPaths: Paths)
    requires k < |phases| && RowFrom(phases, tc, k, costs, paths, nextCosts, nextPaths)
    ensures AllCosted(tc, costs.Keys, nextCosts.Keys)
  {
    forall a, c | a in costs && c in nextCosts ensures TransitionCost(tc, a, c).Some? {
      assert EntryFrom(phases, tc, k, c, costs, paths, nextCosts[c], nextPaths[c]);
      assert Via(phases, tc, k, c, costs, paths)(a).Some?;
    }
  }

  lemma NextRowIsBest(phases: seq<Phase>, initial: Text, tc: Transitions, k: nat, costs: Costs, paths: Paths,
                      nextCosts: Costs, nextPaths: Paths)
    requires TableAt(phases, initial, tc, k, costs, paths) && k < |phases|
    requires RowFrom(phases, tc, k, costs, paths, nextCosts, nextPaths) && nextCosts.Keys == phases[k].costs.Keys
    ensures TableAt(phases, initial, tc, k + 1, nextCosts, nextPaths)
  {
    forall c | c in nextCosts && c in nextPaths ensures BestTo(phases, initial, tc, k + 1, c, nextCosts[c], nextPaths[c]) {
      assert EntryFrom(phases, tc, k, c, costs, paths, nextCosts[c], nextPaths[c]);
      LeastIsBest(phases, initial, tc, k, c, costs, paths, nextCosts[c], nextPaths[c]);
    }
  }

  predicate DeclaredUpTo(phases: seq<Phase>, initial: Text, tc: Transitions, k: nat)
    requires k <= |phases|
  {
    forall i :: 0 <= i < k ==> StageDeclared(phases, initial, tc, i)
  }

  lemma RowNotEmpty(phases: seq<Phase>, initial: Text, tc: Transitions, k: nat, costs: Costs, paths: Paths)
    requires HaveCandidates(phases) && TableAt(phases, initial, tc, k, costs, paths)
    ensures costs != map[]
  {
    assert phases[k - 1].costs != map[];
  }

  /** The whole table, row by row. */
  method SolveTable(phases: seq<Phase>, initial: Text, tc: Transitions) returns (res: Option<(Costs, Paths)>)
    requires phases != [] && HaveCandidates(phases)
    ensures res.Some? <==> AllDeclared(phases, initial, tc)
    ensures res.Some? ==> TableAt(phases, initial, tc, |phases|, res.value.0, res.value.1)
  {
    var row := FirstRow(phases, initial, tc);
    if row.None? {
      assert !StageDeclared(phases, initial, tc, 0);
      return None;
    }
    var k := 1;
    while k < |phases|
      invariant 1 <= k <= |phases|
      invariant row.Some? && TableAt(phases, initial, tc, k, row.value.0, row.value.1)
      invariant DeclaredUpTo(phases, initial, tc, k)
    {
      RowNotEmpty(phases, initial, tc, k, row.value.0, row.value.1);
      var next := NextRow(phases, tc, k, row.value.0, row.value.1);
      if next.None? {
        assert !StageDeclared(phases, initial, tc, k);
        return None;
      }
      NextRowIsBest(phases, initial, tc, k, row.value.0, row.value.1, next.value.0, next.value.1);
      row := next;
      k := k + 1;
    }
    return row;
  }

  // ---- the selected path ----

  /** No path of one candidate per phase is better. */
  ghost predicate Optimal(phases: seq<Phase>, initial: Text, tc: Transitions, path: seq<Text>) {
    && |path| == |phases| && IsLegal(phases, initial, tc, path)
    && forall q :: |q| == |phases| && IsLegal(phases, initial, tc, q) ==>
         NotWorse(PathCost(phases, initial, tc, path), path, PathCost(phases, initial, tc, q), q)
  }

  /** The entry that is least by (cost, path). */
  ghost predicate LeastEntry(costs: Costs, paths: Paths, among: set<Text>, c: Text) {
    && c in among && among <= costs.Keys && costs.Keys == paths.Keys
    && forall o :: o in among ==> NotWorse(costs[c], paths[c], costs[o], paths[o])
  }

  method SelectFinal(costs: Costs, paths: Paths) returns (best: Text)
    requires costs != map[] && costs.Keys == paths.Keys
    ensures LeastEntry(costs, paths, costs.Keys, best)
  {
    var todo := costs.Keys;
    assert todo != {};
    best :| best in todo;
    todo := todo - {best};
    NotWorseTotal(costs[best], paths[best], costs[best], paths[best]);
    assert costs.Keys - todo == {best};
    while todo != {}
      invariant todo <= costs.Keys && LeastEntry(costs, paths, costs.Keys - todo, best)
      decreases |todo|
    {
      var c :| c in todo;
      ghost var seen := costs.Keys - todo;
      todo := todo - {c};
      assert costs.Keys - todo == seen + {c};
      NotWorseTotal(costs[best], paths[best], costs[c], paths[c]);
      NotWorseTotal(costs[c], paths[c], costs[c], paths[c]);
      if !NotWorse(costs[best], paths[best], costs[c], paths[c]) {
        forall o | o in seen ensures NotWorse(costs[c], paths[c], costs[o], paths[o]) {
          NotWorseTransitive(costs[c], paths[c], costs[best], paths[best], costs[o], paths[o]);
        }
        best := c;
      }
    }
    assert costs.Keys - todo == costs.Keys;
  }

  lemma LeastIsOptimal(phases: seq<Phase>, initial: Text, tc: Transitions, costs: Costs, paths: Paths, c: Text)
    requires phases != [] && TableAt(phases, initial, tc, |phases|, costs, paths) && LeastEntry(costs, paths, costs.Keys, c)
    ensures Optimal(phases, initial, tc, paths[c]) && costs[c] == PathCost(phases, initial, tc, paths[c])
  {
    var n := |phases|;
    var path := paths[c];
    assert BestTo(phases, initial, tc, n, c, costs[c], path);
    forall q | |q| == n && IsLegal(phases, initial, tc, q)
      ensures NotWorse(costs[c], path, PathCost(phases, initial, tc, q), q)
    {
      var o := q[n - 1];
      assert o in costs;
      assert BestTo(phases, initial, tc, n, o, costs[o], paths[o]);
      assert EndsAt(phases, initial, tc, q, n, o);
      NotWorseTransitive(costs[c], path, costs[o], paths[o], PathCost(phases, initial, tc, q), q);
    }
  }

  /** The steps along the selected path. */
  method StepsAlong(phases: seq<Phase>, initial: Text, tc: Transitions, path: seq<Text>) returns (steps: seq<Step>)
    requires |path| == |phases| && IsLegal(phases, initial, tc, path)
    ensures |steps| == |phases| && AllRecord(phases, initial, tc, steps) && Candidates(steps) == path
  {
    var current := initial;
    steps := [];
    var i := 0;
    while i < |phases|
      invariant 0 <= i <= |phases| && |steps| == i
      invariant AllRecord(phases, initial, tc, steps) && Candidates(steps) == path[..i]
      invariant current == CurrentAt(initial, steps, i) && current == Entering(initial, path, i)
    {
      assert Enterable(initial, tc, path, i);
      var candidate := path[i];
      var step := Step(phases[i].id, candidate, Execution(phases[i], candidate),
                       TransitionCost(tc, current, candidate).value, candidate != current);
      RecordOneMore(phases, initial, tc, steps, step);
      assert Candidates(steps + [step]) == Candidates(steps) + [candidate];
      steps := steps + [step];
      current := candidate;
      i := i + 1;
    }
  }

  /** `evaluate_offline_oracle`: it succeeds exactly on valid inputs with every transition
      the program looks up declared; its path is optimal among all paths, the least of the
      optimal ones, and the reported cost is the table value and the cost of that path. */
  method EvaluateOfflineOracle(phases: seq<Phase>, initial: Text, tc: Transitions) returns (res: Option<PolicyResult>)
    ensures res.Some? <==> Acceptable(phases, initial, tc) && EveryChangeDeclared(phases, initial, tc)
    ensures res.Some? ==>
              && Reports(phases, initial, tc, res.value)
              && Optimal(phases, initial, tc, Candidates(res.value.steps))
              && Accounts(phases, initial, tc, res.value)
              && BestChoice(phases, initial, tc, Candidates(res.value.steps))
  {
    AcceptableIff(phases, initial, tc);
    if !ValidInputs(phases, initial, tc) {
      return None;
    }
    assert HaveCandidates(phases) by {
      assert forall i :: 0 <= i < |phases| ==> ValidPhase(phases[i]);
    }
    AllDeclaredIff(phases, initial, tc);
    res := SelectAndFinish(phases, initial, tc);
    if res.Some? {
      ReportsAccounts(phases, initial, tc, res.value);
      OptimalIsBestChoice(phases, initial, tc, Candidates(res.value.steps));
    }
  }

  method SelectAndFinish(phases: seq<Phase>, initial: Text, tc: Transitions) returns (res: Option<PolicyResult>)
    requires phases != [] && HaveCandidates(phases)
    ensures res.Some? <==> AllDeclared(phases, initial, tc)
    ensures res.Some? ==>
              && Reports(phases, initial, tc, res.value)
              && Optimal(phases, initial, tc, Candidates(res.value.steps))
  {
    var table := SolveTable(phases, initial, tc);
    if table.None? {
      return None;
    }
    var costs, paths := table.value.0, table.value.1;
    assert costs.Keys == phases[|phases| - 1].costs.Keys;
    var final := SelectFinal(costs, paths);
    LeastIsOptimal(phases, initial, tc, costs, paths, final);
    var steps := StepsAlong(phases, initial, tc, paths[final]);
    FinishedReports(phases, initial, tc, steps);
    assert Finish(initial, steps).cumulative == costs[final];
    return Some(Finish(initial, steps));
  }

  // ---- the result, written out ----

  /** Every change that can occur between two phases, or into the first, is declared. */
  ghost predicate EveryChangeDeclared(phases: seq<Phase>, initial: Text, tc: Transitions) {
    forall i: nat, a, b :: i < |phases| && CanChange(phases, initial, i, a, b) ==> a == b || (a, b) in tc
  }

  predicate CanChange(phases: seq<Phase>, initial: Text, i: nat, a: Text, b: Text)
    requires i < |phases|
  {
    (if i == 0 then a == initial else a in phases[i - 1].costs) && b in phases[i].costs
  }

  /** At the first phase in which they differ, `a` takes the candidate that sorts first. */
  ghost predicate EarlierAt(a: seq<Text>, b: seq<Text>, k: nat) {
    k < |a| && k < |b| && a[..k] == b[..k] && Less(a[k], b[k])
  }

  lemma {:induction false} PathBeforeIff(a: seq<Text>, b: seq<Text>)
    requires |a| == |b|
    ensures PathBefore(a, b) <==> exists k: nat :: EarlierAt(a, b, k)
  {
    if a != [] {
      PathBeforeIff(a[1..], b[1..]);
      LessTrichotomy(a[0], b[0]);
      if Less(a[0], b[0]) { assert EarlierAt(a, b, 0); }
      if k: nat :| EarlierAt(a[1..], b[1..], k) && a[0] == b[0] {
        assert a[..k + 1] == [a[0]] + a[1..][..k] && b[..k + 1] == [b[0]] + b[1..][..k];
        assert EarlierAt(a, b, k + 1);
      }
      if k: nat :| EarlierAt(a, b, k) && !Less(a[0], b[0]) {
        EarlierLater(a, b, k);
      }
    }
  }

  lemma EarlierLater(a: seq<Text>, b: seq<Text>, k: nat)
    requires EarlierAt(a, b, k) && !Less(a[0], b[0])
    ensures k > 0 && a[0] == b[0] && EarlierAt(a[1..], b[1..], k - 1)
  {
    assert a[..k] == b[..k];
    if k > 0 {
      assert a[0] == a[..k][0] && b[0] == b[..k][0];
      assert a[1..][..k - 1] == a[..k][1..] && b[1..][..k - 1] == b[..k][1..];
    }
  }

  function Spent(phases: seq<Phase>, initial: Text, tc: Transitions, path: seq<Text>): real
    requires Walkable(phases, initial, tc, path)
  {
    ExecutionTotal(phases, path) + TransitionTotal(phases, initial, tc, path)
  }

  /** No choice of a candidate per phase spends less, and of those that spend as little this is the earliest. */
  ghost predicate BestChoice(phases: seq<Phase>, initial: Text, tc: Transitions, path: seq<Text>) {
    && |path| == |phases| && Walkable(phases, initial, tc, path)
    && forall q :: |q| == |phases| && Walkable(phases, initial, tc, q) ==> Beats(phases, initial, tc, path, q)
  }

  ghost predicate Beats(phases: seq<Phase>, initial: Text, tc: Transitions, path: seq<Text>, q: seq<Text>)
    requires Walkable(phases, initial, tc, path) && Walkable(phases, initial, tc, q)
  {
    var x, y := Spent(phases, initial, tc, path), Spent(phases, initial, tc, q);
    x < y || (x == y && (path == q || exists k: nat :: EarlierAt(path, q, k)))
  }

  lemma OptimalIsBestChoice(phases: seq<Phase>, initial: Text, tc: Transitions, path: seq<Text>)
    requires Optimal(phases, initial, tc, path) && ValidTransitions(tc)
    ensures BestChoice(phases, initial, tc, path)
  {
    PathCostIs(phases, initial, tc, path);
    forall q | |q| == |phases| && Walkable(phases, initial, tc, q) ensures Beats(phases, initial, tc, path, q) {
      WalkableIsLegal(phases, initial, tc, q);
      PathCostIs(phases, initial, tc, q);
      PathBeforeIff(path, q);
    }
  }

  lemma AllDeclaredIff(phases: seq<Phase>, initial: Text, tc: Transitions)
    requires ValidTransitions(tc)
    ensures AllDeclared(phases, initial, tc) <==> EveryChangeDeclared(phases, initial, tc)
  {
    if AllDeclared(phases, initial, tc) {
      forall i: nat, a, b | i < |phases| && CanChange(phases, initial, i, a, b) ensures a == b || (a, b) in tc
      {
        assert StageDeclared(phases, initial, tc, i);
        assert a in Sources(phases, initial, i) && b in phases[i].costs.Keys;
        assert TransitionCost(tc, a, b).Some?;
      }
    }
    if EveryChangeDeclared(phases, initial, tc) {
      forall i | 0 <= i < |phases| ensures StageDeclared(phases, initial, tc, i) {
        forall a, b | a in Sources(phases, initial, i) && b in phases[i].costs.Keys ensures TransitionCost(tc, a, b).Some? {
          assert CanChange(phases, initial, i, a, b);
        }
      }
    }
  }

  // ---- dominance ----

  /** The optimal path is unique, so the oracle's answer does not depend on iteration order. */
  lemma OptimalIsUnique(phases: seq<Phase>, initial: Text, tc: Transitions, a: seq<Text>, b: seq<Text>)
    requires Optimal(phases, initial, tc, a) && Optimal(phases, initial, tc, b)
    ensures a == b
  {
    NotWorseTotal(PathCost(phases, initial, tc, a), a, PathCost(phases, initial, tc, b), b);
  }

  /** Whatever policy is evaluated on the same inputs, by whatever rule, reports at least
      the oracle's cumulative cost; at the same cost its path is not before the oracle's. */
  lemma OracleDominates(phases: seq<Phase>, initial: Text, tc: Transitions, oracle: PolicyResult, other: PolicyResult)
    requires Reports(phases, initial, tc, oracle) && Optimal(phases, initial, tc, Candidates(oracle.steps))
    requires Reports(phases, initial, tc, other)
    ensures oracle.cumulative <= other.cumulative
    ensures oracle.cumulative == other.cumulative ==> !PathBefore(Candidates(other.steps), Candidates(oracle.steps))
  {
    var a, b := Candidates(oracle.steps), Candidates(other.steps);
    PathTrichotomy(a, b);
    PathTrichotomy(a, a);
  }
}
