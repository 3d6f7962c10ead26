/** Runs in which the rollback of a committed migration does not return to its source: after
    later migrations, on a shared deployment, and after switches made on the runtime itself. */
module OrchestratorWitnesses {
  import opened Wrappers
  import opened Text
  import opened Queries
  import opened Mixes
  import R = Router
  import opened RouterRuns
  import opened Controllers
  import opened Orchestrator
  import opened OrchestratorMoves
  import opened OrchestratorRuns

  const NO_FAULTS := RollbackFaults(NoFault, NoFault, NoFault)

  /** The ledgers the program starts with. */
  const EMPTY := World(Ledgers(map[], map[], map[]), map[])

  lemma Extends(w: World, run: seq<Done>, move: Move, u: World)
    requires IsRun(w, run) && Next(Now(w, run), move, u)
    ensures IsRun(w, run + [Done(move, u)]) && Now(w, run + [Done(move, u)]) == u
  {
    var longer := run + [Done(move, u)];
    forall i | 0 <= i < |longer| ensures NextAt(w, longer, i) {
      if i < |run| { assert NextAt(w, run, i); }
    }
  }

  /** One migration as its maker describes it. */
  datatype Plot = Plot(migration: Text, target: Text, snapshot: Snapshot, prediction: Prediction, artifact: Text, manifest: Text)

  /** Session and its deployment show one candidate, and nothing is staged. */
  predicate Stands(w: World, session: Text, deployment: Text, candidate: Text) {
    && Shows(w.ledgers, session, Some(deployment), candidate)
    && BoundTo(w, OverDataPlane, session) == Some(deployment)
    && w.ledgers.routes[deployment].staged.None?
    && session != [] && candidate != [] && SaneSession(w.ledgers.sessions[session])
  }

  /** The plot can be carried out from candidate `source`. */
  predicate Workable(w: World, session: Text, source: Text, p: Plot) {
    && session in w.ledgers.sessions && p.snapshot.sequence > w.ledgers.sessions[session].lastObserved
    && Recommends(w.ledgers.sessions[session], p.snapshot, p.prediction)
    && CanPlan(w.ledgers.migrations, p.migration, session, source, p.target)
    && R.IsShortId(p.target) && IsHex64(p.artifact) && IsHex64(p.manifest)
  }

  /** After a switch at the first snapshot the session can be recommended another at the second. */
  predicate Follows(s: Session, first: Snapshot, second: Snapshot) {
    first.sequence + s.cooldown < second.sequence && Drifted(first.mix, second.mix, s.driftThreshold)
  }

  function Recorded(session: Text, source: Text, p: Plot, state: MigrationState): Migration {
    Migration(session, source, p.target, state, Some(p.artifact), Some(p.manifest), true, true)
  }

  /** Observed, planned, built and verified. */
  function Prepared(w: World, session: Text, source: Text, p: Plot): World
    requires session in w.ledgers.sessions
  {
    var s := w.ledgers.sessions[session].(lastObserved := p.snapshot.sequence, pending := Some(p.target), pendingSnapshot := Some(p.snapshot));
    w.(ledgers := Ledgers(w.ledgers.sessions[session := s],
                          w.ledgers.migrations[p.migration := Recorded(session, source, p, Verified)],
                          w.ledgers.routes))
  }

  lemma Prepares(w: World, run: seq<Done>, session: Text, source: Text, p: Plot) returns (longer: seq<Done>)
    requires IsRun(w, run) && Workable(Now(w, run), session, source, p)
    ensures IsRun(w, longer) && Now(w, longer) == Prepared(Now(w, run), session, source, p)
  {
    var now := Now(w, run);
    HexIsNormal(p.artifact);
    HexIsNormal(p.manifest);
    var s := now.ledgers.sessions[session].(lastObserved := p.snapshot.sequence, pending := Some(p.target), pendingSnapshot := Some(p.snapshot));
    var observed := now.(ledgers := now.ledgers.(sessions := now.ledgers.sessions[session := s]));
    var move := OnRuntime(Observe(session, p.snapshot, p.target, p.prediction));
    longer := run + [Done(move, observed)];
    Extends(w, run, move, observed);
    longer := BuildsAndVerifies(w, longer, session, source, p);
  }

  lemma BuildsAndVerifies(w: World, run: seq<Done>, session: Text, source: Text, p: Plot) returns (longer: seq<Done>)
    requires IsRun(w, run) && IsHex64(p.artifact) && IsHex64(p.manifest)
    requires CanPlan(Now(w, run).ledgers.migrations, p.migration, session, source, p.target)
    ensures IsRun(w, longer)
    ensures var l := Now(w, run).ledgers;
            Now(w, longer) == Now(w, run).(ledgers := l.(migrations := l.migrations[p.migration := Recorded(session, source, p, Verified)]))
  {
    var t := Now(w, run).ledgers.migrations;
    var planned := NewMigration(session, source, p.target);
    var built := planned.(artifact := Some(p.artifact), state := ShadowBuilt);
    BuiltAndVerified(t, session, source, p);
    longer := Records(w, run, Plan(p.migration, session, source, p.target), p.migration, planned);
    longer := Records(w, longer, Shadow(p.migration, p.artifact), p.migration, built);
    longer := Records(w, longer, Verify(p.migration, true, true, p.manifest), p.migration, Recorded(session, source, p, Verified));
    assert t[p.migration := planned][p.migration := built][p.migration := Recorded(session, source, p, Verified)] ==
           t[p.migration := Recorded(session, source, p, Verified)];
  }

  lemma BuiltAndVerified(t: Migrations, session: Text, source: Text, p: Plot)
    requires CanPlan(t, p.migration, session, source, p.target) && IsHex64(p.artifact) && IsHex64(p.manifest)
    ensures var planned := NewMigration(session, source, p.target);
            var built := planned.(artifact := Some(p.artifact), state := ShadowBuilt);
            var t1 := t[p.migration := planned];
            var t2 := t1[p.migration := built];
            && MigrationsAfter(t, Plan(p.migration, session, source, p.target)) == t1
            && MigrationsAfter(t1, Shadow(p.migration, p.artifact)) == t2
            && MigrationsAfter(t2, Verify(p.migration, true, true, p.manifest)) ==
               t2[p.migration := Recorded(session, source, p, Verified)]
  {
    HexIsNormal(p.artifact);
    HexIsNormal(p.manifest);
  }

  /** One move on the migration ledger. */
  lemma Records(w: World, run: seq<Done>, call: MigrationCall, id: Text, m: Migration) returns (longer: seq<Done>)
    requires IsRun(w, run)
    requires MigrationsAfter(Now(w, run).ledgers.migrations, call) == Now(w, run).ledgers.migrations[id := m]
    ensures IsRun(w, longer)
    ensures var l := Now(w, run).ledgers;
            Now(w, longer) == Now(w, run).(ledgers := l.(migrations := l.migrations[id := m]))
  {
    var now := Now(w, run);
    var u := now.(ledgers := now.ledgers.(migrations := now.ledgers.migrations[id := m]));
    Extends(w, run, OnMigrations(call), u);
    longer := run + [Done(OnMigrations(call), u)];
  }

  function PutInFront(d: R.Deployment, p: Plot): R.Deployment {
    R.Activate(R.Stage(d, p.target, p.artifact, p.manifest, map[]))
  }

  /** Prepared, staged, activated, confirmed and committed. */
  function Carried(w: World, session: Text, deployment: Text, source: Text, p: Plot): World
    requires session in w.ledgers.sessions && deployment in w.ledgers.routes
  {
    w.(ledgers := Ledgers(w.ledgers.sessions[session := Confirmed(Prepared(w, session, source, p).ledgers.sessions[session], p.target)],
                          w.ledgers.migrations[p.migration := Recorded(session, source, p, Committed)],
                          w.ledgers.routes[deployment := PutInFront(w.ledgers.routes[deployment], p)]))
  }

  lemma StagesIt(t: R.Table, id: Text, p: Plot)
    requires id in t && t[id].staged.None? && t[id].active.candidate != p.target
    requires R.IsShortId(p.target) && IsHex64(p.artifact) && IsHex64(p.manifest)
    ensures R.After(t, id, R.StageOp(p.target, p.artifact, p.manifest, map[])) ==
            t[id := R.Stage(t[id], p.target, p.artifact, p.manifest, map[])]
  {
    HexIsNormal(p.artifact);
    HexIsNormal(p.manifest);
  }

  lemma Stages(w: World, run: seq<Done>, session: Text, deployment: Text, source: Text, p: Plot) returns (longer: seq<Done>)
    requires IsRun(w, run) && Stands(Now(w, run), session, deployment, source)
    requires Workable(Now(w, run), session, source, p)
    ensures IsRun(w, longer)
    ensures var l := Prepared(Now(w, run), session, source, p).ledgers;
            Now(w, longer) == Now(w, run).(ledgers := l.(routes :=
              l.routes[deployment := R.Stage(l.routes[deployment], p.target, p.artifact, p.manifest, map[])]))
  {
    var prepared := Prepared(Now(w, run), session, source, p);
    longer := Prepares(w, run, session, source, p);
    StagesIt(prepared.ledgers.routes, deployment, p);
    var l := prepared.ledgers;
    var u := prepared.(ledgers := l.(routes := R.After(l.routes, deployment, R.StageOp(p.target, p.artifact, p.manifest, map[]))));
    assert StageRequest(l, prepared.bindings, p.migration, map[]) ==
           Some(Call(deployment, R.StageOp(p.target, p.artifact, p.manifest, map[])));
    Extends(w, longer, StageVerified(p.migration, map[]), u);
    longer := longer + [Done(StageVerified(p.migration, map[]), u)];
  }

  /** A whole migration, from the observation that recommends it to its commit. */
  lemma Carries(w: World, run: seq<Done>, session: Text, deployment: Text, source: Text, p: Plot, reason: Text)
    returns (longer: seq<Done>)
    requires IsRun(w, run) && Stands(Now(w, run), session, deployment, source) && reason != []
    requires Workable(Now(w, run), session, source, p)
    ensures IsRun(w, longer) && Now(w, longer) == Carried(Now(w, run), session, deployment, source, p)
  {
    longer := Stages(w, run, session, deployment, source, p);
    var staged := Now(w, longer);
    var u := Carried(Now(w, run), session, deployment, source, p);
    CommitsIt(staged.ledgers, u.ledgers, session, deployment, p.migration, reason);
    Extends(w, longer, Authorize(OverDataPlane, session, p.migration, reason), u);
    longer := longer + [Done(Authorize(OverDataPlane, session, p.migration, reason), u)];
  }

  lemma CommitsIt(w: Ledgers, u: Ledgers, session: Text, deployment: Text, migration: Text, reason: Text)
    requires session in w.sessions && migration in w.migrations && deployment in w.routes
    requires var m, s, d := w.migrations[migration], w.sessions[session], w.routes[deployment];
             && m.session == session && m.state == Verified && m.source != m.target
             && SaneSession(s) && s.pending == Some(m.target) && s.active == m.source
             && d.active.candidate == m.source && d.staged.Some? && d.staged.value.candidate == m.target
             && d.staged.value.generation == d.active.generation + 1
             && u == Ledgers(w.sessions[session := Confirmed(s, m.target)], w.migrations[migration := m.(state := Committed)],
                             w.routes[deployment := R.Activate(d)])
    ensures CommitEnds(w, u, session, migration, Some(deployment), reason)
  {
  }

  lemma CarriedStands(w: World, session: Text, deployment: Text, source: Text, p: Plot)
    requires Stands(w, session, deployment, source) && Workable(w, session, source, p)
    ensures var u := Carried(w, session, deployment, source, p);
            && Stands(u, session, deployment, p.target)
            && u.ledgers.sessions[session].pending.None? && u.ledgers.sessions[session].rollbackAvailable
            && u.ledgers.sessions[session].previous == Some(source)
            && u.ledgers.sessions[session].lastObserved == p.snapshot.sequence
            && u.ledgers.sessions[session].lastSwitch == Some(p.snapshot.sequence)
            && u.ledgers.sessions[session].cooldown == w.ledgers.sessions[session].cooldown
            && u.ledgers.sessions[session].baseline == p.snapshot.mix
            && u.ledgers.sessions[session].driftThreshold == w.ledgers.sessions[session].driftThreshold
            && u.ledgers.routes[deployment].stack == w.ledgers.routes[deployment].stack + [w.ledgers.routes[deployment].active]
            && u.ledgers.migrations == w.ledgers.migrations[p.migration := Recorded(session, source, p, Committed)]
  {
  }

  /** After A to B, B to C and C to B the first migration may still be rolled back: its
      record is committed and session and route show its target. The rollback lands on C. */
  lemma RollingBackAnEarlierMigration(w: World, session: Text, deployment: Text, a: Text, first: Plot, second: Plot, third: Plot, reason: Text)
    returns (run: seq<Done>)
    requires Stands(w, session, deployment, a) && reason != []
    requires Workable(w, session, a, first)
    requires Workable(w, session, first.target, second) && Workable(w, session, second.target, third)
    requires first.migration != second.migration && first.migration != third.migration && second.migration != third.migration
    requires var s := w.ledgers.sessions[session];
             Follows(s, first.snapshot, second.snapshot) && Follows(s, second.snapshot, third.snapshot)
    requires third.target == first.target && second.target != a
    ensures IsRun(w, run)
    ensures var now := Now(w, run).ledgers;
            && first.migration in now.migrations && now.migrations[first.migration].source == a
            && RollbackAllowed(now, session, first.migration, Some(deployment), reason)
            && now.sessions[session].pending.None?
            && var after := AfterRollback(now, session, first.migration, Some(deployment), reason, NO_FAULTS);
               && Shows(after, session, Some(deployment), second.target)
               && !Shows(after, session, Some(deployment), a)
  {
    var b, c := first.target, second.target;
    var w1 := Carried(w, session, deployment, a, first);
    var w2 := Carried(w1, session, deployment, b, second);
    var w3 := Carried(w2, session, deployment, c, third);
    assert IsRun(w, []);
    run := Carries(w, [], session, deployment, a, first, reason);
    CarriedStands(w, session, deployment, a, first);
    run := Carries(w, run, session, deployment, b, second, reason);
    CarriedStands(w1, session, deployment, b, second);
    run := Carries(w, run, session, deployment, c, third, reason);
    CarriedStands(w2, session, deployment, c, third);
    LandsOn(w3.ledgers, session, deployment, first.migration, c, reason);
  }

  lemma LandsOn(now: Ledgers, session: Text, deployment: Text, migration: Text, c: Text, reason: Text)
    requires RollbackAllowed(now, session, migration, Some(deployment), reason) && now.sessions[session].pending.None?
    requires now.sessions[session].previous == Some(c)
    requires var stack := now.routes[deployment].stack; stack[|stack| - 1].candidate == c
    ensures Shows(AfterRollback(now, session, migration, Some(deployment), reason, NO_FAULTS), session, Some(deployment), c)
  {
  }

  /** That the deployment is the session's own matters. Nothing keeps a second session from
      being bound to it; after that one has gone from B to C and back, the first session's
      migration from A to B may be rolled back, and takes the session to A and the route to C. */
  lemma SharedDeploymentParts(w: World, session: Text, other: Text, deployment: Text, a: Text,
                              first: Plot, second: Plot, third: Plot, reason: Text)
    returns (run: seq<Done>)
    requires Stands(w, session, deployment, a) && reason != []
    requires Workable(w, session, a, first)
    requires other != session && other != [] && other in w.ledgers.sessions
    requires SaneSession(w.ledgers.sessions[other]) && w.ledgers.sessions[other].active == first.target
    requires Workable(w, other, first.target, second) && Workable(w, other, second.target, third)
    requires first.migration != second.migration && first.migration != third.migration && second.migration != third.migration
    requires Follows(w.ledgers.sessions[other], second.snapshot, third.snapshot)
    requires third.target == first.target && second.target != a
    ensures IsRun(w, run)
    ensures var now := Now(w, run).ledgers;
            && RollbackAllowed(now, session, first.migration, Some(deployment), reason)
            && now.sessions[session].pending.None?
            && var after := AfterRollback(now, session, first.migration, Some(deployment), reason, NO_FAULTS);
               && session in after.sessions && after.sessions[session].active == a
               && deployment in after.routes && after.routes[deployment].active.candidate == second.target
  {
    var b, c := first.target, second.target;
    var w1 := Carried(w, session, deployment, a, first);
    run := Carries(w, [], session, deployment, a, first, reason);
    CarriedStands(w, session, deployment, a, first);
    var w2 := w1.(bindings := w1.bindings[other := deployment]);
    assert w1.ledgers.sessions[other] == w.ledgers.sessions[other];
    Extends(w, run, Bind(other, deployment), w2);
    run := run + [Done(Bind(other, deployment), w2)];
    run := GoesAndComesBack(w, run, session, other, deployment, b, second, third, reason);
    PartsOnRollback(Now(w, run).ledgers, session, deployment, first.migration, a, c, reason);
  }

  lemma GoesAndComesBack(w: World, run: seq<Done>, session: Text, other: Text, deployment: Text, b: Text,
                         second: Plot, third: Plot, reason: Text)
    returns (longer: seq<Done>)
    requires IsRun(w, run) && Stands(Now(w, run), other, deployment, b) && reason != [] && other != session
    requires Workable(Now(w, run), other, b, second) && Workable(Now(w, run), other, second.target, third)
    requires second.migration != third.migration && third.target == b
    requires Follows(Now(w, run).ledgers.sessions[other], second.snapshot, third.snapshot)
    ensures IsRun(w, longer)
    ensures var l, u := Now(w, run).ledgers, Now(w, longer).ledgers;
            && (session in l.sessions ==> session in u.sessions && u.sessions[session] == l.sessions[session])
            && (forall m :: m in l.migrations && m != second.migration && m != third.migration ==>
                  m in u.migrations && u.migrations[m] == l.migrations[m])
            && deployment in u.routes && u.routes[deployment].active.candidate == b
            && var stack := u.routes[deployment].stack; stack != [] && stack[|stack| - 1].candidate == second.target
  {
    var now := Now(w, run);
    longer := Carries(w, run, other, deployment, b, second, reason);
    CarriedStands(now, other, deployment, b, second);
    var there := Now(w, longer);
    longer := Carries(w, longer, other, deployment, second.target, third, reason);
    CarriedStands(there, other, deployment, second.target, third);
  }

  lemma PartsOnRollback(now: Ledgers, session: Text, deployment: Text, migration: Text, a: Text, c: Text, reason: Text)
    requires RollbackAllowed(now, session, migration, Some(deployment), reason) && now.sessions[session].pending.None?
    requires now.sessions[session].previous == Some(a)
    requires var stack := now.routes[deployment].stack; stack[|stack| - 1].candidate == c
    ensures var after := AfterRollback(now, session, migration, Some(deployment), reason, NO_FAULTS);
            && session in after.sessions && after.sessions[session].active == a
            && deployment in after.routes && after.routes[deployment].active.candidate == c
  {
  }

  // ---- switches made on the runtime ----

  /** A switch of the session to `target` can be recommended and confirmed. */
  predicate Recommendable(w: World, session: Text, snapshot: Snapshot, p: Prediction) {
    && session in w.ledgers.sessions
    && snapshot.sequence > w.ledgers.sessions[session].lastObserved
    && Recommends(w.ledgers.sessions[session], snapshot, p)
  }

  function SwitchedTo(s: Session, target: Text, snapshot: Snapshot): Session {
    Confirmed(s.(lastObserved := snapshot.sequence, pending := Some(target), pendingSnapshot := Some(snapshot)), target)
  }

  function WithSession(w: World, session: Text, s: Session): World {
    w.(ledgers := w.ledgers.(sessions := w.ledgers.sessions[session := s]))
  }

  lemma SwitchesDirectly(w: World, run: seq<Done>, session: Text, target: Text, snapshot: Snapshot, p: Prediction)
    returns (longer: seq<Done>)
    requires IsRun(w, run) && Recommendable(Now(w, run), session, snapshot, p)
    ensures IsRun(w, longer)
    ensures Now(w, longer) == WithSession(Now(w, run), session, SwitchedTo(Now(w, run).ledgers.sessions[session], target, snapshot))
  {
    var now := Now(w, run);
    var s := now.ledgers.sessions[session].(lastObserved := snapshot.sequence, pending := Some(target), pendingSnapshot := Some(snapshot));
    var observed := WithSession(now, session, s);
    var observe, confirm := OnRuntime(Observe(session, snapshot, target, p)), OnRuntime(Confirm(session, target, NoFault));
    Extends(w, run, observe, observed);
    longer := run + [Done(observe, observed)];
    var u := WithSession(observed, session, Confirmed(s, target));
    Extends(w, longer, confirm, u);
    longer := longer + [Done(confirm, u)];
  }

  /** The deployment is the session's own, and the last commit is the migration's. But the
      session has since been confirmed at C and back at B on the runtime, which the route does
      not follow. Its rollback takes the session to C and the route to A. */
  lemma DirectConfirmsPart(w: World, session: Text, deployment: Text, a: Text, first: Plot, c: Text,
                           there: Snapshot, back: Snapshot, p: Prediction, reason: Text)
    returns (run: seq<Done>)
    requires Stands(w, session, deployment, a) && reason != []
    requires Workable(w, session, a, first)
    requires Recommendable(w, session, there, p) && Recommendable(w, session, back, p)
    requires var s := w.ledgers.sessions[session]; Follows(s, first.snapshot, there) && Follows(s, there, back)
    ensures IsRun(w, run) && Now(w, run).bindings == w.bindings
    ensures var now := Now(w, run).ledgers;
            && RollbackAllowed(now, session, first.migration, Some(deployment), reason)
            && now.sessions[session].pending.None?
            && var after := AfterRollback(now, session, first.migration, Some(deployment), reason, NO_FAULTS);
               && SessionShows(after, session) == Some(c)
               && RouteShows(after, Some(deployment)) == Some(a)
  {
    var b := first.target;
    run := Carries(w, [], session, deployment, a, first, reason);
    CarriedStands(w, session, deployment, a, first);
    run := SwitchesDirectly(w, run, session, c, there, p);
    run := SwitchesDirectly(w, run, session, b, back, p);
    PartsOnRollback(Now(w, run).ledgers, session, deployment, first.migration, c, a, reason);
  }

  // ---- such runs start from empty ledgers ----

  function Repeated(n: nat): (t: Text)
    ensures |t| == n && forall i :: 0 <= i < n ==> t[i] == 97
  {
    if n == 0 then [] else Repeated(n - 1) + [97]
  }

  const DIGEST: Text := Repeated(64)

  const SURE := Prediction(2.0, 1.0, 0.0, 1.0, 0.0)

  function At(sequence: int): Snapshot {
    Snapshot(sequence, Mix(map[PointLookup := 1.0], map[]), 1)
  }

  function PlotTo(migration: Text, target: Text, sequence: int): Plot {
    Plot(migration, target, At(sequence), SURE, DIGEST, DIGEST)
  }

  /** Deployment "d" shows "a", session "s" stands there and is bound to it, session "t" stands at "b". */
  const READY := World(
    Ledgers(map[Lit("s") := NewSession(Lit("a"), At(0), 0.0, 0), Lit("t") := NewSession(Lit("b"), At(0), 0.0, 0)], map[],
            map[Lit("d") := R.Bootstrap(Lit("a"), DIGEST, None, map[])]),
    map[Lit("s") := Lit("d")])

  lemma FromNothing() returns (run: seq<Done>)
    ensures IsRun(EMPTY, run) && Now(EMPTY, run) == READY
  {
    run := Bootstrapped();
    TwoSessions();
    var one := Now(EMPTY, run).ledgers.(sessions := map[Lit("s") := NewSession(Lit("a"), At(0), 0.0, 0)]);
    var begin := OnRuntime(Begin(Lit("s"), Lit("a"), At(0), 0.0, 0));
    Extends(EMPTY, run, begin, EMPTY.(ledgers := one));
    run := run + [Done(begin, EMPTY.(ledgers := one))];
    var two := READY.(bindings := map[]);
    begin := OnRuntime(Begin(Lit("t"), Lit("b"), At(0), 0.0, 0));
    Extends(EMPTY, run, begin, two);
    run := run + [Done(begin, two)];
    Extends(EMPTY, run, Bind(Lit("s"), Lit("d")), READY);
    run := run + [Done(Bind(Lit("s"), Lit("d")), READY)];
  }

  lemma Bootstrapped() returns (run: seq<Done>)
    ensures IsRun(EMPTY, run) && Now(EMPTY, run) == EMPTY.(ledgers := Ledgers(map[], map[], READY.ledgers.routes))
  {
    run := BootstrapsOne(Lit("d"), Lit("a"), DIGEST);
  }

  lemma BootstrapsOne(id: Text, candidate: Text, digest: Text) returns (run: seq<Done>)
    requires R.IsShortId(id) && R.IsShortId(candidate) && IsHex64(digest)
    ensures IsRun(EMPTY, run)
    ensures Now(EMPTY, run) ==
            EMPTY.(ledgers := Ledgers(map[], map[], map[id := R.Bootstrap(candidate, digest, None, map[])]))
  {
    HexIsNormal(digest);
    var served := EMPTY.(ledgers := Ledgers(map[], map[], map[id := R.Bootstrap(candidate, digest, None, map[])]));
    var bootstrap := OnRouter(Call(id, R.BootstrapOp(candidate, digest, None, map[])));
    Extends(EMPTY, [], bootstrap, served);
    run := [] + [Done(bootstrap, served)];
  }

  lemma TwoSessions()
    ensures Lit("s") != Lit("t")
    ensures SessionsAfter(map[Lit("s") := NewSession(Lit("a"), At(0), 0.0, 0)], Begin(Lit("t"), Lit("b"), At(0), 0.0, 0)) ==
            READY.ledgers.sessions
  {
    assert Lit("s")[0] != Lit("t")[0];
  }

  /** What the three runs ask of their start holds of that world, together. */
  lemma ReadyForAll()
    ensures Sound(READY.ledgers)
    ensures Stands(READY, Lit("s"), Lit("d"), Lit("a"))
    ensures var first, second, third := PlotTo(Lit("1"), Lit("b"), 1), PlotTo(Lit("2"), Lit("c"), 2), PlotTo(Lit("3"), Lit("b"), 3);
            && Workable(READY, Lit("s"), Lit("a"), first)
            && Workable(READY, Lit("s"), first.target, second) && Workable(READY, Lit("s"), second.target, third)
            && Workable(READY, Lit("t"), first.target, second) && Workable(READY, Lit("t"), second.target, third)
            && first.migration != second.migration && first.migration != third.migration && second.migration != third.migration
            && second.target != Lit("a")
            && Follows(READY.ledgers.sessions[Lit("s")], first.snapshot, second.snapshot)
            && Follows(READY.ledgers.sessions[Lit("s")], second.snapshot, third.snapshot)
            && Follows(READY.ledgers.sessions[Lit("t")], second.snapshot, third.snapshot)
            && Recommendable(READY, Lit("s"), At(2), SURE) && Recommendable(READY, Lit("s"), At(3), SURE)
  {
    ReadySound();
    LettersDiffer();
  }

  lemma ReadySound()
    ensures Sound(READY.ledgers)
  {
    BootstrapWellFormed(Lit("a"), DIGEST, None, map[]);
  }

  lemma LettersDiffer()
    ensures Lit("a") != Lit("b") && Lit("b") != Lit("c") && Lit("a") != Lit("c") && Lit("s") != Lit("t")
    ensures Lit("1") != Lit("2") && Lit("1") != Lit("3") && Lit("2") != Lit("3")
  {
    assert Lit("a")[0] != Lit("b")[0] && Lit("b")[0] != Lit("c")[0] && Lit("a")[0] != Lit("c")[0] && Lit("s")[0] != Lit("t")[0];
    assert Lit("1")[0] != Lit("2")[0] && Lit("1")[0] != Lit("3")[0] && Lit("2")[0] != Lit("3")[0];
  }

  lemma RunsJoin(w: World, run: seq<Done>, more: seq<Done>)
    requires IsRun(w, run) && IsRun(Now(w, run), more)
    ensures IsRun(w, run + more) && Now(w, run + more) == Now(Now(w, run), more)
  {
    forall i | 0 <= i < |run + more| ensures NextAt(w, run + more, i) {
      if i < |run| { assert NextAt(w, run, i); } else { assert NextAt(Now(w, run), more, i - |run|); }
    }
  }

  /** A run from the empty ledgers at whose end the rollback of the session's only committed
      migration, bound and with nothing pending, parts session and route. */
  lemma PartedFromNothing() returns (run: seq<Done>)
    ensures IsRun(EMPTY, run)
    ensures var now := Now(EMPTY, run).ledgers;
            && BoundTo(Now(EMPTY, run), OverDataPlane, Lit("s")) == Some(Lit("d"))
            && RollbackAllowed(now, Lit("s"), Lit("1"), Some(Lit("d")), Lit("why"))
            && now.sessions[Lit("s")].pending.None?
            && !Together(AfterRollback(now, Lit("s"), Lit("1"), Some(Lit("d")), Lit("why"), NO_FAULTS), Lit("s"), Some(Lit("d")))
  {
    var start := FromNothing();
    ReadyForAll();
    LettersDiffer();
    var more := DirectConfirmsPart(READY, Lit("s"), Lit("d"), Lit("a"), PlotTo(Lit("1"), Lit("b"), 1), Lit("c"), At(2), At(3), SURE, Lit("why"));
    RunsJoin(EMPTY, start, more);
    run := start + more;
  }
}
