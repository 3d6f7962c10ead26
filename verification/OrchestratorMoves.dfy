/** Everything that can happen to the ledgers: the calls of the three controllers, of the
    orchestrator over the data plane, and of the second one that the program keeps over the
    same sessions and migrations without a data plane. */
module OrchestratorMoves {
  import opened Wrappers
  import opened Text
  import R = Router
  import opened RouterRuns
  import opened Controllers
  import opened Orchestrator

  /** The ledgers and the table of bindings of the orchestrator over the data plane. */
  datatype World = World(ledgers: Ledgers, bindings: map<Text, Text>)

  /** Which of the two orchestrators is asked; only one knows the router. */
  datatype Via = OverDataPlane | ControlPlaneOnly

  datatype RuntimeCall =
    | Begin(session: Text, active: Text, baseline: Snapshot, driftThreshold: real, cooldown: int)
    | Observe(session: Text, snapshot: Snapshot, alternative: Text, prediction: Prediction)
    | Confirm(session: Text, candidate: Text, fault: Fault)
    | RollBackSwitch(session: Text, fault: Fault)
    | DropPending(session: Text)

  datatype MigrationCall =
    | Plan(migration: Text, session: Text, source: Text, target: Text)
    | Shadow(migration: Text, artifact: Text)
    | Verify(migration: Text, compiles: bool, correct: bool, manifest: Text)
    | CommitRecord(migration: Text, fault: Fault)
    | RollBackRecord(migration: Text, fault: Fault)
    | AbortRecord(migration: Text, reason: Text)

  datatype Move =
    | OnRuntime(runtimeCall: RuntimeCall)
    | OnMigrations(migrationCall: MigrationCall)
    | OnRouter(routerCall: Call)
    | Bind(session: Text, deployment: Text)
    | StageVerified(migration: Text, metadata: R.Metadata)
    | Authorize(via: Via, session: Text, migration: Text, reason: Text)
    | Abort(via: Via, session: Text, migration: Text, reason: Text)
    | TakeBack(via: Via, session: Text, migration: Text, reason: Text, faults: RollbackFaults)

  /** The deployment an orchestrator finds for a session. */
  function BoundTo(w: World, via: Via, session: Text): Option<Text> {
    if via == OverDataPlane && session in w.bindings then Some(w.bindings[session]) else None
  }

  // ---- what each move does ----

  function SessionsAfter(t: Sessions, call: RuntimeCall): Sessions {
    match call
    case Begin(id, active, baseline, driftThreshold, cooldown) =>
      if CanStart(t, id, active, driftThreshold, cooldown) then t[id := NewSession(active, baseline, driftThreshold, cooldown)] else t
    case Observe(id, snapshot, alternative, p) =>
      if id !in t || snapshot.sequence <= t[id].lastObserved then t
      else t[id := Observed(t[id], snapshot, alternative, p)]
    case Confirm(id, candidate, fault) =>
      if fault != BeforeEffect && id in t && CanConfirm(t[id], candidate) then t[id := Confirmed(t[id], candidate)] else t
    case RollBackSwitch(id, fault) =>
      if fault != BeforeEffect && id in t && CanRollBack(t[id]) then t[id := RolledBackSession(t[id])] else t
    case DropPending(id) => if id in t then t[id := PendingDropped(t[id])] else t
  }

  function MigrationsAfter(t: Migrations, call: MigrationCall): Migrations {
    match call
    case Plan(id, session, source, target) =>
      if CanPlan(t, id, session, source, target) then t[id := NewMigration(session, source, target)] else t
    case Shadow(id, artifact) =>
      if id in t && t[id].state == Planned && IsHex64(Lower(artifact))
      then t[id := t[id].(artifact := Some(Lower(artifact)), state := ShadowBuilt)] else t
    case Verify(id, compiles, correct, manifest) =>
      if id in t && t[id].state == ShadowBuilt && IsHex64(Lower(manifest))
      then t[id := t[id].(compileVerified := compiles, correctnessVerified := correct, manifest := Some(Lower(manifest)),
                          state := if compiles && correct then Verified else ShadowBuilt)] else t
    case CommitRecord(id, fault) =>
      if fault != BeforeEffect && id in t && t[id].state == Verified then t[id := t[id].(state := Committed)] else t
    case RollBackRecord(id, fault) =>
      if fault != BeforeEffect && id in t && t[id].state == Committed then t[id := t[id].(state := MigrationState.RolledBack)] else t
    case AbortRecord(id, reason) =>
      if id in t && CanAbort(t[id], reason) then t[id := t[id].(state := Aborted)] else t
  }

  function StagedRoutes(w: World, migration: Text, metadata: R.Metadata): R.Table {
    var asked := StageRequest(w.ledgers, w.bindings, migration, metadata);
    if asked.Some? then Do(w.ledgers.routes, asked.value) else w.ledgers.routes
  }

  /** A commit changes nothing or ends in any of the states its faults can leave behind. */
  ghost predicate CommitEnds(w: Ledgers, u: Ledgers, session: Text, migration: Text, deployment: Option<Text>, reason: Text) {
    if Admissible(w, session, migration, deployment) && EntriesSound(w, session, migration, deployment)
    then u == w || Underway(w, u, session, migration, deployment, reason)
    else u == w
  }

  function LedgersTakenBack(w: Ledgers, session: Text, migration: Text, deployment: Option<Text>, reason: Text, faults: RollbackFaults): Ledgers {
    if RollbackAllowed(w, session, migration, deployment, reason)
    then AfterRollback(w, session, migration, deployment, reason, faults) else w
  }

  ghost predicate Next(w: World, move: Move, u: World) {
    match move
    case OnRuntime(call) => u == w.(ledgers := w.ledgers.(sessions := SessionsAfter(w.ledgers.sessions, call)))
    case OnMigrations(call) => u == w.(ledgers := w.ledgers.(migrations := MigrationsAfter(w.ledgers.migrations, call)))
    case OnRouter(call) => u == w.(ledgers := w.ledgers.(routes := Do(w.ledgers.routes, call)))
    case StageVerified(migration, metadata) =>
      u == w.(ledgers := w.ledgers.(routes := StagedRoutes(w, migration, metadata)))
    case Bind(session, deployment) =>
      u == if Bindable(w.ledgers, session, deployment) then w.(bindings := w.bindings[session := deployment]) else w
    case Authorize(via, session, migration, reason) =>
      reason != [] && u.bindings == w.bindings
      && CommitEnds(w.ledgers, u.ledgers, session, migration, BoundTo(w, via, session), reason)
    case Abort(via, session, migration, reason) =>
      u == w.(ledgers := AfterAbort(w.ledgers, session, migration, BoundTo(w, via, session), reason))
    case TakeBack(via, session, migration, reason, faults) =>
      u == w.(ledgers := LedgersTakenBack(w.ledgers, session, migration, BoundTo(w, via, session), reason, faults))
  }

  // ---- the program makes these moves ----

  /** The two orchestrators as the program sets them up: over one runtime and one migration
      ledger, the first with the router, the second without. */
  ghost predicate SetUp(o: SafeAdaptationOrchestrator, plain: SafeAdaptationOrchestrator)
    reads o, o.runtime, o.migrations, o.dataplane, plain, plain.runtime, plain.migrations, plain.dataplane
  {
    && o != plain && o.runtime == plain.runtime && o.migrations == plain.migrations
    && o.dataplane != null && plain.dataplane == null && plain.sessionDeployments == map[]
    && o.Valid()
  }

  function WorldOf(o: SafeAdaptationOrchestrator): World
    reads o, o.runtime, o.migrations, o.dataplane
  {
    World(o.World(), o.sessionDeployments)
  }

  /** Each call of the controllers and of the two orchestrators makes its move, whatever the
      faults; `PlanPending` makes a `Plan`, and leases, listings and views make none. */
  method Perform(o: SafeAdaptationOrchestrator, plain: SafeAdaptationOrchestrator, move: Move, faults: Faults)
    requires SetUp(o, plain)
    requires move.Authorize? ==> move.reason != []
    modifies o.Objects(), o`sessionDeployments
    ensures SetUp(o, plain)
    ensures Next(old(WorldOf(o)), move, WorldOf(o))
  {
    match move
    case OnRuntime(call) => PerformOnRuntime(o.runtime, call);
    case OnMigrations(call) => PerformOnMigrations(o.migrations, call);
    case OnRouter(call) => PerformOnRouter(o.dataplane, call);
    case Bind(session, deployment) => var raised := o.BindDeployment(session, deployment);
    case StageVerified(migration, metadata) => var raised := o.StageVerifiedMigration(migration, metadata);
    case Authorize(_, _, _, _) => PerformCommit(o, plain, move, faults, WorldOf(o));
    case Abort(_, _, _, _) => PerformAbort(o, plain, move, WorldOf(o));
    case TakeBack(_, _, _, _, _) => PerformTakeBack(o, plain, move, WorldOf(o));
  }

  method PerformOnRuntime(runtime: RuntimeController, call: RuntimeCall)
    requires runtime.Sane()
    modifies runtime
    ensures runtime.Sane()
    ensures runtime.sessions == SessionsAfter(old(runtime.sessions), call)
  {
    match call
    case Begin(session, active, baseline, driftThreshold, cooldown) =>
      var raised := runtime.Start(session, active, baseline, driftThreshold, cooldown);
    case Observe(session, snapshot, alternative, p) =>
      var raised := runtime.Observe(session, snapshot, alternative, p);
    case Confirm(session, candidate, fault) => var raised := runtime.Confirm(session, candidate, fault);
    case RollBackSwitch(session, fault) => var raised := runtime.RollBackLast(session, fault);
    case DropPending(session) => var raised := runtime.AbortPending(session);
  }

  method PerformOnMigrations(migrations: MigrationController, call: MigrationCall)
    requires migrations.Sane()
    modifies migrations
    ensures migrations.Sane()
    ensures migrations.records == MigrationsAfter(old(migrations.records), call)
  {
    match call
    case Plan(migration, session, source, target) => var raised := migrations.Plan(migration, session, source, target);
    case Shadow(migration, artifact) => var raised := migrations.RecordShadow(migration, artifact);
    case Verify(migration, compiles, correct, manifest) =>
      var raised := migrations.RecordVerification(migration, compiles, correct, manifest);
    case CommitRecord(migration, fault) => var raised := migrations.Commit(migration, fault);
    case RollBackRecord(migration, fault) => var raised := migrations.RollBack(migration, fault);
    case AbortRecord(migration, reason) => var raised := migrations.Abort(migration, reason);
  }

  method PerformOnRouter(router: R.VersionedArtifactRouter, call: Call)
    requires TableWellFormed(router.deployments)
    modifies router
    ensures TableWellFormed(router.deployments)
    ensures router.deployments == Do(old(router.deployments), call)
  {
    match call
    case ResetAll => router.Reset();
    case Call(deployment, op) =>
      ApplyWellFormed(router.deployments, deployment, op);
      match op {
        case BootstrapOp(candidate, artifact, manifest, metadata) =>
          var res := router.BootstrapDeployment(deployment, candidate, artifact, manifest, metadata);
        case StageOp(candidate, artifact, manifest, metadata) =>
          var res := router.StageVersion(deployment, candidate, artifact, manifest, metadata);
        case ActivateOp(source, target) => var res := router.ActivateStaged(deployment, source, target);
        case AbortOp(reason) => var res := router.AbortStaged(deployment, reason);
        case RollbackOp(reason) => var res := router.RollbackActive(deployment, reason);
      }
  }

  method PerformCommit(o: SafeAdaptationOrchestrator, plain: SafeAdaptationOrchestrator, move: Move, faults: Faults, ghost w: World)
    requires SetUp(o, plain) && move.Authorize? && move.reason != [] && w == WorldOf(o)
    modifies o.Objects()
    ensures SetUp(o, plain) && o.sessionDeployments == w.bindings
    ensures CommitEnds(w.ledgers, o.World(), move.session, move.migration, BoundTo(w, move.via, move.session), move.reason)
  {
    if move.via == OverDataPlane {
      CommitRouted(o, move, faults, w.ledgers);
    } else {
      CommitPlainly(plain, move, faults, w.ledgers);
    }
  }

  method PerformAbort(o: SafeAdaptationOrchestrator, plain: SafeAdaptationOrchestrator, move: Move, ghost w: World)
    requires SetUp(o, plain) && move.Abort? && w == WorldOf(o)
    modifies o.Objects()
    ensures SetUp(o, plain) && o.sessionDeployments == w.bindings
    ensures o.World() == AfterAbort(w.ledgers, move.session, move.migration, BoundTo(w, move.via, move.session), move.reason)
  {
    if move.via == OverDataPlane {
      var raised := o.AbortPlanned(move.session, move.migration, move.reason);
    } else {
      AbortPlainly(plain, move, w.ledgers);
    }
  }

  method PerformTakeBack(o: SafeAdaptationOrchestrator, plain: SafeAdaptationOrchestrator, move: Move, ghost w: World)
    requires SetUp(o, plain) && move.TakeBack? && w == WorldOf(o)
    modifies o.Objects()
    ensures SetUp(o, plain) && o.sessionDeployments == w.bindings
    ensures o.World() ==
              LedgersTakenBack(w.ledgers, move.session, move.migration, BoundTo(w, move.via, move.session), move.reason, move.faults)
  {
    if move.via == OverDataPlane {
      TakeBackRouted(o, move, w.ledgers);
    } else {
      TakeBackPlainly(plain, move, w.ledgers);
    }
  }

  method CommitRouted(o: SafeAdaptationOrchestrator, move: Move, faults: Faults, ghost w: Ledgers)
    requires o.Valid() && move.Authorize? && move.reason != [] && w == o.World()
    modifies o.Objects()
    ensures o.Valid()
    ensures CommitEnds(w, o.World(), move.session, move.migration, o.DeploymentFor(move.session), move.reason)
  {
    var outcome := o.AuthorizeCommit(move.session, move.migration, move.reason, faults);
  }

  method TakeBackRouted(o: SafeAdaptationOrchestrator, move: Move, ghost w: Ledgers)
    requires o.Valid() && move.TakeBack? && w == o.World()
    modifies o.Objects()
    ensures o.Valid()
    ensures o.World() == LedgersTakenBack(w, move.session, move.migration, o.DeploymentFor(move.session), move.reason, move.faults)
  {
    var outcome := o.RollBackCommitted(move.session, move.migration, move.reason, move.faults);
  }

  // ---- the orchestrator without a data plane ----

  /** It works on the two control-plane ledgers and knows no binding. */
  ghost predicate Plain(plain: SafeAdaptationOrchestrator, w: Ledgers)
    reads plain, plain.runtime, plain.migrations
  {
    && plain.dataplane == null && plain.sessionDeployments == map[]
    && plain.runtime.sessions == w.sessions && plain.migrations.records == w.migrations
  }

  /** The two ledgers of `plain`, beside the routes it does not see. */
  function Beside(plain: SafeAdaptationOrchestrator, w: Ledgers): Ledgers
    reads plain, plain.runtime, plain.migrations
  {
    Ledgers(plain.runtime.sessions, plain.migrations.records, w.routes)
  }

  method CommitPlainly(plain: SafeAdaptationOrchestrator, move: Move, faults: Faults, ghost w: Ledgers)
    requires Plain(plain, w) && Sound(w) && move.Authorize? && move.reason != []
    modifies plain.runtime, plain.migrations
    ensures Sound(Beside(plain, w))
    ensures CommitEnds(w, Beside(plain, w), move.session, move.migration, None, move.reason)
  {
    UnroutedSound(w);
    var outcome := plain.AuthorizeCommit(move.session, move.migration, move.reason, faults);
    UnroutedCommit(w, Beside(plain, w), move.session, move.migration, move.reason);
  }

  method AbortPlainly(plain: SafeAdaptationOrchestrator, move: Move, ghost w: Ledgers)
    requires Plain(plain, w) && Sound(w) && move.Abort?
    modifies plain.runtime, plain.migrations
    ensures Sound(Beside(plain, w))
    ensures Beside(plain, w) == AfterAbort(w, move.session, move.migration, None, move.reason)
  {
    UnroutedSound(w);
    var raised := plain.AbortPlanned(move.session, move.migration, move.reason);
    AfterAbortSound(w, move.session, move.migration, None, move.reason);
  }

  method TakeBackPlainly(plain: SafeAdaptationOrchestrator, move: Move, ghost w: Ledgers)
    requires Plain(plain, w) && Sound(w) && move.TakeBack?
    modifies plain.runtime, plain.migrations
    ensures Sound(Beside(plain, w))
    ensures Beside(plain, w) == LedgersTakenBack(w, move.session, move.migration, None, move.reason, move.faults)
  {
    UnroutedSound(w);
    var outcome := plain.RollBackCommitted(move.session, move.migration, move.reason, move.faults);
    TakenBackSound(w, move.session, move.migration, None, move.reason, move.faults);
  }

  /** The ledgers as it sees them. */
  function Unrouted(w: Ledgers): Ledgers {
    w.(routes := map[])
  }

  lemma UnroutedSound(w: Ledgers)
    requires Sound(w)
    ensures Sound(Unrouted(w))
  {
  }

  lemma UnroutedCommit(w: Ledgers, u: Ledgers, session: Text, migration: Text, reason: Text)
    requires Sound(w) && u.routes == w.routes
    requires CommitEnds(Unrouted(w), Unrouted(u), session, migration, None, reason)
    ensures CommitEnds(w, u, session, migration, None, reason) && Sound(u)
  {
    CommitEndsSound(w, u, session, migration, None, reason);
  }

  // ---- every move keeps the ledgers sound ----

  lemma SessionsStaySound(t: Sessions, call: RuntimeCall)
    requires SaneSessions(t)
    ensures SaneSessions(SessionsAfter(t, call))
  {
  }

  lemma MigrationsStaySound(t: Migrations, call: MigrationCall)
    requires SaneMigrations(t)
    ensures SaneMigrations(MigrationsAfter(t, call))
  {
  }

  lemma RoutesStaySound(t: R.Table, call: Call)
    requires TableWellFormed(t)
    ensures TableWellFormed(Do(t, call))
  {
    if call.Call? { ApplyWellFormed(t, call.id, call.op); }
  }

  lemma CommitEndsSound(w: Ledgers, u: Ledgers, session: Text, migration: Text, deployment: Option<Text>, reason: Text)
    requires Sound(w) && CommitEnds(w, u, session, migration, deployment, reason)
    ensures Sound(u)
  {
    if u != w && Admissible(w, session, migration, deployment) && EntriesSound(w, session, migration, deployment) {
      UnderwaySound(w, u, session, migration, deployment, reason);
    }
  }

  lemma TakenBackSound(w: Ledgers, session: Text, migration: Text, deployment: Option<Text>, reason: Text, faults: RollbackFaults)
    requires Sound(w)
    ensures Sound(LedgersTakenBack(w, session, migration, deployment, reason, faults))
  {
    if RollbackAllowed(w, session, migration, deployment, reason) {
      AfterRollbackSound(w, session, migration, deployment, reason, faults);
    }
  }

  lemma NextSound(w: World, move: Move, u: World)
    requires Sound(w.ledgers) && Next(w, move, u)
    ensures Sound(u.ledgers)
  {
    match move
    case OnRuntime(call) => SessionsStaySound(w.ledgers.sessions, call);
    case OnMigrations(call) => MigrationsStaySound(w.ledgers.migrations, call);
    case OnRouter(call) => RoutesStaySound(w.ledgers.routes, call);
    case Bind(_, _) =>
    case StageVerified(migration, metadata) =>
      var asked := StageRequest(w.ledgers, w.bindings, migration, metadata);
      if asked.Some? { RoutesStaySound(w.ledgers.routes, asked.value); }
    case Authorize(via, session, migration, reason) =>
      CommitEndsSound(w.ledgers, u.ledgers, session, migration, BoundTo(w, via, session), reason);
    case Abort(via, session, migration, reason) =>
      AfterAbortSound(w.ledgers, session, migration, BoundTo(w, via, session), reason);
    case TakeBack(via, session, migration, reason, faults) =>
      TakenBackSound(w.ledgers, session, migration, BoundTo(w, via, session), reason, faults);
  }
}
