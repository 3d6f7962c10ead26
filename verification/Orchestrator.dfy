/** The orchestrator that commits a verified migration over three controllers and
    compensates when a later leg fails. Every call that can raise takes the fault to be
    injected into it. */
module Orchestrator {
  import opened Wrappers
  import opened Text
  import R = Router
  import opened RouterRuns
  import opened Controllers

  /** One fault per call made while activating, confirming, committing and compensating. */
  datatype Faults = Faults(
    activate: Fault,
    confirm: Fault,
    commit: Fault,
    dataPlaneGet: Fault,
    dataPlaneRollback: Fault,
    runtimeGet: Fault,
    runtimeRollback: Fault,
    migrationGet: Fault,
    migrationRollback: Fault,
    runtimeVerify: Fault,
    dataPlaneVerify: Fault)

  predicate NoCompensationFault(f: Faults) {
    && f.dataPlaneGet == NoFault && f.dataPlaneRollback == NoFault
    && f.runtimeGet == NoFault && f.runtimeRollback == NoFault
    && f.migrationGet == NoFault && f.migrationRollback == NoFault
    && f.runtimeVerify == NoFault && f.dataPlaneVerify == NoFault
  }

  /** One fault per mutation of a rollback. */
  datatype RollbackFaults = RollbackFaults(route: Fault, runtime: Fault, record: Fault)

  datatype CommitOutcome =
    | Refused              // a precondition raised; nothing was touched
    | ActivationLeft       // the activation raised after its effect, before the protected block
    | CommitReturned       // the call returned
    | OriginalReraised     // compensation succeeded, the original exception propagates
    | CompensationFailed   // the RuntimeError

  datatype RollbackOutcome =
    | RollbackRefused
    | RollbackReturned
    | RollbackBroke        // raised after the preconditions had passed

  // ---- the three ledgers, seen together ----

  /** What the orchestrator looks at: sessions, migrations, routes and the bindings. */
  datatype Ledgers = Ledgers(sessions: Sessions, migrations: Migrations, routes: R.Table)

  ghost predicate SaneSessions(t: Sessions) {
    forall id :: id in t ==> SaneSession(t[id])
  }

  ghost predicate SaneMigrations(t: Migrations) {
    forall id :: id in t ==> SaneMigration(t[id])
  }

  ghost predicate Sound(w: Ledgers) {
    SaneSessions(w.sessions) && SaneMigrations(w.migrations) && TableWellFormed(w.routes)
  }

  /** The preconditions of `authorize_commit`, activation included. */
  predicate Admissible(w: Ledgers, session: Text, migration: Text, deployment: Option<Text>) {
    && migration in w.migrations
    && session in w.sessions
    && var m := w.migrations[migration];
       var s := w.sessions[session];
       && m.session == session
       && s.pending == Some(m.target)
       && s.active == m.source
       && m.state == Verified
       && (deployment.Some? ==> R.Apply(w.routes, deployment.value, R.ActivateOp(m.source, m.target)).Success?)
  }

  /** Everything but the session, the migration and the bound deployment is as it was. */
  ghost predicate OnlyTouches(w: Ledgers, after: Ledgers, session: Text, migration: Text, deployment: Option<Text>) {
    && after.sessions.Keys == w.sessions.Keys
    && after.migrations.Keys == w.migrations.Keys
    && after.routes.Keys == w.routes.Keys
    && (forall id :: id in w.sessions && id != session ==> after.sessions[id] == w.sessions[id])
    && (forall id :: id in w.migrations && id != migration ==> after.migrations[id] == w.migrations[id])
    && (forall id :: id in w.routes && deployment != Some(id) ==> after.routes[id] == w.routes[id])
  }

  /** All bound controllers at the target, the migration committed. */
  ghost predicate AtTarget(w: Ledgers, after: Ledgers, session: Text, migration: Text, deployment: Option<Text>)
    requires Admissible(w, session, migration, deployment)
  {
    && OnlyTouches(w, after, session, migration, deployment)
    && session in after.sessions && migration in after.migrations
    && CanConfirm(w.sessions[session], w.migrations[migration].target)
    && after.sessions[session] == Confirmed(w.sessions[session], w.migrations[migration].target)
    && after.migrations[migration] == w.migrations[migration].(state := Committed)
    && (deployment.Some? ==>
          && deployment.value in after.routes && deployment.value in w.routes
          && w.routes[deployment.value].staged.Some?
          && after.routes[deployment.value] == R.Activate(w.routes[deployment.value]))
  }

  /** The same active candidate, baseline and last switch. */
  predicate SameStanding(a: Session, b: Session) {
    a.active == b.active && a.baseline == b.baseline && a.lastSwitch == b.lastSwitch
  }

  /** Runtime and router back at the source, the migration not committed. */
  ghost predicate AtSource(w: Ledgers, after: Ledgers, session: Text, migration: Text, deployment: Option<Text>)
    requires Admissible(w, session, migration, deployment)
  {
    && OnlyTouches(w, after, session, migration, deployment)
    && session in after.sessions && migration in after.migrations
    && SameStanding(after.sessions[session], w.sessions[session])
    && after.migrations[migration].state != Committed
    && (deployment.Some? ==>
          && deployment.value in after.routes && deployment.value in w.routes
          && var d, e := w.routes[deployment.value], after.routes[deployment.value];
             && e.stack == d.stack && e.staged == None
             && SameContent(e.active, d.active)
             && e.active.generation == d.active.generation + 2)
  }

  /** A session may be bound to a deployment that shows its active candidate. */
  predicate Bindable(w: Ledgers, session: Text, deployment: Text) {
    && session in w.sessions && deployment in w.routes
    && w.routes[deployment].active.candidate == w.sessions[session].active
  }

  /** The migration is verified and its digests recorded, and its target stands staged on
      the bound route, with the artifact's digest as artifact and the manifest's as manifest. */
  ghost predicate StageDone(before: Ledgers, after: Ledgers, bindings: map<Text, Text>, migration: Text, metadata: R.Metadata) {
    && migration in before.migrations
    && var m := before.migrations[migration];
       && m.state == Verified && m.artifact.Some? && m.manifest.Some? && m.session in bindings
       && var id := bindings[m.session];
          && id in before.routes && id in after.routes
          && before.routes[id].staged == None && before.routes[id].active.candidate != m.target
          && after.routes[id].staged.Some?
          && after.routes[id].active == before.routes[id].active
          && R.Shows(after.routes[id].staged.value, before.routes[id].active.generation + 1, m.target,
                     LoweredDigest(m.artifact.value), LoweredDigest(m.manifest.value), metadata)
  }

  lemma StagedIsDone(w: Ledgers, bindings: map<Text, Text>, migration: Text, metadata: R.Metadata)
    ensures var asked := StageRequest(w, bindings, migration, metadata);
            asked.Some? && R.Apply(w.routes, asked.value.id, asked.value.op).Success? ==>
              StageDone(w, w.(routes := R.After(w.routes, asked.value.id, asked.value.op)), bindings, migration, metadata)
  {
  }

  /** What staging a migration asks of the router, if it gets that far. */
  function StageRequest(w: Ledgers, bindings: map<Text, Text>, migration: Text, metadata: R.Metadata): (asked: Option<Call>)
    ensures asked.Some? ==> asked.value.Call?
  {
    if migration !in w.migrations then None
    else
      var m := w.migrations[migration];
      if m.state == Verified && m.artifact.Some? && m.manifest.Some? && m.session in bindings
      then Some(Call(bindings[m.session], R.StageOp(m.target, m.artifact.value, m.manifest.value, metadata)))
      else None
  }

  // ---- what a commit needs and leaves, written out ----

  /** The migration is the session's own and verified, the session stands at its source with its
      target pending, and a bound route shows the source with the target staged. */
  predicate CommitDue(w: Ledgers, session: Text, migration: Text, deployment: Option<Text>) {
    && session in w.sessions && migration in w.migrations
    && var s, m := w.sessions[session], w.migrations[migration];
       && m.session == session && m.state == Verified
       && s.active == m.source && s.pending == Some(m.target)
       && (deployment.Some? ==>
             && deployment.value in w.routes
             && var d := w.routes[deployment.value];
                d.active.candidate == m.source && d.staged.Some? && d.staged.value.candidate == m.target)
  }

  /** The bound route shows what was staged, over what it showed before. */
  predicate RouteAdvanced(w: Ledgers, after: Ledgers, deployment: Option<Text>) {
    deployment.Some? ==>
      && deployment.value in w.routes && deployment.value in after.routes
      && var d, e := w.routes[deployment.value], after.routes[deployment.value];
         Some(e.active) == d.staged && e.staged == None && e.stack == d.stack + [d.active]
  }

  predicate CommitDone(w: Ledgers, after: Ledgers, session: Text, migration: Text, deployment: Option<Text>) {
    && session in w.sessions && migration in w.migrations && session in after.sessions && migration in after.migrations
    && after.migrations[migration].state == Committed
    && RouteAdvanced(w, after, deployment)
    && var s, t, m := w.sessions[session], after.sessions[session], w.migrations[migration];
       && t.active == m.target && t.previous == Some(m.source) && t.rollbackAvailable && t.pending == None
       && s.pendingSnapshot.Some? && t.lastSwitch == Some(s.pendingSnapshot.value.sequence) && t.baseline == s.pendingSnapshot.value.mix
  }

  predicate CommitUndone(w: Ledgers, after: Ledgers, session: Text, migration: Text, deployment: Option<Text>) {
    && session in w.sessions && migration in w.migrations && session in after.sessions && migration in after.migrations
    && after.migrations[migration].state != Committed
    && after.sessions[session].active == w.migrations[migration].source
    && after.sessions[session].baseline == w.sessions[session].baseline
    && after.sessions[session].lastSwitch == w.sessions[session].lastSwitch
    && (deployment.Some? ==>
          && deployment.value in w.routes && deployment.value in after.routes
          && var d, e := w.routes[deployment.value], after.routes[deployment.value];
             && e.stack == d.stack && e.staged == None
             && e.active.candidate == w.migrations[migration].source
             && e.active.artifact == d.active.artifact && e.active.manifest == d.active.manifest && e.active.metadata == d.active.metadata)
  }

  lemma DueIffAdmissible(w: Ledgers, session: Text, migration: Text, deployment: Option<Text>)
    ensures Admissible(w, session, migration, deployment) <==> CommitDue(w, session, migration, deployment)
  {
  }

  lemma TargetIsDone(w: Ledgers, after: Ledgers, session: Text, migration: Text, deployment: Option<Text>)
    requires Admissible(w, session, migration, deployment) && AtTarget(w, after, session, migration, deployment)
    ensures CommitDone(w, after, session, migration, deployment)
  {
  }

  lemma SourceIsUndone(w: Ledgers, after: Ledgers, session: Text, migration: Text, deployment: Option<Text>)
    requires Admissible(w, session, migration, deployment) && AtSource(w, after, session, migration, deployment)
    ensures CommitUndone(w, after, session, migration, deployment)
  {
  }

  // ---- the ledgers between activation and the end of compensation ----

  function ActivatedRoutes(w: Ledgers, m: Migration, deployment: Option<Text>): R.Table {
    if deployment.Some? then R.After(w.routes, deployment.value, R.ActivateOp(m.source, m.target)) else w.routes
  }

  function UndoneRoutes(w: Ledgers, m: Migration, deployment: Option<Text>, reason: Text): R.Table {
    if deployment.Some? then R.After(ActivatedRoutes(w, m, deployment), deployment.value, R.RollbackOp(reason)) else w.routes
  }

  predicate RoutesUnderway(w: Ledgers, routes: R.Table, m: Migration, deployment: Option<Text>, reason: Text) {
    routes == ActivatedRoutes(w, m, deployment) || routes == UndoneRoutes(w, m, deployment, reason)
  }

  predicate SessionsUnderway(w: Ledgers, sessions: Sessions, session: Text, m: Migration)
    requires session in w.sessions && CanConfirm(w.sessions[session], m.target)
  {
    var c := Confirmed(w.sessions[session], m.target);
    || sessions == w.sessions
    || sessions == w.sessions[session := c]
    || sessions == w.sessions[session := RolledBackSession(c)]
  }

  predicate MigrationsUnderway(w: Ledgers, records: Migrations, migration: Text)
    requires migration in w.migrations
  {
    var m := w.migrations[migration];
    || records == w.migrations
    || records == w.migrations[migration := m.(state := Committed)]
    || records == w.migrations[migration := m.(state := MigrationState.RolledBack)]
  }

  /** What soundness of the ledgers says about the three entries of one commit. */
  predicate EntriesSound(w: Ledgers, session: Text, migration: Text, deployment: Option<Text>)
    requires Admissible(w, session, migration, deployment)
  {
    && SaneSession(w.sessions[session])
    && w.migrations[migration].source != w.migrations[migration].target
    && (deployment.Some? ==>
          w.routes[deployment.value].staged.value.generation == w.routes[deployment.value].active.generation + 1)
  }

  lemma SoundEntries(w: Ledgers, session: Text, migration: Text, deployment: Option<Text>)
    requires Sound(w) && Admissible(w, session, migration, deployment)
    ensures EntriesSound(w, session, migration, deployment)
  {
    assert SaneMigration(w.migrations[migration]);
    if deployment.Some? {
      assert WellFormed(w.routes[deployment.value]);
    }
  }

  /** Every state the ledgers pass through once the route is activated. */
  predicate Underway(w: Ledgers, now: Ledgers, session: Text, migration: Text, deployment: Option<Text>, reason: Text)
    requires Admissible(w, session, migration, deployment) && EntriesSound(w, session, migration, deployment)
  {
    var m := w.migrations[migration];
    && RoutesUnderway(w, now.routes, m, deployment, reason)
    && SessionsUnderway(w, now.sessions, session, m)
    && MigrationsUnderway(w, now.migrations, migration)
  }

  /** Rolling back right after an activation: the old stack, nothing staged, the same
      version under a generation two higher. */
  lemma ActivateThenRollBack(w: Ledgers, session: Text, migration: Text, deployment: Option<Text>, reason: Text)
    requires Admissible(w, session, migration, deployment) && deployment.Some? && reason != []
    requires EntriesSound(w, session, migration, deployment)
    ensures var m, id := w.migrations[migration], deployment.value;
            && var up, back := ActivatedRoutes(w, m, deployment), UndoneRoutes(w, m, deployment, reason);
            && id in w.routes && id in up && id in back
            && up[id].active.candidate == m.target && up[id].stack != []
            && up == w.routes[id := up[id]] && back == w.routes[id := back[id]]
            && back[id].stack == w.routes[id].stack && back[id].staged == None
            && SameContent(back[id].active, w.routes[id].active)
            && back[id].active.generation == w.routes[id].active.generation + 2
            && back == R.After(up, id, R.RollbackOp(reason))
  {
  }

  /** Whatever happens between activation and the end of compensation, the ledgers keep
      their invariants and nobody else's entries move. */
  lemma UnderwayTouchesOnly(w: Ledgers, now: Ledgers, session: Text, migration: Text, deployment: Option<Text>, reason: Text)
    requires Admissible(w, session, migration, deployment) && reason != []
    requires EntriesSound(w, session, migration, deployment) && Underway(w, now, session, migration, deployment, reason)
    ensures OnlyTouches(w, now, session, migration, deployment)
  {
    if deployment.Some? {
      ActivateThenRollBack(w, session, migration, deployment, reason);
    }
  }

  lemma RoutesUnderwaySound(t: R.Table, id: Text, source: Text, target: Text, reason: Text)
    requires TableWellFormed(t)
    ensures TableWellFormed(R.After(t, id, R.ActivateOp(source, target)))
    ensures TableWellFormed(R.After(R.After(t, id, R.ActivateOp(source, target)), id, R.RollbackOp(reason)))
  {
    ApplyWellFormed(t, id, R.ActivateOp(source, target));
    ApplyWellFormed(R.After(t, id, R.ActivateOp(source, target)), id, R.RollbackOp(reason));
  }

  lemma UnderwaySound(w: Ledgers, now: Ledgers, session: Text, migration: Text, deployment: Option<Text>, reason: Text)
    requires Sound(w) && Admissible(w, session, migration, deployment)
    requires EntriesSound(w, session, migration, deployment) && Underway(w, now, session, migration, deployment, reason)
    ensures Sound(now)
  {
    var m := w.migrations[migration];
    assert SaneMigrations(now.migrations) by { assert SaneMigration(m); }
    assert SaneSessions(now.sessions);
    if deployment.Some? {
      RoutesUnderwaySound(w.routes, deployment.value, m.source, m.target, reason);
    }
  }

  lemma UnderwayKeeps(w: Ledgers, now: Ledgers, session: Text, migration: Text, deployment: Option<Text>, reason: Text)
    requires Sound(w) && Admissible(w, session, migration, deployment) && reason != []
    requires EntriesSound(w, session, migration, deployment) && Underway(w, now, session, migration, deployment, reason)
    ensures Sound(now) && OnlyTouches(w, now, session, migration, deployment)
  {
    UnderwaySound(w, now, session, migration, deployment, reason);
    UnderwayTouchesOnly(w, now, session, migration, deployment, reason);
  }

  /** The check at the end of compensation is enough: runtime and router show the source
      and the migration is not committed only where everything else is restored too. */
  lemma SourceShownMeansRestored(w: Ledgers, now: Ledgers, session: Text, migration: Text, deployment: Option<Text>, reason: Text)
    requires Admissible(w, session, migration, deployment) && reason != []
    requires EntriesSound(w, session, migration, deployment) && Underway(w, now, session, migration, deployment, reason)
    requires session in now.sessions && now.sessions[session].active == w.migrations[migration].source
    requires migration in now.migrations && now.migrations[migration].state != Committed
    requires deployment.Some? ==>
               deployment.value in now.routes && now.routes[deployment.value].active.candidate == w.migrations[migration].source
    ensures AtSource(w, now, session, migration, deployment)
  {
    UnderwayTouchesOnly(w, now, session, migration, deployment, reason);
    ConfirmThenRollBack(w.sessions[session], w.migrations[migration].target);
    if deployment.Some? {
      ActivateThenRollBack(w, session, migration, deployment, reason);
    }
  }

  /** Confirmed, committed and activated is the target state. */
  lemma CommittedIsAtTarget(w: Ledgers, now: Ledgers, session: Text, migration: Text, deployment: Option<Text>, reason: Text)
    requires Admissible(w, session, migration, deployment) && reason != []
    requires EntriesSound(w, session, migration, deployment)
    requires now == Ledgers(w.sessions[session := Confirmed(w.sessions[session], w.migrations[migration].target)],
                            w.migrations[migration := w.migrations[migration].(state := Committed)],
                            ActivatedRoutes(w, w.migrations[migration], deployment))
    ensures AtTarget(w, now, session, migration, deployment)
  {
    UnderwayTouchesOnly(w, now, session, migration, deployment, reason);
  }

  // ---- the effect of a compensation leg ----

  function RouteLeg(t: R.Table, id: Text, target: Text, reason: Text, faults: Faults): R.Table {
    if faults.dataPlaneGet == NoFault && faults.dataPlaneRollback != BeforeEffect
       && id in t && t[id].active.candidate == target && t[id].stack != []
    then R.After(t, id, R.RollbackOp(reason)) else t
  }

  function SessionLeg(t: Sessions, id: Text, target: Text, faults: Faults): Sessions {
    if faults.runtimeGet == NoFault && faults.runtimeRollback != BeforeEffect
       && id in t && t[id].active == target && t[id].rollbackAvailable && CanRollBack(t[id])
    then t[id := RolledBackSession(t[id])] else t
  }

  lemma RouteLegUnderway(w: Ledgers, session: Text, migration: Text, deployment: Option<Text>, reason: Text, faults: Faults)
    requires Admissible(w, session, migration, deployment) && deployment.Some? && reason != []
    requires EntriesSound(w, session, migration, deployment)
    ensures var m, id := w.migrations[migration], deployment.value;
            var up := ActivatedRoutes(w, m, deployment);
            var after := RouteLeg(up, id, m.target, reason, faults);
            && id in up && id in after
            && RoutesUnderway(w, after, m, deployment, reason)
            && (NoCompensationFault(faults) ==> after[id].active.candidate == m.source)
  {
    ActivateThenRollBack(w, session, migration, deployment, reason);
  }

  lemma SessionLegUnderway(w: Ledgers, sessions: Sessions, session: Text, migration: Text, deployment: Option<Text>, faults: Faults)
    requires Admissible(w, session, migration, deployment) && EntriesSound(w, session, migration, deployment)
    requires sessions == w.sessions || sessions == w.sessions[session := Confirmed(w.sessions[session], w.migrations[migration].target)]
    ensures var m := w.migrations[migration];
            var after := SessionLeg(sessions, session, m.target, faults);
            && session in sessions && session in after
            && SessionsUnderway(w, after, session, m)
            && (sessions[session].active == m.target ==> CanRollBack(sessions[session]))
            && (NoCompensationFault(faults) ==> after[session].active == m.source)
  {
    ConfirmThenRollBack(w.sessions[session], w.migrations[migration].target);
  }

  class SafeAdaptationOrchestrator {
    const runtime: RuntimeController
    const migrations: MigrationController
    const dataplane: R.VersionedArtifactRouter?
    var sessionDeployments: map<Text, Text>

    constructor (runtime: RuntimeController, migrations: MigrationController, dataplane: R.VersionedArtifactRouter?)
      ensures this.runtime == runtime && this.migrations == migrations && this.dataplane == dataplane
      ensures sessionDeployments == map[]
    {
      this.runtime, this.migrations, this.dataplane := runtime, migrations, dataplane;
      sessionDeployments := map[];
    }

    function Objects(): set<object> {
      {runtime, migrations} + if dataplane == null then {} else {dataplane}
    }

    function World(): Ledgers
      reads runtime, migrations, dataplane
    {
      Ledgers(runtime.sessions, migrations.records, if dataplane == null then map[] else dataplane.deployments)
    }

    ghost predicate Valid()
      reads runtime, migrations, dataplane
    {
      Sound(World())
    }

    function DeploymentFor(session: Text): Option<Text>
      reads this
    {
      if session in sessionDeployments then Some(sessionDeployments[session]) else None
    }

    /** `bind_deployment`: the route must show the session's active candidate. */
    method BindDeployment(session: Text, deployment: Text) returns (raised: bool)
      modifies this`sessionDeployments
      ensures raised <==> !Bindable(World(), session, deployment)
      ensures !raised ==>
                && session in runtime.sessions && deployment in World().routes
                && World().routes[deployment].active.candidate == runtime.sessions[session].active
      ensures raised ==>
                || session !in runtime.sessions || deployment !in World().routes
                || World().routes[deployment].active.candidate != runtime.sessions[session].active
      ensures sessionDeployments ==
                if raised then old(sessionDeployments) else old(sessionDeployments)[session := deployment]
    {
      if dataplane == null || session !in runtime.sessions || deployment !in dataplane.deployments {
        return true;
      }
      if dataplane.deployments[deployment].active.candidate != runtime.sessions[session].active {
        return true;
      }
      sessionDeployments := sessionDeployments[session := deployment];
      return false;
    }

    /** `plan_pending`: a migration from the active to the recommended candidate. */
    method PlanPending(session: Text, migration: Text) returns (raised: bool)
      requires Valid()
      modifies migrations
      ensures Valid()
      ensures var t := runtime.sessions;
              var due := session in t && t[session].pending.Some? && t[session].pending.value != [];
              && raised == !(due && CanPlan(old(migrations.records), migration, session, t[session].active, t[session].pending.value))
              && migrations.records ==
                   if raised then old(migrations.records)
                   else old(migrations.records)[migration := NewMigration(session, t[session].active, t[session].pending.value)]
      ensures !raised ==>
                && session in runtime.sessions && runtime.sessions[session].pending.Some?
                && migration !in old(migrations.records) && migration in migrations.records
                && migrations.records[migration] ==
                   Migration(session, runtime.sessions[session].active, runtime.sessions[session].pending.value,
                             Planned, None, None, false, false)
    {
      if session !in runtime.sessions {
        return true;
      }
      var s := runtime.sessions[session];
      if s.pending.None? || s.pending.value == [] {
        return true;
      }
      raised := migrations.Plan(migration, session, s.active, s.pending.value);
    }

    /** `stage_verified_migration`: stages exactly the verified artifact of the migration in
        the deployment bound to its session, or raises and changes nothing. It raises
        exactly if the migration is unknown, not verified, without artifact or manifest, of
        an unbound session, or if the router refuses. */
    method StageVerifiedMigration(migration: Text, metadata: R.Metadata) returns (raised: bool)
      requires Valid()
      modifies dataplane
      ensures Valid()
      ensures var w := old(World());
              var asked := StageRequest(w, sessionDeployments, migration, metadata);
              && (raised <==> !(asked.Some? && R.Apply(w.routes, asked.value.id, asked.value.op).Success?))
              && World() == if raised then w else w.(routes := R.After(w.routes, asked.value.id, asked.value.op))
      ensures raised ==> World() == old(World())
      ensures !raised ==> StageDone(old(World()), World(), sessionDeployments, migration, metadata)
    {
      StagedIsDone(World(), sessionDeployments, migration, metadata);
      if dataplane == null || migration !in migrations.records {
        return true;
      }
      var m := migrations.records[migration];
      if m.state != Verified {
        return true;
      }
      if m.artifact.None? || m.manifest.None? {
        return true;
      }
      var id := DeploymentFor(m.session);
      if id.None? {
        return true;
      }
      ApplyWellFormed(dataplane.deployments, id.value, R.StageOp(m.target, m.artifact.value, m.manifest.value, metadata));
      var res := dataplane.StageVersion(id.value, m.target, m.artifact.value, m.manifest.value, metadata);
      return res.Failure?;
    }

    /** First leg: pop the route if it shows the target and has something to pop. */
    method UndoRoute(id: Text, target: Text, reason: Text, faults: Faults) returns (error: bool)
      requires dataplane != null && reason != []
      modifies dataplane
      ensures var t := old(dataplane.deployments);
              var due := id in t && t[id].active.candidate == target && t[id].stack != [];
              && error == (faults.dataPlaneGet != NoFault || id !in t || (due && faults.dataPlaneRollback != NoFault))
              && dataplane.deployments == RouteLeg(t, id, target, reason, faults)
    {
      if faults.dataPlaneGet != NoFault || id !in dataplane.deployments {
        return true;
      }
      var d := dataplane.deployments[id];
      if d.active.candidate == target && |d.stack| > 0 {
        if faults.dataPlaneRollback == BeforeEffect {
          return true;
        }
        var res := dataplane.RollbackActive(id, reason);
        return res.Failure? || faults.dataPlaneRollback == AfterEffect;
      }
      return false;
    }

    /** Second leg: roll the session back if it shows the target and offers a rollback. */
    method UndoSession(id: Text, target: Text, faults: Faults) returns (error: bool)
      requires runtime.Sane()
      modifies runtime
      ensures runtime.Sane()
      ensures var t := old(runtime.sessions);
              var due := id in t && t[id].active == target && t[id].rollbackAvailable;
              && error == (|| faults.runtimeGet != NoFault || id !in t
                           || (due && (!CanRollBack(t[id]) || faults.runtimeRollback != NoFault)))
              && runtime.sessions == SessionLeg(t, id, target, faults)
    {
      if faults.runtimeGet != NoFault || id !in runtime.sessions {
        return true;
      }
      var s := runtime.sessions[id];
      if s.active == target && s.rollbackAvailable {
        error := runtime.RollBackLast(id, faults.runtimeRollback);
        return error;
      }
      return false;
    }

    /** Third leg: take a committed migration back. */
    method UndoMigration(id: Text, faults: Faults) returns (error: bool)
      requires migrations.Sane()
      modifies migrations
      ensures migrations.Sane()
      ensures var t := old(migrations.records);
              var due := id in t && t[id].state == Committed;
              && error == (faults.migrationGet != NoFault || id !in t || (due && faults.migrationRollback != NoFault))
              && migrations.records ==
                   if faults.migrationGet == NoFault && due && faults.migrationRollback != BeforeEffect
                   then t[id := t[id].(state := MigrationState.RolledBack)] else t
    {
      if faults.migrationGet != NoFault || id !in migrations.records {
        return true;
      }
      if migrations.records[id].state == Committed {
        error := migrations.RollBack(id, faults.migrationRollback);
        return error;
      }
      return false;
    }

    /** The first leg, if there is a bound route at all. */
    method UndoBoundRoute(session: Text, migration: Text, deployment: Option<Text>, target: Text, reason: Text,
                          faults: Faults, ghost w: Ledgers) returns (failed: bool)
      requires Admissible(w, session, migration, deployment) && EntriesSound(w, session, migration, deployment)
      requires reason != [] && (deployment.Some? ==> dataplane != null)
      requires target == w.migrations[migration].target
      requires World().routes == ActivatedRoutes(w, w.migrations[migration], deployment)
      modifies dataplane
      ensures RoutesUnderway(w, World().routes, w.migrations[migration], deployment, reason)
      ensures NoCompensationFault(faults) ==>
                && !failed
                && (deployment.Some? ==>
                      && deployment.value in dataplane.deployments
                      && dataplane.deployments[deployment.value].active.candidate == w.migrations[migration].source)
    {
      failed := false;
      if deployment.Some? {
        RouteLegUnderway(w, session, migration, deployment, reason, faults);
        failed := UndoRoute(deployment.value, target, reason, faults);
      }
    }

    /** The three legs in turn, each tried whatever became of the ones before it. */
    method UndoLegs(session: Text, migration: Text, deployment: Option<Text>, source: Text, target: Text, reason: Text,
                    faults: Faults, ghost w: Ledgers) returns (failed: bool)
      requires Admissible(w, session, migration, deployment) && EntriesSound(w, session, migration, deployment)
      requires runtime.Sane() && migrations.Sane() && reason != [] && (deployment.Some? ==> dataplane != null)
      requires source == w.migrations[migration].source && target == w.migrations[migration].target
      requires Underway(w, World(), session, migration, deployment, reason)
      requires World().routes == ActivatedRoutes(w, w.migrations[migration], deployment)
      requires World().sessions == w.sessions || World().sessions == w.sessions[session := Confirmed(w.sessions[session], target)]
      modifies Objects()
      ensures Underway(w, World(), session, migration, deployment, reason)
      ensures !failed ==> migration in migrations.records && migrations.records[migration].state != Committed
      ensures NoCompensationFault(faults) ==>
                && !failed
                && session in runtime.sessions && runtime.sessions[session].active == source
                && (deployment.Some? ==>
                      && deployment.value in dataplane.deployments
                      && dataplane.deployments[deployment.value].active.candidate == source)
    {
      failed := UndoBoundRoute(session, migration, deployment, target, reason, faults, w);
      SessionLegUnderway(w, runtime.sessions, session, migration, deployment, faults);
      var error := UndoSession(session, target, faults);
      failed := failed || error;
      error := UndoMigration(migration, faults);
      failed := failed || error;
    }

    /** `_compensate_failed_commit`: every leg is tried, then both candidates are checked. */
    method Compensate(session: Text, migration: Text, deployment: Option<Text>, source: Text, target: Text, reason: Text,
                      faults: Faults, ghost w: Ledgers) returns (failed: bool)
      requires Admissible(w, session, migration, deployment) && EntriesSound(w, session, migration, deployment)
      requires runtime.Sane() && migrations.Sane() && reason != [] && (deployment.Some? ==> dataplane != null)
      requires source == w.migrations[migration].source && target == w.migrations[migration].target
      requires Underway(w, World(), session, migration, deployment, reason)
      requires World().routes == ActivatedRoutes(w, w.migrations[migration], deployment)
      requires World().sessions == w.sessions || World().sessions == w.sessions[session := Confirmed(w.sessions[session], target)]
      modifies Objects()
      ensures Underway(w, World(), session, migration, deployment, reason)
      ensures !failed ==> AtSource(w, World(), session, migration, deployment)
      ensures NoCompensationFault(faults) ==> !failed
    {
      failed := UndoLegs(session, migration, deployment, source, target, reason, faults, w);
      if faults.runtimeVerify != NoFault || session !in runtime.sessions || runtime.sessions[session].active != source {
        failed := true;
      }
      if deployment.Some? {
        if faults.dataPlaneVerify != NoFault || deployment.value !in dataplane.deployments
           || dataplane.deployments[deployment.value].active.candidate != source {
          failed := true;
        }
      }
      if !failed {
        SourceShownMeansRestored(w, World(), session, migration, deployment, reason);
      }
    }

    /** The two legs under the `try`. */
    method ConfirmThenCommit(session: Text, migration: Text, target: Text, faults: Faults, ghost w: Ledgers) returns (raised: bool)
      requires runtime.Sane() && migrations.Sane()
      requires runtime.sessions == w.sessions && migrations.records == w.migrations
      requires session in w.sessions && CanConfirm(w.sessions[session], target)
      requires migration in w.migrations && w.migrations[migration].state == Verified
      modifies runtime, migrations
      ensures runtime.Sane() && migrations.Sane()
      ensures var confirmed := w.sessions[session := Confirmed(w.sessions[session], target)];
              var committed := w.migrations[migration := w.migrations[migration].(state := Committed)];
              && runtime.sessions == (if faults.confirm == BeforeEffect then w.sessions else confirmed)
              && migrations.records ==
                   if faults.confirm == NoFault && faults.commit != BeforeEffect then committed else w.migrations
      ensures raised <==> !(faults.confirm == NoFault && faults.commit == NoFault)
    {
      raised := runtime.Confirm(session, target, faults.confirm);
      if !raised {
        raised := migrations.Commit(migration, faults.commit);
      }
    }

    /** The checks of `authorize_commit`, the last of which activates the bound route. */
    method CheckAndActivate(session: Text, migration: Text, fault: Fault) returns (checked: Option<Migration>, raised: bool)
      modifies dataplane
      ensures checked.Some? <==>
                Admissible(old(World()), session, migration, DeploymentFor(session)) && !(DeploymentFor(session).Some? && fault == BeforeEffect)
      ensures checked.None? ==> World() == old(World())
      ensures checked.Some? ==>
                && migration in migrations.records && checked.value == migrations.records[migration]
                && World() == old(World()).(routes := ActivatedRoutes(old(World()), checked.value, DeploymentFor(session)))
                && (DeploymentFor(session).Some? ==> dataplane != null)
                && raised == (DeploymentFor(session).Some? && fault == AfterEffect)
    {
      var deployment := DeploymentFor(session);
      if migration !in migrations.records {
        return None, true;
      }
      var m := migrations.records[migration];
      if m.session != session || session !in runtime.sessions {
        return None, true;
      }
      var s := runtime.sessions[session];
      if s.pending != Some(m.target) || s.active != m.source || m.state != Verified {
        return None, true;
      }
      if deployment.Some? {
        if dataplane == null || fault == BeforeEffect {
          return None, true;
        }
        var activated := dataplane.ActivateStaged(deployment.value, m.source, m.target);
        if activated.Failure? {
          return None, true;
        }
      }
      return Some(m), deployment.Some? && fault == AfterEffect;
    }

    /** The `try` and its handler. */
    method CommitOrCompensate(session: Text, migration: Text, deployment: Option<Text>, source: Text, target: Text, reason: Text,
                              faults: Faults, ghost w: Ledgers) returns (outcome: CommitOutcome)
      requires Admissible(w, session, migration, deployment) && EntriesSound(w, session, migration, deployment)
      requires runtime.Sane() && migrations.Sane() && reason != [] && (deployment.Some? ==> dataplane != null)
      requires source == w.migrations[migration].source && target == w.migrations[migration].target
      requires World() == w.(routes := ActivatedRoutes(w, w.migrations[migration], deployment))
      modifies Objects()
      ensures Underway(w, World(), session, migration, deployment, reason)
      ensures outcome != Refused && outcome != ActivationLeft
      ensures outcome == CommitReturned <==> faults.confirm == NoFault && faults.commit == NoFault
      ensures outcome == CommitReturned ==> AtTarget(w, World(), session, migration, deployment)
      ensures outcome == OriginalReraised ==> AtSource(w, World(), session, migration, deployment)
      ensures outcome == CompensationFailed ==> !NoCompensationFault(faults)
    {
      var raised := ConfirmThenCommit(session, migration, target, faults, w);
      if raised {
        var failed := Compensate(session, migration, deployment, source, target, reason, faults, w);
        return if failed then CompensationFailed else OriginalReraised;
      }
      CommittedIsAtTarget(w, World(), session, migration, deployment, reason);
      return CommitReturned;
    }

    /** `authorize_commit`. It returns exactly when it was admissible and no leg raised; a refusal
        changes nothing; an activation that raises after its effect is not undone; a re-raised
        original leaves runtime and router at the source with the migration uncommitted; and only
        a fault inside compensation can end in the RuntimeError. */
    method AuthorizeCommit(session: Text, migration: Text, reason: Text, faults: Faults) returns (outcome: CommitOutcome)
      requires Valid() && reason != []
      modifies Objects()
      ensures Valid() && OnlyTouches(old(World()), World(), session, migration, DeploymentFor(session))
      ensures outcome == Refused <==>
                || !Admissible(old(World()), session, migration, DeploymentFor(session))
                || (DeploymentFor(session).Some? && faults.activate == BeforeEffect)
      ensures outcome == Refused ==> World() == old(World())
      ensures outcome == ActivationLeft <==>
                && Admissible(old(World()), session, migration, DeploymentFor(session))
                && DeploymentFor(session).Some? && faults.activate == AfterEffect
      ensures outcome == ActivationLeft ==>
                World() == old(World()).(routes := ActivatedRoutes(old(World()), old(World()).migrations[migration], DeploymentFor(session)))
      ensures outcome != Refused && outcome != ActivationLeft ==>
                (outcome == CommitReturned <==> faults.confirm == NoFault && faults.commit == NoFault)
      ensures outcome == CommitReturned ==> AtTarget(old(World()), World(), session, migration, DeploymentFor(session))
      ensures outcome == OriginalReraised ==> AtSource(old(World()), World(), session, migration, DeploymentFor(session))
      ensures outcome == CompensationFailed ==> !NoCompensationFault(faults)
      ensures outcome != Refused ==>
                && EntriesSound(old(World()), session, migration, DeploymentFor(session))
                && Underway(old(World()), World(), session, migration, DeploymentFor(session), reason)
      // the same, over the ledgers
      ensures outcome == Refused <==>
                || !CommitDue(old(World()), session, migration, DeploymentFor(session))
                || (DeploymentFor(session).Some? && faults.activate == BeforeEffect)
      ensures migration in old(World()).migrations && old(World()).migrations[migration].session != session ==>
                outcome == Refused && World() == old(World())
      ensures outcome == CommitReturned ==> CommitDone(old(World()), World(), session, migration, DeploymentFor(session))
      ensures outcome == OriginalReraised ==> CommitUndone(old(World()), World(), session, migration, DeploymentFor(session))
      ensures outcome == ActivationLeft ==>
                && World().sessions == old(World()).sessions && World().migrations == old(World()).migrations
                && RouteAdvanced(old(World()), World(), DeploymentFor(session))
    {
      outcome := CommitBound(session, migration, DeploymentFor(session), reason, faults, World());
    }

    /** The body of `authorize_commit` once the bound deployment is looked up. */
    method CommitBound(session: Text, migration: Text, deployment: Option<Text>, reason: Text, faults: Faults, ghost w: Ledgers)
      returns (outcome: CommitOutcome)
      requires Sound(w) && World() == w && deployment == DeploymentFor(session) && reason != []
      modifies Objects()
      ensures Valid() && OnlyTouches(w, World(), session, migration, deployment)
      ensures outcome == Refused <==>
                || !Admissible(w, session, migration, deployment)
                || (deployment.Some? && faults.activate == BeforeEffect)
      ensures outcome == Refused ==> World() == w
      ensures outcome == ActivationLeft <==>
                && Admissible(w, session, migration, deployment)
                && deployment.Some? && faults.activate == AfterEffect
      ensures outcome == ActivationLeft ==>
                World() == w.(routes := ActivatedRoutes(w, w.migrations[migration], deployment))
      ensures outcome != Refused && outcome != ActivationLeft ==>
                (outcome == CommitReturned <==> faults.confirm == NoFault && faults.commit == NoFault)
      ensures outcome == CommitReturned ==> AtTarget(w, World(), session, migration, deployment)
      ensures outcome == OriginalReraised ==> AtSource(w, World(), session, migration, deployment)
      ensures outcome == CompensationFailed ==> !NoCompensationFault(faults)
      ensures outcome != Refused ==>
                && EntriesSound(w, session, migration, deployment)
                && Underway(w, World(), session, migration, deployment, reason)
      ensures outcome == Refused <==>
                || !CommitDue(w, session, migration, deployment) || (deployment.Some? && faults.activate == BeforeEffect)
      ensures outcome == CommitReturned ==> CommitDone(w, World(), session, migration, deployment)
      ensures outcome == OriginalReraised ==> CommitUndone(w, World(), session, migration, deployment)
      ensures outcome == ActivationLeft ==>
                && World().sessions == w.sessions && World().migrations == w.migrations && RouteAdvanced(w, World(), deployment)
    {
      DueIffAdmissible(w, session, migration, deployment);
      var checked, raised := CheckAndActivate(session, migration, faults.activate);
      if checked.None? {
        return Refused;
      }
      var m := checked.value;
      SoundEntries(w, session, migration, deployment);
      if raised {
        UnderwayKeeps(w, World(), session, migration, deployment, reason);
        return ActivationLeft;
      }
      outcome := CommitOrCompensate(session, migration, deployment, m.source, m.target, reason, faults, w);
      UnderwayKeeps(w, World(), session, migration, deployment, reason);
      if outcome == CommitReturned {
        TargetIsDone(w, World(), session, migration, deployment);
      } else if outcome == OriginalReraised {
        SourceIsUndone(w, World(), session, migration, deployment);
      }
    }

    /** The route's part of an abort: drop what is staged if it is the target. */
    method DropStaged(id: Text, target: Text, reason: Text) returns (raised: bool)
      requires dataplane != null
      modifies dataplane
      ensures var t := old(dataplane.deployments);
              var due := id in t && t[id].staged.Some? && t[id].staged.value.candidate == target;
              && raised == (id !in t || (due && reason == []))
              && dataplane.deployments == if due then R.After(t, id, R.AbortOp(reason)) else t
    {
      if id !in dataplane.deployments {
        return true;
      }
      var staged := dataplane.deployments[id].staged;
      if staged.Some? && staged.value.candidate == target {
        var res := dataplane.AbortStaged(id, reason);
        return res.Failure?;
      }
      return false;
    }

    /** `abort`: route first, then the migration's record, then the recommendation; what has
        been done when one of them raises stays done. */
    method AbortPlanned(session: Text, migration: Text, reason: Text) returns (raised: bool)
      requires Valid()
      modifies Objects()
      ensures Valid()
      ensures var deployment := if dataplane == null then None else DeploymentFor(session);
              && (raised <==> !AbortReturns(old(World()), session, migration, deployment, reason))
              && World() == AfterAbort(old(World()), session, migration, deployment, reason)
      ensures !raised ==> AbortDone(old(World()), World(), session, migration, reason)
      ensures migration in old(World()).migrations && old(World()).migrations[migration].session != session ==>
                raised && World() == old(World())
    {
      AfterAbortSound(World(), session, migration, if dataplane == null then None else DeploymentFor(session), reason);
      AfterAbortIsDone(World(), session, migration, if dataplane == null then None else DeploymentFor(session), reason);
      if migration !in migrations.records || migrations.records[migration].session != session {
        return true;
      }
      var m := migrations.records[migration];
      var deployment := DeploymentFor(session);
      if deployment.Some? && dataplane != null {
        var failed := DropStaged(deployment.value, m.target, reason);
        if failed {
          return true;
        }
      }
      raised := migrations.Abort(migration, reason);
      if !raised {
        raised := runtime.AbortPending(session);
      }
    }

    /** The checks of `rollback`, made before its first mutation. */
    method MayRollBack(session: Text, migration: Text, reason: Text) returns (allowed: bool)
      ensures allowed <==> RollbackAllowed(World(), session, migration, DeploymentFor(session), reason)
    {
      var deployment := DeploymentFor(session);
      if reason == [] || migration !in migrations.records {
        return false;
      }
      var m := migrations.records[migration];
      if m.session != session || m.state != Committed || session !in runtime.sessions {
        return false;
      }
      if runtime.sessions[session].active != m.target || !runtime.sessions[session].rollbackAvailable {
        return false;
      }
      if deployment.Some? {
        if dataplane == null || deployment.value !in dataplane.deployments {
          return false;
        }
        var d := dataplane.deployments[deployment.value];
        if d.active.candidate != m.target || |d.stack| < 1 {
          return false;
        }
      }
      return true;
    }

    /** The three mutations of `rollback`, router first; the first that raises is the last tried. */
    method RollBackLegs(session: Text, migration: Text, deployment: Option<Text>, reason: Text, faults: RollbackFaults, ghost w: Ledgers)
      returns (outcome: RollbackOutcome)
      requires RollbackAllowed(w, session, migration, deployment, reason)
      requires World() == w && runtime.Sane() && migrations.Sane() && (deployment.Some? ==> dataplane != null)
      modifies Objects()
      ensures World() == AfterRollback(w, session, migration, deployment, reason, faults)
      ensures outcome == if RollbackCompletes(w.sessions[session], deployment, faults) then RollbackReturned else RollbackBroke
    {
      if deployment.Some? {
        if faults.route == BeforeEffect {
          return RollbackBroke;
        }
        var rolledBack := dataplane.RollbackActive(deployment.value, reason);
        if faults.route == AfterEffect {
          return RollbackBroke;
        }
      }
      var raised := runtime.RollBackLast(session, faults.runtime);
      if !raised {
        raised := migrations.RollBack(migration, faults.record);
      }
      return if raised then RollbackBroke else RollbackReturned;
    }

    /** `rollback`. After its checks it returns exactly when no recommendation is pending and no
        mutation raises; otherwise it raises, and what has moved until then stays moved. */
    method RollBackCommitted(session: Text, migration: Text, reason: Text, faults: RollbackFaults) returns (outcome: RollbackOutcome)
      requires Valid()
      modifies Objects()
      ensures Valid()
      ensures var deployment := DeploymentFor(session);
              && (outcome == RollbackRefused <==> !RollbackAllowed(old(World()), session, migration, deployment, reason))
              && (outcome == RollbackRefused ==> World() == old(World()))
              && (outcome != RollbackRefused ==>
                    && (outcome == RollbackReturned <==>
                          && old(World()).sessions[session].pending.None?
                          && (deployment.Some? ==> faults.route == NoFault) && faults.runtime == NoFault && faults.record == NoFault)
                    && World() == AfterRollback(old(World()), session, migration, deployment, reason, faults)
                    && OnlyTouches(old(World()), World(), session, migration, deployment))
      // the same, over the ledgers
      ensures outcome != RollbackRefused <==> RollbackDue(old(World()), session, migration, DeploymentFor(session), reason)
      ensures outcome == RollbackReturned ==> RollbackDone(old(World()), World(), session, migration, DeploymentFor(session))
    {
      outcome := RollBackBound(session, migration, DeploymentFor(session), reason, faults, World());
    }

    /** The body of `rollback` once the bound deployment is looked up. */
    method RollBackBound(session: Text, migration: Text, deployment: Option<Text>, reason: Text, faults: RollbackFaults, ghost w: Ledgers)
      returns (outcome: RollbackOutcome)
      requires Sound(w) && World() == w && deployment == DeploymentFor(session)
      modifies Objects()
      ensures Valid()
      ensures outcome == RollbackRefused <==> !RollbackAllowed(w, session, migration, deployment, reason)
      ensures outcome == RollbackRefused ==> World() == w
      ensures outcome != RollbackRefused ==>
                && (outcome == RollbackReturned <==>
                      && w.sessions[session].pending.None?
                      && (deployment.Some? ==> faults.route == NoFault) && faults.runtime == NoFault && faults.record == NoFault)
                && World() == AfterRollback(w, session, migration, deployment, reason, faults)
                && OnlyTouches(w, World(), session, migration, deployment)
      ensures outcome != RollbackRefused <==> RollbackDue(w, session, migration, deployment, reason)
      ensures outcome == RollbackReturned ==> RollbackDone(w, World(), session, migration, deployment)
    {
      DueIffAllowed(w, session, migration, deployment, reason);
      var allowed := MayRollBack(session, migration, reason);
      if !allowed {
        return RollbackRefused;
      }
      AfterRollbackSound(w, session, migration, deployment, reason, faults);
      CanRollBackIff(w, session, migration, deployment, reason);
      outcome := RollBackLegs(session, migration, deployment, reason, faults, w);
      if outcome == RollbackReturned {
        AfterRollbackIsDone(w, session, migration, deployment, reason, faults);
      }
    }
  }

  // ---- what an abort achieves ----

  /** The migration belongs to the session and the bound route exists. */
  predicate AbortBegins(w: Ledgers, session: Text, migration: Text, deployment: Option<Text>) {
    && migration in w.migrations
    && w.migrations[migration].session == session
    && (deployment.Some? ==> deployment.value in w.routes)
  }

  /** The bound route has a version staged under the migration's target, by whichever migration. */
  predicate StagedForTarget(w: Ledgers, migration: Text, deployment: Option<Text>)
    requires migration in w.migrations && (deployment.Some? ==> deployment.value in w.routes)
  {
    && deployment.Some?
    && w.routes[deployment.value].staged.Some?
    && w.routes[deployment.value].staged.value.candidate == w.migrations[migration].target
  }

  /** The session's own unfinished migration has become aborted, and the session keeps its
      candidate without a recommendation. */
  ghost predicate AbortDone(before: Ledgers, after: Ledgers, session: Text, migration: Text, reason: Text) {
    && migration in before.migrations && session in before.sessions && reason != []
    && before.migrations[migration].session == session
    && before.migrations[migration].state in {Planned, ShadowBuilt, Verified}
    && migration in after.migrations && after.migrations[migration].state == Aborted
    && session in after.sessions && after.sessions[session].pending == None
    && after.sessions[session].active == before.sessions[session].active
  }

  lemma AfterAbortIsDone(w: Ledgers, session: Text, migration: Text, deployment: Option<Text>, reason: Text)
    ensures AbortReturns(w, session, migration, deployment, reason) ==>
              AbortDone(w, AfterAbort(w, session, migration, deployment, reason), session, migration, reason)
  {
  }

  predicate AbortReturns(w: Ledgers, session: Text, migration: Text, deployment: Option<Text>, reason: Text) {
    && AbortBegins(w, session, migration, deployment)
    && CanAbort(w.migrations[migration], reason)
    && session in w.sessions
  }

  function AfterAbort(w: Ledgers, session: Text, migration: Text, deployment: Option<Text>, reason: Text): Ledgers {
    if !AbortBegins(w, session, migration, deployment) then w
    else
      var dropped := if StagedForTarget(w, migration, deployment) then R.After(w.routes, deployment.value, R.AbortOp(reason)) else w.routes;
      var m := w.migrations[migration];
      Ledgers(if CanAbort(m, reason) && session in w.sessions then w.sessions[session := PendingDropped(w.sessions[session])] else w.sessions,
              if CanAbort(m, reason) then w.migrations[migration := m.(state := Aborted)] else w.migrations,
              dropped)
  }

  lemma AfterAbortSound(w: Ledgers, session: Text, migration: Text, deployment: Option<Text>, reason: Text)
    requires Sound(w)
    ensures Sound(AfterAbort(w, session, migration, deployment, reason))
  {
    if AbortBegins(w, session, migration, deployment) {
      assert SaneMigration(w.migrations[migration]);
      if deployment.Some? {
        ApplyWellFormed(w.routes, deployment.value, R.AbortOp(reason));
      }
    }
  }

  /** The route is touched before the migration's state is looked at. Given a reason, an abort
      either returns or changes nothing exactly if the migration can be aborted and the
      session is known, or the migration cannot and nothing is staged under its target: the
      abort of a committed migration drops what another one has staged, and then raises. */
  lemma AbortIsAtomicIff(w: Ledgers, session: Text, migration: Text, deployment: Option<Text>, reason: Text)
    requires AbortBegins(w, session, migration, deployment) && reason != []
    ensures AbortReturns(w, session, migration, deployment, reason) || AfterAbort(w, session, migration, deployment, reason) == w
            <==> if CanAbort(w.migrations[migration], reason) then session in w.sessions
                 else !StagedForTarget(w, migration, deployment)
  {
    var after := AfterAbort(w, session, migration, deployment, reason);
    if CanAbort(w.migrations[migration], reason) {
      assert after.migrations[migration].state != w.migrations[migration].state;
    } else if StagedForTarget(w, migration, deployment) {
      assert after.routes[deployment.value].staged != w.routes[deployment.value].staged;
    }
  }

  // ---- what a rollback of a committed migration achieves ----

  /** The preconditions `rollback` checks before its first mutation. */
  predicate RollbackAllowed(w: Ledgers, session: Text, migration: Text, deployment: Option<Text>, reason: Text) {
    && reason != []
    && migration in w.migrations
    && session in w.sessions
    && var m, s := w.migrations[migration], w.sessions[session];
       && m.session == session && m.state == Committed
       && s.active == m.target && s.rollbackAvailable
       && (deployment.Some? ==>
             && deployment.value in w.routes
             && w.routes[deployment.value].active.candidate == m.target
             && w.routes[deployment.value].stack != [])
  }

  /** The migration is the session's own and committed, session and bound route stand at its
      target, and both have something to go back to. */
  predicate RollbackDue(w: Ledgers, session: Text, migration: Text, deployment: Option<Text>, reason: Text) {
    && |reason| > 0 && session in w.sessions && migration in w.migrations
    && w.migrations[migration].session == session && w.migrations[migration].state == Committed
    && w.sessions[session].active == w.migrations[migration].target && w.sessions[session].rollbackAvailable
    && (deployment.Some? ==>
          && deployment.value in w.routes
          && w.routes[deployment.value].active.candidate == w.migrations[migration].target
          && |w.routes[deployment.value].stack| > 0)
  }

  /** The bound route shows the version on top of its stack again, under the next generation. */
  predicate RoutePopped(w: Ledgers, after: Ledgers, deployment: Option<Text>) {
    deployment.Some? ==>
      && deployment.value in w.routes && deployment.value in after.routes
      && var d, e := w.routes[deployment.value], after.routes[deployment.value];
         && d.stack != [] && e.stack + [e.active.(generation := d.stack[|d.stack| - 1].generation)] == d.stack
         && e.active.generation == d.active.generation + 1 && e.staged == None
  }

  predicate RollbackDone(w: Ledgers, after: Ledgers, session: Text, migration: Text, deployment: Option<Text>) {
    && session in w.sessions && session in after.sessions && migration in after.migrations
    && w.sessions[session].previous == Some(after.sessions[session].active)
    && !after.sessions[session].rollbackAvailable
    && after.migrations[migration].state == MigrationState.RolledBack
    && RoutePopped(w, after, deployment)
  }

  lemma DueIffAllowed(w: Ledgers, session: Text, migration: Text, deployment: Option<Text>, reason: Text)
    ensures RollbackAllowed(w, session, migration, deployment, reason) <==> RollbackDue(w, session, migration, deployment, reason)
  {
  }

  lemma AfterRollbackIsDone(w: Ledgers, session: Text, migration: Text, deployment: Option<Text>, reason: Text, faults: RollbackFaults)
    requires RollbackAllowed(w, session, migration, deployment, reason)
    requires RollbackCompletes(w.sessions[session], deployment, faults)
    ensures RollbackDone(w, AfterRollback(w, session, migration, deployment, reason, faults), session, migration, deployment)
  {
    if deployment.Some? {
      var d := w.routes[deployment.value];
      assert d.stack == d.stack[..|d.stack| - 1] + [d.stack[|d.stack| - 1]];
    }
  }

  // Which mutations a rollback makes once its checks have passed.

  predicate RouteMoves(deployment: Option<Text>, faults: RollbackFaults) {
    deployment.Some? && faults.route != BeforeEffect
  }

  predicate SessionMoves(s: Session, deployment: Option<Text>, faults: RollbackFaults) {
    (deployment.Some? ==> faults.route == NoFault) && CanRollBack(s) && faults.runtime != BeforeEffect
  }

  predicate RecordMoves(s: Session, deployment: Option<Text>, faults: RollbackFaults) {
    SessionMoves(s, deployment, faults) && faults.runtime == NoFault && faults.record != BeforeEffect
  }

  predicate RollbackCompletes(s: Session, deployment: Option<Text>, faults: RollbackFaults) {
    RecordMoves(s, deployment, faults) && faults.record == NoFault
  }

  /** What the ledgers look like after `rollback` passed its checks. */
  function AfterRollback(w: Ledgers, session: Text, migration: Text, deployment: Option<Text>, reason: Text, faults: RollbackFaults): Ledgers
    requires RollbackAllowed(w, session, migration, deployment, reason)
  {
    var m, s := w.migrations[migration], w.sessions[session];
    Ledgers(if SessionMoves(s, deployment, faults) then w.sessions[session := RolledBackSession(s)] else w.sessions,
            if RecordMoves(s, deployment, faults) then w.migrations[migration := m.(state := MigrationState.RolledBack)] else w.migrations,
            if RouteMoves(deployment, faults) then R.After(w.routes, deployment.value, R.RollbackOp(reason)) else w.routes)
  }

  /** The pending recommendation is the one obstacle the checks leave to the runtime leg. */
  lemma CanRollBackIff(w: Ledgers, session: Text, migration: Text, deployment: Option<Text>, reason: Text)
    requires SaneSessions(w.sessions) && RollbackAllowed(w, session, migration, deployment, reason)
    ensures CanRollBack(w.sessions[session]) <==> w.sessions[session].pending.None?
  {
    assert SaneSession(w.sessions[session]);
  }

  lemma AfterRollbackSound(w: Ledgers, session: Text, migration: Text, deployment: Option<Text>, reason: Text, faults: RollbackFaults)
    requires Sound(w) && RollbackAllowed(w, session, migration, deployment, reason)
    ensures var after := AfterRollback(w, session, migration, deployment, reason, faults);
            Sound(after) && OnlyTouches(w, after, session, migration, deployment)
  {
    RolledBackSane(w, session, migration, deployment, reason, faults);
    if deployment.Some? {
      ApplyWellFormed(w.routes, deployment.value, R.RollbackOp(reason));
    }
    RolledBackTouches(w, session, migration, deployment, reason, faults);
  }

  lemma RolledBackTouches(w: Ledgers, session: Text, migration: Text, deployment: Option<Text>, reason: Text, faults: RollbackFaults)
    requires RollbackAllowed(w, session, migration, deployment, reason)
    ensures OnlyTouches(w, AfterRollback(w, session, migration, deployment, reason, faults), session, migration, deployment)
  {
  }

  lemma RolledBackSane(w: Ledgers, session: Text, migration: Text, deployment: Option<Text>, reason: Text, faults: RollbackFaults)
    requires SaneSessions(w.sessions) && SaneMigrations(w.migrations)
    requires RollbackAllowed(w, session, migration, deployment, reason)
    ensures var after := AfterRollback(w, session, migration, deployment, reason, faults);
            SaneSessions(after.sessions) && SaneMigrations(after.migrations)
  {
    assert SaneMigration(w.migrations[migration]) && SaneSession(w.sessions[session]);
  }

  /** Every ledger the rollback is to move has moved. */
  predicate AllMoved(w: Ledgers, after: Ledgers, deployment: Option<Text>) {
    && after.sessions != w.sessions && after.migrations != w.migrations
    && (deployment.Some? ==> after.routes != w.routes)
  }

  /** There is no compensation, and a pending recommendation is not among the checks. All
      ledgers move or none does, exactly when nothing raises before the last effect, or when
      the very first mutation raises before its own: the route's, or without a bound route the
      session's, which a pending recommendation makes raise too. */
  lemma RollbackIsAtomicIff(w: Ledgers, session: Text, migration: Text, deployment: Option<Text>, reason: Text, faults: RollbackFaults)
    requires Sound(w) && RollbackAllowed(w, session, migration, deployment, reason)
    ensures var after, pending := AfterRollback(w, session, migration, deployment, reason, faults), w.sessions[session].pending;
            AllMoved(w, after, deployment) || after == w <==>
              || ((deployment.Some? ==> faults.route == NoFault) && pending.None? && faults.runtime == NoFault && faults.record != BeforeEffect)
              || (if deployment.Some? then faults.route == BeforeEffect else pending.Some? || faults.runtime == BeforeEffect)
  {
    var after := AfterRollback(w, session, migration, deployment, reason, faults);
    var s := w.sessions[session];
    CanRollBackIff(w, session, migration, deployment, reason);
    if SessionMoves(s, deployment, faults) {
      assert after.sessions[session].rollbackAvailable != s.rollbackAvailable;
    }
    if RecordMoves(s, deployment, faults) {
      assert after.migrations[migration].state != w.migrations[migration].state;
    }
    if RouteMoves(deployment, faults) {
      assert after.routes[deployment.value].active.generation == w.routes[deployment.value].active.generation + 1;
    }
  }
}
