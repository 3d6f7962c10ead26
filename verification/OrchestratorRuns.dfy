/** Where the rollback of a committed migration lands, over every run of the program: any
    number of sessions, migrations and deployments, shared or not, switched through either
    orchestrator or directly, with any fault in any leg. */
module OrchestratorRuns {
  import opened Wrappers
  import opened Text
  import R = Router
  import opened RouterRuns
  import opened Controllers
  import opened Orchestrator
  import opened OrchestratorMoves

  datatype Done = Done(move: Move, now: World)

  /** The world before the i-th move. */
  function StateAt(w: World, run: seq<Done>, i: nat): World
    requires i <= |run|
  {
    if i == 0 then w else run[i - 1].now
  }

  function Now(w: World, run: seq<Done>): World {
    StateAt(w, run, |run|)
  }

  ghost predicate NextAt(w: World, run: seq<Done>, i: nat)
    requires i < |run|
  {
    Next(StateAt(w, run, i), run[i].move, StateAt(w, run, i + 1))
  }

  ghost predicate IsRun(w: World, run: seq<Done>) {
    forall i :: 0 <= i < |run| ==> NextAt(w, run, i)
  }

  lemma {:induction false} SoundAt(w: World, run: seq<Done>, j: nat)
    requires Sound(w.ledgers) && IsRun(w, run) && j <= |run|
    ensures Sound(StateAt(w, run, j).ledgers)
  {
    if j > 0 {
      SoundAt(w, run, j - 1);
      assert NextAt(w, run, j - 1);
      NextSound(StateAt(w, run, j - 1), run[j - 1].move, StateAt(w, run, j));
    }
  }

  /** Endpoints of a migration never change, and records are never removed. */
  ghost predicate KeepsEndpoints(t: Migrations, u: Migrations) {
    forall id :: id in t ==> id in u && u[id].source == t[id].source && u[id].target == t[id].target
  }

  lemma CallKeepsEndpoints(t: Migrations, call: MigrationCall)
    ensures KeepsEndpoints(t, MigrationsAfter(t, call))
  {
  }

  lemma CommitKeepsEndpoints(w: Ledgers, u: Ledgers, session: Text, migration: Text, deployment: Option<Text>, reason: Text)
    requires CommitEnds(w, u, session, migration, deployment, reason)
    ensures KeepsEndpoints(w.migrations, u.migrations)
  {
  }

  lemma NextKeepsEndpoints(w: World, move: Move, u: World)
    requires Next(w, move, u)
    ensures KeepsEndpoints(w.ledgers.migrations, u.ledgers.migrations)
  {
    match move
    case OnMigrations(call) => CallKeepsEndpoints(w.ledgers.migrations, call);
    case Authorize(via, session, migration, reason) =>
      CommitKeepsEndpoints(w.ledgers, u.ledgers, session, migration, BoundTo(w, via, session), reason);
    case Abort(_, _, _, _) =>
    case TakeBack(_, _, _, _, _) =>
    case _ =>
  }

  lemma {:induction false} EndpointsKept(w: World, run: seq<Done>, i: nat, j: nat)
    requires IsRun(w, run) && i <= j <= |run|
    ensures KeepsEndpoints(StateAt(w, run, i).ledgers.migrations, StateAt(w, run, j).ledgers.migrations)
    decreases j
  {
    if i < j {
      EndpointsKept(w, run, i, j - 1);
      assert NextAt(w, run, j - 1);
      NextKeepsEndpoints(StateAt(w, run, j - 1), run[j - 1].move, StateAt(w, run, j));
    }
  }

  // ---- the last switch of a session ----

  /** The session has been confirmed at what was pending. */
  predicate Switches(t: Sessions, u: Sessions, session: Text) {
    && session in t && session in u
    && t[session].pending.Some? && CanConfirm(t[session], t[session].pending.value)
    && u[session] == Confirmed(t[session], t[session].pending.value)
  }

  predicate SwitchAt(w: World, run: seq<Done>, session: Text, i: nat)
    requires i < |run|
  {
    Switches(StateAt(w, run, i).ledgers.sessions, StateAt(w, run, i + 1).ledgers.sessions, session)
  }

  /** Move `k` is the last before moment `j` that switched the session, whoever asked for it. */
  ghost predicate LastSwitch(w: World, run: seq<Done>, session: Text, j: nat, k: nat) {
    k < j <= |run| && SwitchAt(w, run, session, k) && forall i :: k < i < j ==> !SwitchAt(w, run, session, i)
  }

  /** The candidate the session left at move `k`. */
  function Left(w: World, run: seq<Done>, session: Text, k: nat): Text
    requires k < |run| && SwitchAt(w, run, session, k)
  {
    StateAt(w, run, k).ledgers.sessions[session].active
  }

  /** A rollback on offer was either on offer before, to the same candidate, or the move is a switch. */
  ghost predicate OfferFrom(t: Sessions, u: Sessions, session: Text) {
    session in u && u[session].rollbackAvailable ==>
      || Switches(t, u, session)
      || (session in t && t[session].rollbackAvailable && u[session].previous == t[session].previous)
  }

  lemma CommitOffers(w: Ledgers, u: Ledgers, session: Text, other: Text, migration: Text, deployment: Option<Text>, reason: Text)
    requires CommitEnds(w, u, other, migration, deployment, reason)
    ensures OfferFrom(w.sessions, u.sessions, session)
  {
  }

  lemma NextOffers(w: World, move: Move, u: World, session: Text)
    requires Next(w, move, u)
    ensures OfferFrom(w.ledgers.sessions, u.ledgers.sessions, session)
  {
    if move.Authorize? {
      CommitOffers(w.ledgers, u.ledgers, session, move.session, move.migration, BoundTo(w, move.via, move.session), move.reason);
    }
  }

  /** The session has no rollback to offer. */
  predicate NoOffer(w: World, session: Text) {
    session in w.ledgers.sessions ==> !w.ledgers.sessions[session].rollbackAvailable
  }

  /** Whatever a session offers to roll back to is what it left at its last switch. */
  lemma {:induction false} OffersWhatItLeft(w: World, run: seq<Done>, session: Text, j: nat) returns (k: nat)
    requires IsRun(w, run) && NoOffer(w, session) && j <= |run|
    requires var t := StateAt(w, run, j).ledgers.sessions; session in t && t[session].rollbackAvailable
    ensures LastSwitch(w, run, session, j, k)
    ensures StateAt(w, run, j).ledgers.sessions[session].previous == Some(Left(w, run, session, k))
    decreases j
  {
    assert NextAt(w, run, j - 1);
    NextOffers(StateAt(w, run, j - 1), run[j - 1].move, StateAt(w, run, j), session);
    if SwitchAt(w, run, session, j - 1) {
      k := j - 1;
    } else {
      k := OffersWhatItLeft(w, run, session, j - 1);
    }
  }

  // ---- the last standing activation of a deployment ----

  /** The deployment's active version has been pushed. */
  predicate Pushes(t: R.Table, u: R.Table, id: Text) {
    id in t && id in u && u[id].stack == t[id].stack + [t[id].active]
  }

  predicate PushAt(w: World, run: seq<Done>, id: Text, i: nat)
    requires i < |run|
  {
    Pushes(StateAt(w, run, i).ledgers.routes, StateAt(w, run, i + 1).ledgers.routes, id)
  }

  predicate Deeper(t: R.Table, id: Text, depth: nat) {
    id in t && |t[id].stack| > depth
  }

  predicate DeeperAt(w: World, run: seq<Done>, id: Text, depth: nat, i: nat)
    requires i <= |run|
  {
    Deeper(StateAt(w, run, i).ledgers.routes, id, depth)
  }

  /** Move `k` activated a version over `depth` others, and it has not been undone before moment `j`. */
  ghost predicate StandsAt(w: World, run: seq<Done>, id: Text, depth: nat, j: nat, k: nat) {
    && k < j <= |run| && PushAt(w, run, id, k)
    && |StateAt(w, run, k).ledgers.routes[id].stack| == depth
    && forall i :: k < i <= j ==> DeeperAt(w, run, id, depth, i)
  }

  /** ... and it is the last one that stands. */
  ghost predicate LastActivation(w: World, run: seq<Done>, id: Text, j: nat, k: nat) {
    && j <= |run| && id in StateAt(w, run, j).ledgers.routes && StateAt(w, run, j).ledgers.routes[id].stack != []
    && StandsAt(w, run, id, |StateAt(w, run, j).ledgers.routes[id].stack| - 1, j, k)
  }

  /** There is only one. */
  lemma LastActivationIsUnique(w: World, run: seq<Done>, id: Text, j: nat, k: nat, l: nat)
    requires LastActivation(w, run, id, j, k) && LastActivation(w, run, id, j, l)
    ensures k == l
  {
    var depth := |StateAt(w, run, j).ledgers.routes[id].stack| - 1;
    if k < l { DeeperSince(w, run, id, depth, j, k, l); }
    if l < k { DeeperSince(w, run, id, depth, j, l, k); }
  }

  lemma DeeperSince(w: World, run: seq<Done>, id: Text, depth: nat, j: nat, k: nat, i: nat)
    requires StandsAt(w, run, id, depth, j, k) && k < i <= j
    ensures DeeperAt(w, run, id, depth, i)
  {
  }

  /** The candidate the deployment showed before move `k`. */
  function Shown(w: World, run: seq<Done>, id: Text, k: nat): Text
    requires k < |run| && PushAt(w, run, id, k)
  {
    StateAt(w, run, k).ledgers.routes[id].active.candidate
  }

  /** What a move can do to the stack of a deployment. */
  ghost predicate StackFrom(t: R.Table, u: R.Table, id: Text) {
    id in u ==>
      || u[id].stack == []
      || Pushes(t, u, id)
      || (id in t && u[id].stack <= t[id].stack)
  }

  lemma CallStack(t: R.Table, call: Call, id: Text)
    ensures StackFrom(t, Do(t, call), id)
  {
  }

  lemma CommitStack(w: Ledgers, u: Ledgers, id: Text, session: Text, migration: Text, deployment: Option<Text>, reason: Text)
    requires CommitEnds(w, u, session, migration, deployment, reason) && reason != []
    ensures StackFrom(w.routes, u.routes, id)
  {
    if Admissible(w, session, migration, deployment) && EntriesSound(w, session, migration, deployment) && deployment.Some? {
      ActivateThenRollBack(w, session, migration, deployment, reason);
    }
  }

  lemma NextStack(w: World, move: Move, u: World, id: Text)
    requires Next(w, move, u)
    ensures StackFrom(w.ledgers.routes, u.ledgers.routes, id)
  {
    match move
    case OnRuntime(_) =>
    case OnMigrations(_) =>
    case OnRouter(call) => CallStack(w.ledgers.routes, call, id);
    case Bind(_, _) =>
    case StageVerified(migration, metadata) =>
      var asked := StageRequest(w.ledgers, w.bindings, migration, metadata);
      if asked.Some? { CallStack(w.ledgers.routes, asked.value, id); }
    case Authorize(via, session, migration, reason) =>
      CommitStack(w.ledgers, u.ledgers, id, session, migration, BoundTo(w, via, session), reason);
    case Abort(_, _, _, _) =>
    case TakeBack(_, _, _, _, _) =>
  }

  /** The deployment has nothing to pop. */
  predicate NothingStacked(w: World, id: Text) {
    id in w.ledgers.routes ==> w.ledgers.routes[id].stack == []
  }

  /** Each version on a stack was pushed by an activation that still stands. */
  lemma {:induction false} StackedByStanding(w: World, run: seq<Done>, id: Text, depth: nat, j: nat) returns (k: nat)
    requires IsRun(w, run) && NothingStacked(w, id) && j <= |run| && DeeperAt(w, run, id, depth, j)
    ensures StandsAt(w, run, id, depth, j, k)
    ensures StateAt(w, run, j).ledgers.routes[id].stack[depth] == StateAt(w, run, k).ledgers.routes[id].active
    decreases j
  {
    assert NextAt(w, run, j - 1);
    NextStack(StateAt(w, run, j - 1), run[j - 1].move, StateAt(w, run, j), id);
    if PushAt(w, run, id, j - 1) && depth == |StateAt(w, run, j - 1).ledgers.routes[id].stack| {
      k := j - 1;
    } else {
      k := StackedByStanding(w, run, id, depth, j - 1);
    }
  }

  // ---- what a caller can see before the rollback ----

  /** The candidate on top of the stack, as the route's own history tells it. */
  function ToldTop(h: seq<R.Event>): Option<Text> {
    var stack := Replay(h).stack;
    if stack == [] then None else Some(stack[|stack| - 1].candidate)
  }

  lemma HistoryTellsTop(d: R.Deployment)
    requires HistoryTells(d) && d.stack != []
    ensures ToldTop(d.history) == Some(d.stack[|d.stack| - 1].candidate)
  {
    assert Identities(d.stack)[|d.stack| - 1] == IdentityOf(d.stack[|d.stack| - 1]);
  }

  /** Where session and route stand after the rollback. */
  function SessionShows(w: Ledgers, session: Text): Option<Text> {
    if session in w.sessions then Some(w.sessions[session].active) else None
  }

  function RouteShows(w: Ledgers, deployment: Option<Text>): Option<Text> {
    if deployment.Some? && deployment.value in w.routes then Some(w.routes[deployment.value].active.candidate) else None
  }

  /** A leg that takes effect goes where the ledger says, the other stays at the target. */
  lemma LegsLand(w: Ledgers, session: Text, migration: Text, deployment: Option<Text>, reason: Text, faults: RollbackFaults)
    requires Sound(w) && RollbackAllowed(w, session, migration, deployment, reason)
    ensures var after, m, s := AfterRollback(w, session, migration, deployment, reason, faults), w.migrations[migration], w.sessions[session];
            && SessionShows(after, session) == (if SessionMoves(s, deployment, faults) then s.previous else Some(m.target))
            && (deployment.Some? ==>
                  RouteShows(after, deployment) ==
                    if RouteMoves(deployment, faults) then ToldTop(w.routes[deployment.value].history) else Some(m.target))
  {
    if deployment.Some? {
      var d := w.routes[deployment.value];
      assert WellFormed(d);
      HistoryTellsTop(d);
    }
  }

  /** Session and route both show the candidate, as far as there is a route. */
  predicate Shows(w: Ledgers, session: Text, deployment: Option<Text>, candidate: Text) {
    SessionShows(w, session) == Some(candidate) && (deployment.Some? ==> RouteShows(w, deployment) == Some(candidate))
  }

  predicate Together(w: Ledgers, session: Text, deployment: Option<Text>) {
    deployment.Some? ==> SessionShows(w, session) == RouteShows(w, deployment)
  }

  /** The exact conditions, read off before the call from any ledgers whatever: the session's
      `previous_candidate_id`, the route's history, the pending recommendation, and which call
      is going to fail. The rollback returns to the migration's own source exactly if both legs
      take effect and both name that source. Session and route end together exactly if
      neither moves, or both move and name one candidate. */
  lemma ReturnsToSourceIff(w: Ledgers, session: Text, migration: Text, deployment: Option<Text>, reason: Text, faults: RollbackFaults)
    requires Sound(w) && RollbackAllowed(w, session, migration, deployment, reason)
    ensures var after, m, s := AfterRollback(w, session, migration, deployment, reason, faults), w.migrations[migration], w.sessions[session];
            && (Shows(after, session, deployment, m.source) <==>
                  && s.pending.None? && (deployment.Some? ==> faults.route == NoFault) && faults.runtime != BeforeEffect
                  && s.previous == Some(m.source)
                  && (deployment.Some? ==> ToldTop(w.routes[deployment.value].history) == Some(m.source)))
            && (Together(after, session, deployment) <==>
                  || deployment.None? || faults.route == BeforeEffect
                  || (s.pending.None? && faults.route == NoFault && faults.runtime != BeforeEffect
                      && s.previous == ToldTop(w.routes[deployment.value].history)))
  {
    LegsLand(w, session, migration, deployment, reason, faults);
    CanRollBackIff(w, session, migration, deployment, reason);
    assert SaneMigration(w.migrations[migration]);
    if deployment.Some? { TopIsAnother(w.routes[deployment.value]); }
  }

  lemma TopIsAnother(d: R.Deployment)
    requires WellFormed(d) && d.stack != []
    ensures ToldTop(d.history).Some? && ToldTop(d.history).value != d.active.candidate
  {
    HistoryTellsTop(d);
    assert d.stack[|d.stack| - 1].candidate != Above(d, |d.stack| - 1).candidate;
  }

  // ---- what the run says of it ----

  /** In every run, what the session offers is the candidate it left at its last switch, and
      what its route would pop is the candidate shown before the last activation that stands. */
  lemma WhereItCameFrom(w: World, run: seq<Done>, session: Text, migration: Text, deployment: Option<Text>, reason: Text)
    returns (k: nat, a: nat)
    requires Sound(w.ledgers) && NoOffer(w, session) && (deployment.Some? ==> NothingStacked(w, deployment.value))
    requires IsRun(w, run) && RollbackAllowed(Now(w, run).ledgers, session, migration, deployment, reason)
    ensures LastSwitch(w, run, session, |run|, k)
    ensures Now(w, run).ledgers.sessions[session].previous == Some(Left(w, run, session, k))
    ensures deployment.Some? ==> LastActivation(w, run, deployment.value, |run|, a)
    ensures deployment.Some? ==>
              ToldTop(Now(w, run).ledgers.routes[deployment.value].history) == Some(Shown(w, run, deployment.value, a))
  {
    k := OffersWhatItLeft(w, run, session, |run|);
    a := 0;
    if deployment.Some? {
      var d := Now(w, run).ledgers.routes[deployment.value];
      a := StackedByStanding(w, run, deployment.value, |d.stack| - 1, |run|);
      SoundAt(w, run, |run|);
      assert WellFormed(d);
      HistoryTellsTop(d);
    }
  }

  /** In every run, whichever committed migration is rolled back and whatever fails: a leg that
      takes effect lands where the session left at its last switch, or where the route stood
      before its last standing activation. So session and route end together, if both legs
      take effect, exactly if those two are one candidate, and at the migration's own source
      exactly if both are that source. */
  lemma RollbackLandsWhereItLeft(w: World, run: seq<Done>, session: Text, migration: Text, deployment: Option<Text>, reason: Text,
                                 faults: RollbackFaults)
    returns (k: nat, a: nat)
    requires Sound(w.ledgers) && NoOffer(w, session) && (deployment.Some? ==> NothingStacked(w, deployment.value))
    requires IsRun(w, run) && RollbackAllowed(Now(w, run).ledgers, session, migration, deployment, reason)
    ensures LastSwitch(w, run, session, |run|, k)
    ensures deployment.Some? ==> LastActivation(w, run, deployment.value, |run|, a)
    ensures var now := Now(w, run).ledgers;
            var after, m, s := AfterRollback(now, session, migration, deployment, reason, faults), now.migrations[migration], now.sessions[session];
            var took := s.pending.None? && (deployment.Some? ==> faults.route == NoFault) && faults.runtime != BeforeEffect;
            && SessionShows(after, session) == Some(if took then Left(w, run, session, k) else m.target)
            && (deployment.Some? ==>
                  RouteShows(after, deployment) ==
                    Some(if faults.route != BeforeEffect then Shown(w, run, deployment.value, a) else m.target))
            && (Shows(after, session, deployment, m.source) <==>
                  took && Left(w, run, session, k) == m.source
                  && (deployment.Some? ==> Shown(w, run, deployment.value, a) == m.source))
            && (took && deployment.Some? ==>
                  (Together(after, session, deployment) <==> Left(w, run, session, k) == Shown(w, run, deployment.value, a)))
  {
    var now := Now(w, run).ledgers;
    k, a := WhereItCameFrom(w, run, session, migration, deployment, reason);
    SoundAt(w, run, |run|);
    LegsLand(now, session, migration, deployment, reason, faults);
    CanRollBackIff(now, session, migration, deployment, reason);
    ReturnsToSourceIff(now, session, migration, deployment, reason, faults);
  }

  // ---- when switch and activation are one commit ----

  /** A move that switches a session and pushes a route is a commit of that session over that route. */
  lemma OneCommit(w: World, move: Move, u: World, session: Text, id: Text)
    requires Next(w, move, u)
    requires Switches(w.ledgers.sessions, u.ledgers.sessions, session) && Pushes(w.ledgers.routes, u.ledgers.routes, id)
    ensures move.Authorize? && move.session == session && BoundTo(w, move.via, session) == Some(id)
    ensures Admissible(w.ledgers, session, move.migration, Some(id))
  {
    SwitchMakesNew(w.ledgers.sessions, u.ledgers.sessions, session);
    match move
    case OnRuntime(_) =>
    case OnMigrations(_) =>
    case OnRouter(_) =>
    case Bind(_, _) =>
    case StageVerified(_, _) =>
    case Authorize(_, _, _, _) =>
    case Abort(_, _, _, _) =>
    case TakeBack(_, _, _, _, _) =>
  }

  lemma SwitchMakesNew(t: Sessions, u: Sessions, session: Text)
    requires Switches(t, u, session)
    ensures t[session].pending.Some? && u[session].pending.None? && u[session].rollbackAvailable && u[session].previous == Some(t[session].active)
  {
  }

  /** Where one commit did both, they agree on its migration's source; so if nothing has
      switched the session or stands on the route since this migration's own commit, its
      rollback returns to its source, unless a leg fails or a recommendation is pending. */
  lemma OneCommitReturns(w: World, run: seq<Done>, session: Text, migration: Text, deployment: Text, reason: Text, faults: RollbackFaults, k: nat)
    requires Sound(w.ledgers) && NoOffer(w, session) && NothingStacked(w, deployment)
    requires IsRun(w, run) && RollbackAllowed(Now(w, run).ledgers, session, migration, Some(deployment), reason)
    requires LastSwitch(w, run, session, |run|, k) && LastActivation(w, run, deployment, |run|, k)
    ensures run[k].move.Authorize? && run[k].move.session == session
    ensures Left(w, run, session, k) == Shown(w, run, deployment, k)
    ensures var now := Now(w, run).ledgers;
            run[k].move.migration == migration ==>
              (Shows(AfterRollback(now, session, migration, Some(deployment), reason, faults), session, Some(deployment), now.migrations[migration].source)
               <==> now.sessions[session].pending.None? && faults.route == NoFault && faults.runtime != BeforeEffect)
  {
    assert NextAt(w, run, k);
    OneCommit(StateAt(w, run, k), run[k].move, StateAt(w, run, k + 1), session, deployment);
    EndpointsKept(w, run, k, |run|);
    var l, a := RollbackLandsWhereItLeft(w, run, session, migration, Some(deployment), reason, faults);
    LastActivationIsUnique(w, run, deployment, |run|, k, a);
    LastSwitchIsUnique(w, run, session, |run|, k, l);
  }

  lemma LastSwitchIsUnique(w: World, run: seq<Done>, session: Text, j: nat, k: nat, l: nat)
    requires LastSwitch(w, run, session, j, k) && LastSwitch(w, run, session, j, l)
    ensures k == l
  {
  }
}
