/** The runtime and migration controllers: the two control-plane ledgers that a commit
    keeps in step with the router. Each operation can be made to raise before or after
    its effect, which is how the compensation protocol is exercised. */
module Controllers {
  import opened Wrappers
  import opened Text
  import opened Reals
  import opened Mixes

  /** An injected failure of one call. */
  datatype Fault = NoFault | BeforeEffect | AfterEffect

  // ---- runtime sessions ----

  datatype Snapshot = Snapshot(sequence: int, mix: Mix, expectedQueries: int)

  /** What the cost model predicts, and how much of it has to be earned back. */
  datatype Prediction = Prediction(current: real, alternative: real, switching: real, factor: real, margin: real)

  datatype Session = Session(
    active: Text,
    baseline: Mix,
    lastSwitch: Option<int>,
    lastObserved: int,
    pending: Option<Text>,
    pendingSnapshot: Option<Snapshot>,
    previous: Option<Text>,
    previousBaseline: Option<Mix>,
    previousLastSwitch: Option<int>,
    rollbackAvailable: bool,
    driftThreshold: real,
    cooldown: int)

  type Sessions = map<Text, Session>

  /** Pending candidate and snapshot come and go together; so do the rollback flag and
      what it restores; and nothing pending was observed inside the cooldown. */
  predicate SaneSession(s: Session) {
    && (s.pending.Some? <==> s.pendingSnapshot.Some?)
    && (s.rollbackAvailable ==> s.previous.Some? && s.previousBaseline.Some?)
    && s.cooldown >= 0
    && (s.pendingSnapshot.Some? ==> !CoolingDown(s, s.pendingSnapshot.value))
  }

  predicate CoolingDown(s: Session, snapshot: Snapshot) {
    s.lastSwitch.Some? && snapshot.sequence <= s.lastSwitch.value + s.cooldown
  }

  /** `decide_adaptation` recommends the switch. */
  predicate Recommends(s: Session, snapshot: Snapshot, p: Prediction) {
    var gain := Max(p.current - p.alternative, 0.0);
    && !CoolingDown(s, snapshot)
    && Drifted(s.baseline, snapshot.mix, s.driftThreshold)
    && gain * snapshot.expectedQueries as real > p.factor * p.switching * (1.0 + p.margin)
    && gain > 0.0
  }

  function NewSession(active: Text, baseline: Snapshot, driftThreshold: real, cooldown: int): Session {
    Session(active, baseline.mix, None, baseline.sequence, None, None, None, None, None, false, driftThreshold, cooldown)
  }

  function Observed(s: Session, snapshot: Snapshot, alternative: Text, p: Prediction): Session {
    var seen := s.(lastObserved := snapshot.sequence);
    if Recommends(s, snapshot, p) then seen.(pending := Some(alternative), pendingSnapshot := Some(snapshot)) else seen
  }

  predicate CanConfirm(s: Session, candidate: Text) {
    s.pending.Some? && s.pendingSnapshot.Some? && candidate == s.pending.value
  }

  function Confirmed(s: Session, candidate: Text): Session
    requires CanConfirm(s, candidate)
  {
    s.(previous := Some(s.active), previousBaseline := Some(s.baseline), previousLastSwitch := s.lastSwitch,
       rollbackAvailable := true,
       active := candidate, lastSwitch := Some(s.pendingSnapshot.value.sequence), baseline := s.pendingSnapshot.value.mix,
       pending := None, pendingSnapshot := None)
  }

  predicate CanRollBack(s: Session) {
    s.rollbackAvailable && s.previous.Some? && s.pending.None?
  }

  function RolledBackSession(s: Session): Session
    requires CanRollBack(s)
  {
    s.(active := s.previous.value,
       baseline := if s.previousBaseline.Some? then s.previousBaseline.value else s.baseline,
       lastSwitch := s.previousLastSwitch,
       previous := None, previousBaseline := None, previousLastSwitch := None, rollbackAvailable := false)
  }

  /** Rolling back right after a confirmation restores candidate, baseline and switch
      sequence; only the recommendation stays consumed. */
  lemma ConfirmThenRollBack(s: Session, candidate: Text)
    requires CanConfirm(s, candidate)
    ensures CanRollBack(Confirmed(s, candidate))
    ensures var r := RolledBackSession(Confirmed(s, candidate));
            r.active == s.active && r.baseline == s.baseline && r.lastSwitch == s.lastSwitch && r.pending == None
  {
  }

  predicate CanStart(t: Sessions, id: Text, active: Text, driftThreshold: real, cooldown: int) {
    1 <= |id| <= 128 && active != [] && 0.0 <= driftThreshold <= 1.0 && cooldown >= 0 && id !in t
  }

  class RuntimeController {
    var sessions: Sessions

    ghost predicate Sane()
      reads this
    {
      forall id :: id in sessions ==> SaneSession(sessions[id])
    }

    constructor ()
      ensures sessions == map[] && Sane()
    {
      sessions := map[];
    }

    /** `start` */
    method Start(id: Text, active: Text, baseline: Snapshot, driftThreshold: real, cooldown: int) returns (raised: bool)
      requires Sane()
      modifies this
      ensures Sane()
      ensures raised <==> !(1 <= |id| <= 128 && active != [] && 0.0 <= driftThreshold <= 1.0 && cooldown >= 0 && id !in old(sessions))
      ensures !raised ==>
                id in sessions && sessions[id] == Session(active, baseline.mix, None, baseline.sequence, None, None, None, None, None, false, driftThreshold, cooldown)
      ensures sessions == if raised then old(sessions)
                          else old(sessions)[id := NewSession(active, baseline, driftThreshold, cooldown)]
    {
      if id == [] || |id| > 128 || active == [] {
        return true;
      }
      if !(0.0 <= driftThreshold <= 1.0) || cooldown < 0 || id in sessions {
        return true;
      }
      sessions := sessions[id := NewSession(active, baseline, driftThreshold, cooldown)];
      return false;
    }

    /** `observe` */
    method Observe(id: Text, snapshot: Snapshot, alternative: Text, p: Prediction) returns (raised: bool)
      requires Sane()
      modifies this
      ensures Sane()
      ensures raised <==> id !in old(sessions) || snapshot.sequence <= old(sessions)[id].lastObserved
      ensures sessions == if raised then old(sessions)
                          else old(sessions)[id := Observed(old(sessions)[id], snapshot, alternative, p)]
      // a switch is recommended exactly if the cooldown is over, the mixes are the threshold apart
      // and the expected queries earn back the transition cost with its factor and margin
      ensures !raised ==>
                var s := old(sessions)[id];
                var due := && (s.lastSwitch.Some? ==> snapshot.sequence > s.lastSwitch.value + s.cooldown)
                           && DriftDistance(s.baseline, snapshot.mix) >= s.driftThreshold
                           && p.current > p.alternative
                           && (p.current - p.alternative) * snapshot.expectedQueries as real > p.factor * p.switching * (1.0 + p.margin);
                && sessions[id].pending == (if due then Some(alternative) else s.pending)
                && sessions[id].pendingSnapshot == (if due then Some(snapshot) else s.pendingSnapshot)
                && sessions[id].lastObserved == snapshot.sequence
                && sessions[id].active == s.active && sessions[id].baseline == s.baseline && sessions[id].lastSwitch == s.lastSwitch
                && sessions[id].previous == s.previous && sessions[id].rollbackAvailable == s.rollbackAvailable
    {
      if id !in sessions || snapshot.sequence <= sessions[id].lastObserved {
        return true;
      }
      var s := sessions[id];
      var drifted := DriftDistance(s.baseline, snapshot.mix) >= s.driftThreshold;
      var coolingDown := s.lastSwitch.Some? && snapshot.sequence <= s.lastSwitch.value + s.cooldown;
      var gain := Max(p.current - p.alternative, 0.0);
      var benefit := gain * snapshot.expectedQueries as real;
      var threshold := p.factor * p.switching * (1.0 + p.margin);
      var recommended := !coolingDown && drifted && benefit > threshold && gain > 0.0;
      s := s.(lastObserved := snapshot.sequence);
      if recommended {
        s := s.(pending := Some(alternative), pendingSnapshot := Some(snapshot));
      }
      sessions := sessions[id := s];
      return false;
    }

    /** `confirm`; a confirmed switch lies more than the cooldown after the one before it. */
    method Confirm(id: Text, candidate: Text, fault: Fault) returns (raised: bool)
      requires Sane()
      modifies this
      ensures Sane()
      ensures var took := fault != BeforeEffect && id in old(sessions) && CanConfirm(old(sessions)[id], candidate);
              && raised == (!took || fault == AfterEffect)
              && sessions == (if took then old(sessions)[id := Confirmed(old(sessions)[id], candidate)] else old(sessions))
              && (took && old(sessions)[id].lastSwitch.Some? ==>
                    && sessions[id].lastSwitch.Some?
                    && sessions[id].lastSwitch.value > old(sessions)[id].lastSwitch.value + sessions[id].cooldown)
      ensures !raised ==> id in old(sessions) && old(sessions)[id].pending == Some(candidate)
      ensures id in old(sessions) && old(sessions)[id].pending == Some(candidate) && fault != BeforeEffect ==>
                var s := old(sessions)[id];
                && s.pendingSnapshot.Some?
                && sessions[id].active == candidate
                && sessions[id].baseline == s.pendingSnapshot.value.mix && sessions[id].lastSwitch == Some(s.pendingSnapshot.value.sequence)
                && sessions[id].pending == None && sessions[id].pendingSnapshot == None
                && sessions[id].previous == Some(s.active) && sessions[id].previousBaseline == Some(s.baseline)
                && sessions[id].previousLastSwitch == s.lastSwitch && sessions[id].rollbackAvailable
                && sessions[id].lastObserved == s.lastObserved
    {
      if fault == BeforeEffect || id !in sessions {
        return true;
      }
      var s := sessions[id];
      if s.pending.None? || s.pendingSnapshot.None? {
        return true;
      }
      if candidate != s.pending.value {
        return true;
      }
      var snapshot := s.pendingSnapshot.value;
      s := s.(previous := Some(s.active), previousBaseline := Some(s.baseline), previousLastSwitch := s.lastSwitch,
              rollbackAvailable := true);
      s := s.(active := candidate, lastSwitch := Some(snapshot.sequence), baseline := snapshot.mix);
      s := s.(pending := None, pendingSnapshot := None);
      sessions := sessions[id := s];
      return fault == AfterEffect;
    }

    /** `rollback_last_switch` with a non-empty reason */
    method RollBackLast(id: Text, fault: Fault) returns (raised: bool)
      requires Sane()
      modifies this
      ensures Sane()
      ensures var took := fault != BeforeEffect && id in old(sessions) && CanRollBack(old(sessions)[id]);
              && raised == (!took || fault == AfterEffect)
              && sessions == if took then old(sessions)[id := RolledBackSession(old(sessions)[id])] else old(sessions)
      ensures !raised ==> id in old(sessions) && old(sessions)[id].rollbackAvailable && old(sessions)[id].pending == None
      ensures id in old(sessions) && old(sessions)[id].rollbackAvailable && old(sessions)[id].pending == None && fault != BeforeEffect ==>
                var s := old(sessions)[id];
                && s.previous == Some(sessions[id].active) && s.previousBaseline == Some(sessions[id].baseline)
                && sessions[id].lastSwitch == s.previousLastSwitch
                && sessions[id].previous == None && !sessions[id].rollbackAvailable && sessions[id].pending == None
                && sessions[id].lastObserved == s.lastObserved
    {
      if fault == BeforeEffect || id !in sessions {
        return true;
      }
      var s := sessions[id];
      if !s.rollbackAvailable || s.previous.None? {
        return true;
      }
      if s.pending.Some? {
        return true;
      }
      s := s.(active := s.previous.value);
      if s.previousBaseline.Some? {
        s := s.(baseline := s.previousBaseline.value);
      }
      s := s.(lastSwitch := s.previousLastSwitch, previous := None, previousBaseline := None,
              previousLastSwitch := None, rollbackAvailable := false);
      sessions := sessions[id := s];
      return fault == AfterEffect;
    }

    /** `abort_pending` */
    method AbortPending(id: Text) returns (raised: bool)
      requires Sane()
      modifies this
      ensures Sane()
      ensures raised <==> id !in old(sessions)
      ensures sessions == if raised then old(sessions) else old(sessions)[id := PendingDropped(old(sessions)[id])]
      ensures !raised ==>
                && sessions[id].pending == None && sessions[id].pendingSnapshot == None
                && sessions[id].active == old(sessions)[id].active && sessions[id].lastObserved == old(sessions)[id].lastObserved
    {
      if id !in sessions {
        return true;
      }
      sessions := sessions[id := sessions[id].(pending := None, pendingSnapshot := None)];
      return false;
    }
  }

  function PendingDropped(s: Session): Session {
    s.(pending := None, pendingSnapshot := None)
  }

  // ---- migrations ----

  datatype MigrationState = Planned | ShadowBuilt | Verified | Committed | RolledBack | Aborted

  datatype Migration = Migration(
    session: Text,
    source: Text,
    target: Text,
    state: MigrationState,
    artifact: Option<Text>,
    manifest: Option<Text>,
    compileVerified: bool,
    correctnessVerified: bool)

  type Migrations = map<Text, Migration>

  /** Endpoints differ, and no state past verification is reached without both proofs. */
  predicate SaneMigration(m: Migration) {
    && m.source != m.target
    && (m.state == ShadowBuilt ==> m.artifact.Some?)
    && (m.state == Verified || m.state == Committed || m.state == RolledBack ==>
          m.compileVerified && m.correctnessVerified && m.artifact.Some? && m.manifest.Some?)
  }

  /** What `plan` asks for. */
  predicate CanPlan(t: Migrations, id: Text, session: Text, source: Text, target: Text) {
    1 <= |id| <= 128 && session != [] && source != [] && target != [] && source != target && id !in t
  }

  function NewMigration(session: Text, source: Text, target: Text): Migration {
    Migration(session, source, target, Planned, None, None, false, false)
  }

  /** A migration can be aborted until it is committed, and for a reason. */
  predicate CanAbort(m: Migration, reason: Text) {
    m.state != Committed && m.state != RolledBack && m.state != Aborted && reason != []
  }

  class MigrationController {
    var records: Migrations

    ghost predicate Sane()
      reads this
    {
      forall id :: id in records ==> SaneMigration(records[id])
    }

    constructor ()
      ensures records == map[] && Sane()
    {
      records := map[];
    }

    /** `plan` */
    method Plan(id: Text, session: Text, source: Text, target: Text) returns (raised: bool)
      requires Sane()
      modifies this
      ensures Sane()
      ensures raised <==> !(1 <= |id| <= 128 && session != [] && source != [] && target != [] && source != target && id !in old(records))
      ensures !raised ==> id in records && records[id] == Migration(session, source, target, Planned, None, None, false, false)
      ensures records == if raised then old(records) else old(records)[id := NewMigration(session, source, target)]
    {
      if id == [] || |id| > 128 || session == [] || source == [] || target == [] || source == target || id in records {
        return true;
      }
      records := records[id := Migration(session, source, target, Planned, None, None, false, false)];
      return false;
    }

    /** `shadow_built` */
    method RecordShadow(id: Text, artifact: Text) returns (raised: bool)
      requires Sane()
      modifies this
      ensures Sane()
      ensures raised <==> !(id in old(records) && old(records)[id].state == Planned && IsHex64(Lower(artifact)))
      ensures records == if raised then old(records)
                         else old(records)[id := old(records)[id].(artifact := Some(Lower(artifact)), state := ShadowBuilt)]
    {
      if id !in records || records[id].state != Planned || !IsHex64(Lower(artifact)) {
        return true;
      }
      records := records[id := records[id].(artifact := Some(Lower(artifact)), state := ShadowBuilt)];
      return false;
    }

    /** `verify`: a failed proof is recorded but leaves the state where it is. */
    method RecordVerification(id: Text, compiles: bool, correct: bool, manifest: Text) returns (raised: bool)
      requires Sane()
      modifies this
      ensures Sane()
      ensures raised <==> !(id in old(records) && old(records)[id].state == ShadowBuilt && IsHex64(Lower(manifest)))
      ensures records == if raised then old(records)
                         else old(records)[id := old(records)[id].(compileVerified := compiles, correctnessVerified := correct,
                                                                   manifest := Some(Lower(manifest)),
                                                                   state := if compiles && correct then Verified else ShadowBuilt)]
    {
      if id !in records || records[id].state != ShadowBuilt || !IsHex64(Lower(manifest)) {
        return true;
      }
      var m := records[id].(compileVerified := compiles, correctnessVerified := correct, manifest := Some(Lower(manifest)));
      if compiles && correct {
        m := m.(state := Verified);
      }
      records := records[id := m];
      return false;
    }

    /** `commit` */
    method Commit(id: Text, fault: Fault) returns (raised: bool)
      requires Sane()
      modifies this
      ensures Sane()
      ensures var took := fault != BeforeEffect && id in old(records) && old(records)[id].state == Verified;
              && raised == (!took || fault == AfterEffect)
              && records == if took then old(records)[id := old(records)[id].(state := Committed)] else old(records)
    {
      if fault == BeforeEffect || id !in records || records[id].state != Verified {
        return true;
      }
      if !records[id].compileVerified || !records[id].correctnessVerified {
        return true;
      }
      records := records[id := records[id].(state := Committed)];
      return fault == AfterEffect;
    }

    /** `rollback` with a non-empty reason */
    method RollBack(id: Text, fault: Fault) returns (raised: bool)
      requires Sane()
      modifies this
      ensures Sane()
      ensures var took := fault != BeforeEffect && id in old(records) && old(records)[id].state == Committed;
              && raised == (!took || fault == AfterEffect)
              && records == if took then old(records)[id := old(records)[id].(state := RolledBack)] else old(records)
    {
      if fault == BeforeEffect || id !in records || records[id].state != Committed {
        return true;
      }
      records := records[id := records[id].(state := RolledBack)];
      return fault == AfterEffect;
    }

    /** `abort` */
    method Abort(id: Text, reason: Text) returns (raised: bool)
      requires Sane()
      modifies this
      ensures Sane()
      ensures raised <==> !(id in old(records) && old(records)[id].state in {Planned, ShadowBuilt, Verified} && reason != [])
      ensures records == if raised then old(records) else old(records)[id := old(records)[id].(state := Aborted)]
    {
      if id !in records || records[id].state == Committed || records[id].state == RolledBack || records[id].state == Aborted {
        return true;
      }
      if reason == [] {
        return true;
      }
      records := records[id := records[id].(state := Aborted)];
      return false;
    }
  }
}
