/** What every run of the router keeps: the counting invariant, a history that rebuilds
    the state, undo by rollback, and leases identified by their generation. */
module RouterRuns {
  import opened Wrappers
  import opened Text
  import opened Router

  // ---- counting and replaying the history ----

  function Activations(h: seq<Event>): nat {
    if h == [] then 0 else Activations(h[..|h| - 1]) + if h[|h| - 1].Activated? then 1 else 0
  }

  function Rollbacks(h: seq<Event>): nat {
    if h == [] then 0 else Rollbacks(h[..|h| - 1]) + if h[|h| - 1].RolledBack? then 1 else 0
  }

  datatype Identity = Identity(generation: int, candidate: Text, artifact: Text)

  datatype Replayed = Replayed(active: Identity, staged: Option<Identity>, stack: seq<Identity>)

  function IdentityOf(v: Version): Identity {
    Identity(v.generation, v.candidate, v.artifact)
  }

  function Identities(vs: seq<Version>): seq<Identity> {
    seq(|vs|, i requires 0 <= i < |vs| => IdentityOf(vs[i]))
  }

  /** Reading the history list alone. */
  function Replay(h: seq<Event>): Replayed {
    if h == [] then Replayed(Identity(0, [], []), None, [])
    else
      var before := Replay(h[..|h| - 1]);
      match h[|h| - 1]
      case Bootstrapped(generation, candidate, artifact) =>
        Replayed(Identity(generation, candidate, artifact), None, [])
      case Staged(generation, candidate, artifact, _) =>
        before.(staged := Some(Identity(generation, candidate, artifact)))
      case Activated(_, _, _) =>
        if before.staged.None? then before
        else Replayed(before.staged.value, None, before.stack + [before.active])
      case Aborted(_, _) => before.(staged := None)
      case RolledBack(_, _, generation, _) =>
        if before.stack == [] then before
        else
          var top := before.stack[|before.stack| - 1];
          Replayed(top.(generation := generation), None, before.stack[..|before.stack| - 1])
  }

  // ---- the invariant of one deployment ----

  /** The version above the i-th stacked one: the next on the stack, or the active one. */
  function Above(d: Deployment, i: nat): Version
    requires i < |d.stack|
  {
    if i + 1 < |d.stack| then d.stack[i + 1] else d.active
  }

  predicate NormalVersion(v: Version) {
    && v.generation >= 1
    && IsShortId(v.candidate)
    && IsHex64(v.artifact)
    && (v.manifest.Some? ==> IsHex64(v.manifest.value))
  }

  predicate Counted(d: Deployment) {
    && d.active.generation == 1 + Activations(d.history) + Rollbacks(d.history)
    && |d.stack| == Activations(d.history) - Rollbacks(d.history)
  }

  ghost predicate StackClimbs(d: Deployment) {
    && (forall i :: 0 <= i < |d.stack| ==> d.stack[i].generation < Above(d, i).generation)
    && (forall i :: 0 <= i < |d.stack| ==> d.stack[i].candidate != Above(d, i).candidate)
  }

  predicate StagedNext(d: Deployment) {
    d.staged.Some? ==>
      && d.staged.value.generation == d.active.generation + 1
      && d.staged.value.candidate != d.active.candidate
      && d.staged.value.manifest.Some?
      && NormalVersion(d.staged.value)
  }

  ghost predicate AllNormal(d: Deployment) {
    NormalVersion(d.active) && forall i :: 0 <= i < |d.stack| ==> NormalVersion(d.stack[i])
  }

  predicate HistoryTells(d: Deployment) {
    Replay(d.history) ==
      Replayed(IdentityOf(d.active), if d.staged.Some? then Some(IdentityOf(d.staged.value)) else None, Identities(d.stack))
  }

  ghost predicate WellFormed(d: Deployment) {
    Counted(d) && StackClimbs(d) && StagedNext(d) && AllNormal(d) && HistoryTells(d)
  }

  lemma CountsAppended(h: seq<Event>, e: Event)
    ensures Activations(h + [e]) == Activations(h) + if e.Activated? then 1 else 0
    ensures Rollbacks(h + [e]) == Rollbacks(h) + if e.RolledBack? then 1 else 0
  {
    assert (h + [e])[..|h|] == h;
  }

  lemma BootstrapWellFormed(candidate: Text, artifact: Text, manifest: Option<Text>, metadata: Metadata)
    requires IsShortId(candidate) && IsHex64(artifact) && (manifest.Some? ==> IsHex64(manifest.value))
    ensures WellFormed(Bootstrap(candidate, artifact, manifest, metadata))
  {
    CountsAppended([], Bootstrapped(1, candidate, artifact));
    assert [] + [Bootstrapped(1, candidate, artifact)] == [Bootstrapped(1, candidate, artifact)];
  }

  lemma StageKeeps(d: Deployment, candidate: Text, artifact: Text, manifest: Text, metadata: Metadata)
    requires WellFormed(d) && d.staged.None? && candidate != d.active.candidate
    requires IsShortId(candidate) && IsHex64(artifact) && IsHex64(manifest)
    ensures WellFormed(Stage(d, candidate, artifact, manifest, metadata))
  {
    var e := Staged(d.active.generation + 1, candidate, artifact, manifest);
    CountsAppended(d.history, e);
    assert (d.history + [e])[..|d.history|] == d.history;
  }

  lemma ActivateKeeps(d: Deployment)
    requires WellFormed(d) && d.staged.Some?
    ensures WellFormed(Activate(d))
  {
    var next := d.staged.value;
    var e := Activated(d.active.candidate, next.candidate, next.generation);
    CountsAppended(d.history, e);
    assert (d.history + [e])[..|d.history|] == d.history;
    var after := Activate(d);
    forall i | 0 <= i < |after.stack|
      ensures after.stack[i].generation < Above(after, i).generation && after.stack[i].candidate != Above(after, i).candidate
    {
      if i < |d.stack| { assert Above(after, i) == Above(d, i); }
    }
    assert Identities(after.stack) == Identities(d.stack) + [IdentityOf(d.active)];
  }

  lemma AbortKeeps(d: Deployment, reason: Text)
    requires WellFormed(d) && d.staged.Some?
    ensures WellFormed(Abort(d, reason))
  {
    var e := Aborted(d.staged.value.candidate, reason);
    CountsAppended(d.history, e);
    assert (d.history + [e])[..|d.history|] == d.history;
  }

  lemma RollbackKeeps(d: Deployment, reason: Text)
    requires WellFormed(d) && d.stack != []
    ensures WellFormed(Rollback(d, reason))
  {
    var after := Rollback(d, reason);
    var e := after.history[|d.history|];
    CountsAppended(d.history, e);
    RollbackClimbs(d, reason);
    RollbackTells(d, reason);
    assert NormalVersion(d.stack[|d.stack| - 1]) && NormalVersion(d.active);
  }

  lemma RollbackClimbs(d: Deployment, reason: Text)
    requires StackClimbs(d) && d.stack != []
    ensures StackClimbs(Rollback(d, reason))
  {
    var after := Rollback(d, reason);
    forall i | 0 <= i < |after.stack|
      ensures after.stack[i].generation < Above(after, i).generation && after.stack[i].candidate != Above(after, i).candidate
    {
      assert d.stack[i].candidate != Above(d, i).candidate;
      assert d.stack[i].generation < Above(d, i).generation;
      if i + 1 < |after.stack| {
        assert Above(after, i) == Above(d, i);
      } else {
        GenerationsClimb(d, i);
      }
    }
  }

  lemma RollbackTells(d: Deployment, reason: Text)
    requires HistoryTells(d) && d.stack != []
    ensures HistoryTells(Rollback(d, reason))
  {
    var after := Rollback(d, reason);
    assert after.history[..|d.history|] == d.history;
    assert Identities(after.stack) == Identities(d.stack)[..|d.stack| - 1];
  }

  /** Every stacked generation lies below the active one. */
  lemma {:induction false} GenerationsClimb(d: Deployment, i: nat)
    requires StackClimbs(d) && i < |d.stack|
    ensures d.stack[i].generation < d.active.generation
    decreases |d.stack| - i
  {
    assert d.stack[i].generation < Above(d, i).generation;
    if i + 1 < |d.stack| {
      GenerationsClimb(d, i + 1);
    }
  }

  // ---- runs ----

  /** What can be asked of the router between two leases. */
  datatype Call = Call(id: Text, op: Op) | ResetAll

  function Do(t: Table, call: Call): Table {
    match call
    case Call(id, op) => After(t, id, op)
    case ResetAll => map[]
  }

  function RunFrom(t: Table, calls: seq<Call>): Table {
    if calls == [] then t
    else Do(RunFrom(t, calls[..|calls| - 1]), calls[|calls| - 1])
  }

  ghost predicate TableWellFormed(t: Table) {
    forall id :: id in t ==> IsShortId(id) && WellFormed(t[id])
  }

  lemma DigestIsHex(s: Text)
    ensures LoweredDigest(s).Some? ==> IsHex64(LoweredDigest(s).value)
  {
  }

  lemma ApplyWellFormed(t: Table, id: Text, op: Op)
    requires TableWellFormed(t)
    ensures Apply(t, id, op).Success? ==> IsShortId(id) && WellFormed(Apply(t, id, op).value)
  {
    if Apply(t, id, op).Success? {
      match op
      case BootstrapOp(candidate, artifact, manifest, metadata) =>
        BootstrapWellFormed(candidate, LoweredDigest(artifact).value,
                            if manifest.Some? then LoweredDigest(manifest.value) else None, metadata);
      case StageOp(candidate, artifact, manifest, metadata) =>
        StageKeeps(t[id], candidate, LoweredDigest(artifact).value, LoweredDigest(manifest).value, metadata);
      case ActivateOp(_, _) => ActivateKeeps(t[id]);
      case AbortOp(reason) => AbortKeeps(t[id], reason);
      case RollbackOp(reason) => RollbackKeeps(t[id], reason);
    }
  }

  /** Every table any run can reach is well formed: generation = 1 + activations +
      rollbacks, depth = activations - rollbacks, generations climb strictly, neighbours
      differ, and the history rebuilds active identity, staged candidate and stack. */
  lemma {:induction false} RunsWellFormed(t: Table, calls: seq<Call>)
    requires TableWellFormed(t)
    ensures TableWellFormed(RunFrom(t, calls))
  {
    if calls != [] {
      var last := calls[|calls| - 1];
      var before := RunFrom(t, calls[..|calls| - 1]);
      RunsWellFormed(t, calls[..|calls| - 1]);
      if last.Call? { ApplyWellFormed(before, last.id, last.op); }
    }
  }

  // ---- undo ----

  /** The same candidate, artifact, manifest and metadata; the generation may differ. */
  predicate SameContent(a: Version, b: Version) {
    a.(generation := b.generation) == b
  }

  /** Where a run stands relative to the depth it started from: nothing below that depth
      has moved, and the version that was active then is next in line to come back. */
  predicate Excursion(start: Deployment, d: Deployment) {
    && |d.stack| >= |start.stack|
    && d.stack[..|start.stack|] == start.stack
    && (if |d.stack| == |start.stack| then SameContent(d.active, start.active)
        else SameContent(d.stack[|start.stack|], start.active))
    && d.active.generation >= start.active.generation
    && (d.active.generation == start.active.generation ==> d.active == start.active)
  }

  lemma ExcursionStep(start: Deployment, t: Table, id: Text, op: Op)
    requires TableWellFormed(t) && id in t && Excursion(start, t[id])
    ensures var d := After(t, id, op)[id];
            |d.stack| >= |start.stack| ==> Excursion(start, d)
  {
    var d := t[id];
    assert WellFormed(d);
    var r := Apply(t, id, op);
    if r.Success? && op.RollbackOp? && |d.stack| > |start.stack| {
      assert r.value.stack[..|start.stack|] == d.stack[..|start.stack|];
    }
  }

  /** The depth of the run never falls below where it started. */
  ghost predicate StaysAbove(t: Table, calls: seq<Call>, id: Text) {
    && id in t
    && forall k :: 0 <= k <= |calls| ==>
         id in RunFrom(t, calls[..k]) && |RunFrom(t, calls[..k])[id].stack| >= |t[id].stack|
  }

  lemma {:induction false} Excursions(t: Table, calls: seq<Call>, id: Text)
    requires TableWellFormed(t) && StaysAbove(t, calls, id)
    ensures id in RunFrom(t, calls) && Excursion(t[id], RunFrom(t, calls)[id])
  {
    var n := |calls|;
    assert calls[..n] == calls;
    if n > 0 {
      var before, last := calls[..n - 1], calls[n - 1];
      forall k | 0 <= k <= n - 1
        ensures id in RunFrom(t, before[..k]) && |RunFrom(t, before[..k])[id].stack| >= |t[id].stack|
      {
        assert before[..k] == calls[..k];
      }
      Excursions(t, before, id);
      RunsWellFormed(t, before);
      if last.Call? && last.id == id {
        ExcursionStep(t[id], RunFrom(t, before), id, last.op);
      }
    }
  }

  /** Undo: a run on a deployment that never drops below its starting depth and comes
      back to it restores the starting stack exactly, and the active candidate, artifact,
      manifest and metadata, with only the generation raised. Well-nested activations and
      rollbacks are such runs; stagings, aborts, refused calls and calls on other
      deployments may be interleaved freely. */
  lemma UndoRestores(t: Table, calls: seq<Call>, id: Text)
    requires TableWellFormed(t) && StaysAbove(t, calls, id)
    requires id in RunFrom(t, calls) && |RunFrom(t, calls)[id].stack| == |t[id].stack|
    ensures var d := RunFrom(t, calls)[id];
            && d.stack == t[id].stack
            && SameContent(d.active, t[id].active)
            && d.active.generation >= t[id].active.generation
  {
    Excursions(t, calls, id);
    var d := RunFrom(t, calls)[id];
    assert d.stack[..|t[id].stack|] == d.stack;
  }

  // ---- leases ----

  lemma ActiveStep(t: Table, id: Text, op: Op)
    requires id in t && StagedNext(t[id])
    ensures var now := After(t, id, op)[id].active;
            && now.generation >= t[id].active.generation
            && (now.generation == t[id].active.generation ==> now == t[id].active)
  {
  }

  ghost predicate ResetFree(calls: seq<Call>) {
    forall i :: 0 <= i < |calls| ==> calls[i].Call?
  }

  /** Whatever but a reset changes the active version raises its generation. */
  lemma {:induction false} GenerationIdentifies(t: Table, calls: seq<Call>, id: Text)
    requires TableWellFormed(t) && id in t && ResetFree(calls)
    ensures id in RunFrom(t, calls)
    ensures var now := RunFrom(t, calls)[id].active;
            && now.generation >= t[id].active.generation
            && (now.generation == t[id].active.generation ==> now == t[id].active)
  {
    if calls != [] {
      var last := calls[|calls| - 1];
      var before := RunFrom(t, calls[..|calls| - 1]);
      GenerationIdentifies(t, calls[..|calls| - 1], id);
      if last.id == id {
        assert StagedNext(before[id]) by { RunsWellFormed(t, calls[..|calls| - 1]); }
        ActiveStep(before, id, last.op);
      }
    }
  }

  lemma {:induction false} RunsCompose(t: Table, a: seq<Call>, b: seq<Call>)
    ensures RunFrom(t, a + b) == RunFrom(RunFrom(t, a), b)
  {
    if b == [] {
      assert a + b == a;
    } else {
      RunsCompose(t, a, b[..|b| - 1]);
      assert (a + b)[..|a + b| - 1] == a + b[..|b| - 1];
    }
  }

  /** Two leases taken on one deployment at any two moments of a run, with no reset in
      between, hold the same version whenever they show the same generation. */
  lemma LeasesIdentifiedByGeneration(t: Table, calls: seq<Call>, i: nat, j: nat, id: Text)
    requires TableWellFormed(t) && i <= j <= |calls| && id in RunFrom(t, calls[..i])
    requires ResetFree(calls[i..j])
    ensures id in RunFrom(t, calls[..j])
    ensures var early, late := RunFrom(t, calls[..i])[id].active, RunFrom(t, calls[..j])[id].active;
            && early.generation <= late.generation
            && (early.generation == late.generation ==> early == late)
  {
    assert calls[..j] == calls[..i] + calls[i..j];
    RunsCompose(t, calls[..i], calls[i..j]);
    RunsWellFormed(t, calls[..i]);
    GenerationIdentifies(RunFrom(t, calls[..i]), calls[i..j], id);
  }

  /** A bootstrap that succeeds on a deployment leased before, under another candidate,
      gives out generation 1 again, so a lease taken at generation 1 now has a different
      namesake; and a reset must have come in between. */
  lemma ResetReusesGenerations(t: Table, calls: seq<Call>, i: nat, j: nat, id: Text)
    requires TableWellFormed(t) && i <= j < |calls| && id in RunFrom(t, calls[..i])
    requires calls[j].Call? && calls[j].id == id && calls[j].op.BootstrapOp?
    requires Apply(RunFrom(t, calls[..j]), id, calls[j].op).Success?
    requires calls[j].op.candidate != RunFrom(t, calls[..i])[id].active.candidate
    ensures !ResetFree(calls[i..j])
    ensures id in RunFrom(t, calls[..j + 1])
    ensures var early, late := RunFrom(t, calls[..i])[id].active, RunFrom(t, calls[..j + 1])[id].active;
            late.generation == 1 && late != early
  {
    if ResetFree(calls[i..j]) {
      LeasesIdentifiedByGeneration(t, calls, i, j, id);
    }
    assert calls[..j + 1][..j] == calls[..j];
  }

  // ---- after a reset any generation can come back with another version ----

  /** Calls that build deployment `id` up to generation `g`, candidates `d` and `c` in
      turn, `c` last. */
  function Climb(id: Text, g: nat, c: Text, d: Text, digest: Text): seq<Call> {
    if g <= 1 then [Call(id, BootstrapOp(c, digest, Some(digest), map[]))]
    else Climb(id, g - 1, d, c, digest) +
         [Call(id, StageOp(c, digest, digest, map[])), Call(id, ActivateOp(d, c))]
  }

  lemma {:induction false} ClimbIsResetFree(id: Text, g: nat, c: Text, d: Text, digest: Text)
    ensures ResetFree(Climb(id, g, c, d, digest))
  {
    if g > 1 {
      ClimbIsResetFree(id, g - 1, d, c, digest);
    }
  }

  lemma {:induction false} ClimbReaches(id: Text, g: nat, c: Text, d: Text, digest: Text)
    requires IsShortId(id) && IsShortId(c) && IsShortId(d) && c != d && g >= 1
    requires LoweredDigest(digest) == Some(digest)
    ensures var t := RunFrom(map[], Climb(id, g, c, d, digest));
            && id in t && t[id].staged.None?
            && t[id].active == Version(g, c, digest, Some(digest), map[])
  {
    if g == 1 {
      assert RunFrom(map[], []) == map[];
    } else {
      var before := Climb(id, g - 1, d, c, digest);
      ClimbReaches(id, g - 1, d, c, digest);
      var stage, activate := Call(id, StageOp(c, digest, digest, map[])), Call(id, ActivateOp(d, c));
      var t := RunFrom(map[], before);
      RunSnoc(map[], before, stage);
      RunSnoc(map[], before + [stage], activate);
      assert before + [stage, activate] == before + [stage] + [activate];
      StagedAndActivated(t, id, c, d, digest);
    }
  }

  lemma RunSnoc(t: Table, calls: seq<Call>, call: Call)
    ensures RunFrom(t, calls + [call]) == Do(RunFrom(t, calls), call)
  {
    assert (calls + [call])[..|calls|] == calls;
  }

  lemma StagedAndActivated(t: Table, id: Text, c: Text, d: Text, digest: Text)
    requires id in t && t[id].staged.None? && t[id].active.candidate == d && c != d
    requires IsShortId(c) && LoweredDigest(digest) == Some(digest)
    ensures var u := After(After(t, id, StageOp(c, digest, digest, map[])), id, ActivateOp(d, c));
            && id in u && u[id].staged.None?
            && u[id].active == Version(t[id].active.generation + 1, c, digest, Some(digest), map[])
  {
  }

  /** A later lease that shows the generation of this version without being it. */
  ghost predicate Confusable(t: Table, id: Text, v: Version) {
    id in t && t[id].active.generation == v.generation && t[id].active != v
  }

  /** From a moment of the run on, some continuation without a reset leads to such a lease. */
  ghost predicate ConfusableFrom(t: Table, calls: seq<Call>, k: nat, more: seq<Call>, id: Text, v: Version) {
    k <= |calls| && ResetFree(more) && Confusable(RunFrom(t, calls[..k] + more), id, v)
  }

  /** The exact condition: a lease is told apart by its generation from every lease taken
      during the rest of a run, or in any reset-free course the run could have taken
      instead, if and only if that run contains no reset. */
  lemma IdentifiedIffNoReset(t: Table, calls: seq<Call>, id: Text)
    requires TableWellFormed(t) && id in t
    ensures ResetFree(calls) <==>
            !exists k: nat, more: seq<Call> :: ConfusableFrom(t, calls, k, more, id, t[id].active)
  {
    var v := t[id].active;
    if k: nat, more: seq<Call> :| ConfusableFrom(t, calls, k, more, id, v) {
      if ResetFree(calls) {
        GenerationIdentifies(t, calls[..k] + more, id);
        assert false;
      }
    }
    if !ResetFree(calls) {
      var k, more := ConfusedAfterReset(t, calls, id);
      assert ConfusableFrom(t, calls, k, more, id, v);
    }
  }

  lemma ConfusedAfterReset(t: Table, calls: seq<Call>, id: Text) returns (k: nat, more: seq<Call>)
    requires TableWellFormed(t) && id in t && !ResetFree(calls)
    ensures ConfusableFrom(t, calls, k, more, id, t[id].active)
  {
    var i :| 0 <= i < |calls| && calls[i].ResetAll?;
    k := i + 1;
    assert calls[..k] == calls[..i] + [calls[i]];
    RunSnoc(t, calls[..i], calls[i]);
    var v := t[id].active;
    assert WellFormed(t[id]) && NormalVersion(v);
    var c := if v.candidate == [97] then [98] else [97];
    HexIsNormal(v.artifact);
    more := Climb(id, v.generation, c, v.candidate, v.artifact);
    ClimbIsResetFree(id, v.generation, c, v.candidate, v.artifact);
    ClimbReaches(id, v.generation, c, v.candidate, v.artifact);
    RunsCompose(t, calls[..k], more);
  }
}
