/** The versioned artifact router: shadow stage, activation by reference swap, abort,
    and rollback that pops the committed version under a new generation. */
module Router {
  import opened Wrappers
  import opened Text

  type Metadata = map<Text, Text>

  datatype Version = Version(
    generation: int,
    candidate: Text,
    artifact: Text,
    manifest: Option<Text>,
    metadata: Metadata)

  datatype Event =
    | Bootstrapped(generation: int, candidate: Text, artifact: Text)
    | Staged(generation: int, candidate: Text, artifact: Text, manifest: Text)
    | Activated(source: Text, target: Text, generation: int)
    | Aborted(candidate: Text, reason: Text)
    | RolledBack(source: Text, target: Text, generation: int, reason: Text)

  datatype Deployment = Deployment(
    active: Version,
    staged: Option<Version>,
    stack: seq<Version>,
    history: seq<Event>)

  type Table = map<Text, Deployment>

  datatype RouterError =
    | BadDeploymentId | BadCandidateId | BadDigest | AlreadyExists | UnknownDeployment
    | SameCandidate | AlreadyStaged | ActiveChanged | NothingStaged | WrongTarget
    | MissingReason | NothingToRollBack

  datatype ReadLease = ReadLease(deployment: Text, version: Version)

  predicate IsShortId(s: Text) {
    1 <= |s| <= 128
  }

  // ---- what each operation does to one deployment ----

  function Bootstrap(candidate: Text, artifact: Text, manifest: Option<Text>, metadata: Metadata): Deployment {
    Deployment(Version(1, candidate, artifact, manifest, metadata), None, [],
               [Bootstrapped(1, candidate, artifact)])
  }

  function Stage(d: Deployment, candidate: Text, artifact: Text, manifest: Text, metadata: Metadata): Deployment {
    var v := Version(d.active.generation + 1, candidate, artifact, Some(manifest), metadata);
    d.(staged := Some(v), history := d.history + [Staged(v.generation, candidate, artifact, manifest)])
  }

  function Activate(d: Deployment): Deployment
    requires d.staged.Some?
  {
    var next := d.staged.value;
    d.(active := next, staged := None, stack := d.stack + [d.active],
       history := d.history + [Activated(d.active.candidate, next.candidate, next.generation)])
  }

  function Abort(d: Deployment, reason: Text): Deployment
    requires d.staged.Some?
  {
    d.(staged := None, history := d.history + [Aborted(d.staged.value.candidate, reason)])
  }

  function Rollback(d: Deployment, reason: Text): Deployment
    requires d.stack != []
  {
    var restored := d.stack[|d.stack| - 1].(generation := d.active.generation + 1);
    d.(active := restored, staged := None, stack := d.stack[..|d.stack| - 1],
       history := d.history + [RolledBack(d.active.candidate, restored.candidate, restored.generation, reason)])
  }

  // ---- operations on the router, with the checks in the order the code makes them ----

  datatype Op =
    | BootstrapOp(candidate: Text, artifact: Text, manifest: Option<Text>, metadata: Metadata)
    | StageOp(candidate: Text, artifact: Text, verified: Text, metadata: Metadata)
    | ActivateOp(source: Text, target: Text)
    | AbortOp(reason: Text)
    | RollbackOp(reason: Text)

  function Apply(t: Table, id: Text, op: Op): Result<Deployment, RouterError> {
    match op
    case BootstrapOp(candidate, artifact, manifest, metadata) =>
      if !IsShortId(id) then Failure(BadDeploymentId)
      else if !IsShortId(candidate) then Failure(BadCandidateId)
      else if LoweredDigest(artifact).None? then Failure(BadDigest)
      else if manifest.Some? && LoweredDigest(manifest.value).None? then Failure(BadDigest)
      else if id in t then Failure(AlreadyExists)
      else Success(Bootstrap(candidate, LoweredDigest(artifact).value,
                             if manifest.Some? then LoweredDigest(manifest.value) else None, metadata))
    case StageOp(candidate, artifact, manifest, metadata) =>
      if LoweredDigest(artifact).None? || LoweredDigest(manifest).None? then Failure(BadDigest)
      else if !IsShortId(candidate) then Failure(BadCandidateId)
      else if id !in t then Failure(UnknownDeployment)
      else if candidate == t[id].active.candidate then Failure(SameCandidate)
      else if t[id].staged.Some? then Failure(AlreadyStaged)
      else Success(Stage(t[id], candidate, LoweredDigest(artifact).value, LoweredDigest(manifest).value, metadata))
    case ActivateOp(source, target) =>
      if id !in t then Failure(UnknownDeployment)
      else if t[id].active.candidate != source then Failure(ActiveChanged)
      else if t[id].staged.None? then Failure(NothingStaged)
      else if t[id].staged.value.candidate != target then Failure(WrongTarget)
      else Success(Activate(t[id]))
    case AbortOp(reason) =>
      if reason == [] then Failure(MissingReason)
      else if id !in t then Failure(UnknownDeployment)
      else if t[id].staged.None? then Failure(NothingStaged)
      else Success(Abort(t[id], reason))
    case RollbackOp(reason) =>
      if reason == [] then Failure(MissingReason)
      else if id !in t then Failure(UnknownDeployment)
      else if t[id].stack == [] then Failure(NothingToRollBack)
      else Success(Rollback(t[id], reason))
  }

  /** The table after an operation; a raised error changes nothing. */
  function After(t: Table, id: Text, op: Op): Table {
    var r := Apply(t, id, op);
    if r.Success? then t[id := r.value] else t
  }

  /** The version carries exactly this. */
  predicate Shows(v: Version, generation: int, candidate: Text, artifact: Option<Text>, manifest: Option<Text>, metadata: Metadata) {
    v.generation == generation && v.candidate == candidate && Some(v.artifact) == artifact && v.manifest == manifest && v.metadata == metadata
  }

  /** `VersionedArtifactRouter`: every method meets the table specification above. */
  class VersionedArtifactRouter {
    var deployments: Table

    constructor ()
      ensures deployments == map[]
    {
      deployments := map[];
    }

    method BootstrapDeployment(id: Text, candidate: Text, artifact: Text, manifest: Option<Text>, metadata: Metadata)
      returns (res: Result<Deployment, RouterError>)
      modifies this
      ensures res == Apply(old(deployments), id, BootstrapOp(candidate, artifact, manifest, metadata))
      ensures deployments == After(old(deployments), id, BootstrapOp(candidate, artifact, manifest, metadata))
      ensures res.Success? <==>
                && 1 <= |id| <= 128 && 1 <= |candidate| <= 128 && id !in old(deployments)
                && LoweredDigest(artifact).Some? && (manifest.Some? ==> LoweredDigest(manifest.value).Some?)
      ensures res.Failure? ==> deployments == old(deployments)
      ensures res.Success? ==>
                && deployments == old(deployments)[id := res.value]
                && Shows(res.value.active, 1, candidate, LoweredDigest(artifact),
                         if manifest.Some? then LoweredDigest(manifest.value) else None, metadata)
                && res.value.staged == None && res.value.stack == []
    {
      if !IsShortId(id) {
        return Failure(BadDeploymentId);
      }
      if !IsShortId(candidate) {
        return Failure(BadCandidateId);
      }
      var normalArtifact := LoweredDigest(artifact);
      if normalArtifact.None? {
        return Failure(BadDigest);
      }
      var normalManifest := None;
      if manifest.Some? {
        normalManifest := LoweredDigest(manifest.value);
        if normalManifest.None? {
          return Failure(BadDigest);
        }
      }
      if id in deployments {
        return Failure(AlreadyExists);
      }
      var version := Version(1, candidate, normalArtifact.value, normalManifest, metadata);
      var deployment := Deployment(version, None, [], []);
      deployment := deployment.(history := deployment.history + [Bootstrapped(1, candidate, version.artifact)]);
      assert deployment.history == [Bootstrapped(1, candidate, version.artifact)];
      deployments := deployments[id := deployment];
      return Success(deployment);
    }

    method StageVersion(id: Text, candidate: Text, artifact: Text, manifest: Text, metadata: Metadata)
      returns (res: Result<Deployment, RouterError>)
      modifies this
      ensures res == Apply(old(deployments), id, StageOp(candidate, artifact, manifest, metadata))
      ensures deployments == After(old(deployments), id, StageOp(candidate, artifact, manifest, metadata))
      ensures res.Success? <==>
                && id in old(deployments) && 1 <= |candidate| <= 128 && old(deployments)[id].active.candidate != candidate
                && old(deployments)[id].staged == None && LoweredDigest(artifact).Some? && LoweredDigest(manifest).Some?
      ensures res.Failure? ==> deployments == old(deployments)
      ensures res.Success? ==>
                && deployments == old(deployments)[id := res.value]
                && res.value.staged.Some?
                && Shows(res.value.staged.value, old(deployments)[id].active.generation + 1, candidate,
                         LoweredDigest(artifact), LoweredDigest(manifest), metadata)
                && res.value.active == old(deployments)[id].active && res.value.stack == old(deployments)[id].stack
    {
      var normalArtifact, normalManifest := LoweredDigest(artifact), LoweredDigest(manifest);
      if normalArtifact.None? || normalManifest.None? {
        return Failure(BadDigest);
      }
      if !IsShortId(candidate) {
        return Failure(BadCandidateId);
      }
      if id !in deployments {
        return Failure(UnknownDeployment);
      }
      var deployment := deployments[id];
      if candidate == deployment.active.candidate {
        return Failure(SameCandidate);
      }
      if deployment.staged.Some? {
        return Failure(AlreadyStaged);
      }
      var version := Version(deployment.active.generation + 1, candidate, normalArtifact.value, normalManifest, metadata);
      deployment := deployment.(staged := Some(version));
      deployment := deployment.(history := deployment.history +
                                  [Staged(version.generation, candidate, version.artifact, normalManifest.value)]);
      deployments := deployments[id := deployment];
      return Success(deployment);
    }

    method ActivateStaged(id: Text, source: Text, target: Text) returns (res: Result<Deployment, RouterError>)
      modifies this
      ensures res == Apply(old(deployments), id, ActivateOp(source, target))
      ensures deployments == After(old(deployments), id, ActivateOp(source, target))
      ensures res.Success? <==>
                && id in old(deployments) && old(deployments)[id].active.candidate == source
                && old(deployments)[id].staged.Some? && old(deployments)[id].staged.value.candidate == target
      ensures res.Failure? ==> deployments == old(deployments)
      ensures res.Success? ==>
                && deployments == old(deployments)[id := res.value]
                && Some(res.value.active) == old(deployments)[id].staged && res.value.staged == None
                && res.value.stack == old(deployments)[id].stack + [old(deployments)[id].active]
    {
      if id !in deployments {
        return Failure(UnknownDeployment);
      }
      var deployment := deployments[id];
      if deployment.active.candidate != source {
        return Failure(ActiveChanged);
      }
      if deployment.staged.None? {
        return Failure(NothingStaged);
      }
      if deployment.staged.value.candidate != target {
        return Failure(WrongTarget);
      }
      var previous, replacement := deployment.active, deployment.staged.value;
      deployment := deployment.(stack := deployment.stack + [previous]);
      deployment := deployment.(active := replacement, staged := None);
      deployment := deployment.(history := deployment.history +
                                  [Activated(previous.candidate, replacement.candidate, replacement.generation)]);
      deployments := deployments[id := deployment];
      return Success(deployment);
    }

    method AbortStaged(id: Text, reason: Text) returns (res: Result<Deployment, RouterError>)
      modifies this
      ensures res == Apply(old(deployments), id, AbortOp(reason))
      ensures deployments == After(old(deployments), id, AbortOp(reason))
      ensures res.Success? <==> |reason| > 0 && id in old(deployments) && old(deployments)[id].staged.Some?
      ensures res.Failure? ==> deployments == old(deployments)
      ensures res.Success? ==>
                && deployments == old(deployments)[id := res.value]
                && res.value.staged == None
                && res.value.active == old(deployments)[id].active && res.value.stack == old(deployments)[id].stack
    {
      if reason == [] {
        return Failure(MissingReason);
      }
      if id !in deployments {
        return Failure(UnknownDeployment);
      }
      var deployment := deployments[id];
      if deployment.staged.None? {
        return Failure(NothingStaged);
      }
      var candidate := deployment.staged.value.candidate;
      deployment := deployment.(staged := None, history := deployment.history + [Aborted(candidate, reason)]);
      deployments := deployments[id := deployment];
      return Success(deployment);
    }

    method RollbackActive(id: Text, reason: Text) returns (res: Result<Deployment, RouterError>)
      modifies this
      ensures res == Apply(old(deployments), id, RollbackOp(reason))
      ensures deployments == After(old(deployments), id, RollbackOp(reason))
      ensures res.Success? <==> |reason| > 0 && id in old(deployments) && |old(deployments)[id].stack| > 0
      ensures res.Failure? ==> deployments == old(deployments)
      ensures res.Success? ==>
                && deployments == old(deployments)[id := res.value]
                && var d := old(deployments)[id];
                   && res.value.staged == None && res.value.stack == d.stack[..|d.stack| - 1]
                   && var top := d.stack[|d.stack| - 1];
                      Shows(res.value.active, d.active.generation + 1, top.candidate, Some(top.artifact), top.manifest, top.metadata)
    {
      if reason == [] {
        return Failure(MissingReason);
      }
      if id !in deployments {
        return Failure(UnknownDeployment);
      }
      var deployment := deployments[id];
      if deployment.stack == [] {
        return Failure(NothingToRollBack);
      }
      var current, previous := deployment.active, deployment.stack[|deployment.stack| - 1];
      deployment := deployment.(stack := deployment.stack[..|deployment.stack| - 1]);
      var restored := Version(current.generation + 1, previous.candidate, previous.artifact, previous.manifest, previous.metadata);
      deployment := deployment.(active := restored, staged := None);
      deployment := deployment.(history := deployment.history +
                                  [RolledBack(current.candidate, restored.candidate, restored.generation, reason)]);
      deployments := deployments[id := deployment];
      return Success(deployment);
    }

    method Lease(id: Text) returns (res: Result<ReadLease, RouterError>)
      ensures res == if id in deployments then Success(ReadLease(id, deployments[id].active)) else Failure(UnknownDeployment)
    {
      if id !in deployments {
        return Failure(UnknownDeployment);
      }
      return Success(ReadLease(id, deployments[id].active));
    }

    method Reset()
      modifies this
      ensures deployments == map[]
    {
      deployments := map[];
    }

    /** `list()`: the deployments in key order. */
    method List() returns (views: seq<View>)
      ensures views == Listing(deployments)
    {
      var ids := SortIds(deployments.Keys);
      views := [];
      var i := 0;
      while i < |ids|
        invariant i <= |ids|
        invariant views == ViewsOf(ids[..i], deployments)
      {
        assert ids[i] in ids;
        NextView(ids, i, deployments);
        views := views + [(ids[i], deployments[ids[i]])];
        i := i + 1;
      }
      assert ids[..i] == ids;
    }
  }

  type View = (Text, Deployment)

  /** The views of the listed deployments that exist. */
  function ViewsOf(ids: seq<Text>, t: Table): seq<View> {
    if ids == [] then []
    else
      var last := ids[|ids| - 1];
      ViewsOf(ids[..|ids| - 1], t) + if last in t then [(last, t[last])] else []
  }

  lemma NextView(ids: seq<Text>, i: nat, t: Table)
    requires i < |ids| && ids[i] in t
    ensures ViewsOf(ids[..i + 1], t) == ViewsOf(ids[..i], t) + [(ids[i], t[ids[i]])]
  {
    assert ids[..i + 1][..i] == ids[..i];
  }

  ghost function Listing(t: Table): seq<View> {
    ViewsOf(SortedIds(t.Keys), t)
  }

  lemma {:induction false} ViewsOfAll(ids: seq<Text>, t: Table)
    requires forall id :: id in ids ==> id in t
    ensures |ViewsOf(ids, t)| == |ids|
    ensures forall i :: 0 <= i < |ids| ==> ids[i] in t && ViewsOf(ids, t)[i] == (ids[i], t[ids[i]])
  {
    if ids != [] {
      ViewsOfAll(ids[..|ids| - 1], t);
      assert ids[|ids| - 1] in ids;
    }
  }

  /** The listing holds every deployment once, in key order. */
  lemma ListingComplete(t: Table)
    ensures var views := Listing(t);
            && |views| == |t|
            && (forall i :: 0 <= i < |views| ==> views[i].0 in t && views[i].1 == t[views[i].0])
            && (forall i, j :: 0 <= i < j < |views| ==> Less(views[i].0, views[j].0))
            && (forall id :: id in t ==> exists i :: 0 <= i < |views| && views[i].0 == id)
  {
    var ids := SortedIds(t.Keys);
    ViewsOfAll(ids, t);
    assert |t.Keys| == |t|;
    forall id | id in t ensures exists i :: 0 <= i < |ids| && ids[i] == id && Listing(t)[i].0 == id {
      assert id in ids;
    }
  }
}
