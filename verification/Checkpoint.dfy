/** Recovery checkpoints of the router: what is captured from a quiescent router, and
    when a recovered router is accepted as showing the same routes. */
module Checkpoint {
  import opened Wrappers
  import opened Text
  import opened Json
  import opened Records
  import opened Router
  import opened RouterRuns

  /** `ActiveRouteIdentity` */
  datatype Route = Route(deployment: Text, candidate: Text, artifact: Text, manifest: Option<Text>, generation: int)

  /** `DataPlaneRecoveryCheckpoint` */
  datatype Checkpoint = Checkpoint(
    schema: Text,
    routes: seq<Route>,
    routeCount: int,
    sha: Text,
    quiescent: bool,
    controlAllowed: bool)

  /** What the gates take from elsewhere: the canonical printer with its parser, the
      digest, the schema names and the key sets, keys in printing order. */
  datatype Format = Format(
    print_: Json -> Bytes,
    parse: Bytes -> Option<Json>,
    sha: Bytes -> Text,
    schema: Text,
    checkpointSchema: Text,
    envelopeKeys: seq<Text>,
    checkpointKeys: seq<Text>,
    contentKeys: seq<Text>,
    routeKeys: seq<Text>)

  predicate HasShape(f: Format) {
    |f.envelopeKeys| == 3 && |f.checkpointKeys| == 6 && |f.contentKeys| == 2 && |f.routeKeys| == 5
  }

  // ---- one route ----

  predicate Readable(r: Route) {
    && NonBlank(r.deployment).Some?
    && NonBlank(r.candidate).Some?
    && FoldedDigest(r.artifact).Some?
    && (r.manifest.Some? ==> FoldedDigest(r.manifest.value).Some?)
    && r.generation >= 1
  }

  /** The checks and normalisations all three gates apply to a route. */
  function Normal(r: Route): Option<Route> {
    if !Readable(r) then None
    else Some(Route(NonBlank(r.deployment).value, NonBlank(r.candidate).value, FoldedDigest(r.artifact).value,
                    if r.manifest.Some? then FoldedDigest(r.manifest.value) else None, r.generation))
  }

  lemma NormalTwice(r: Route)
    requires Normal(r).Some?
    ensures Normal(Normal(r).value) == Normal(r)
  {
    StripIsStripped(r.deployment);
    StripIsStripped(r.candidate);
    HexIsNormal(FoldedDigest(r.artifact).value);
    if r.manifest.Some? {
      HexIsNormal(FoldedDigest(r.manifest.value).value);
    }
  }

  function NormalAll(rs: seq<Route>): (n: Option<seq<Route>>)
    ensures n.Some? ==> |n.value| == |rs|
  {
    if rs == [] then Some([])
    else
      var before, last := NormalAll(rs[..|rs| - 1]), Normal(rs[|rs| - 1]);
      if before.None? || last.None? then None else Some(before.value + [last.value])
  }

  lemma {:induction false} NormalAllAt(rs: seq<Route>)
    ensures NormalAll(rs).Some? <==> forall i :: 0 <= i < |rs| ==> Normal(rs[i]).Some?
    ensures NormalAll(rs).Some? ==> forall i :: 0 <= i < |rs| ==> Normal(rs[i]) == Some(NormalAll(rs).value[i])
  {
    if rs != [] {
      NormalAllAt(rs[..|rs| - 1]);
      assert forall i :: 0 <= i < |rs| - 1 ==> rs[..|rs| - 1][i] == rs[i];
    }
  }

  function Ids(rs: seq<Route>): (ids: seq<Text>)
    ensures |ids| == |rs| && forall i :: 0 <= i < |rs| ==> ids[i] == rs[i].deployment
  {
    seq(|rs|, i requires 0 <= i < |rs| => rs[i].deployment)
  }

  function RouteJson(f: Format, r: Route): Json
    requires HasShape(f)
  {
    Record(f.routeKeys, [Str(r.artifact), Str(r.candidate), Str(r.deployment), Int(r.generation),
                         if r.manifest.Some? then Str(r.manifest.value) else Null])
  }

  function RouteJsons(f: Format, rs: seq<Route>): (items: seq<Json>)
    requires HasShape(f)
    ensures |items| == |rs| && forall i :: 0 <= i < |rs| ==> items[i] == RouteJson(f, rs[i])
  {
    seq(|rs|, i requires 0 <= i < |rs| => RouteJson(f, rs[i]))
  }

  /** What is hashed: the schema and the routes. */
  function ContentBytes(f: Format, rs: seq<Route>): Bytes
    requires HasShape(f)
  {
    f.print_(Record(f.contentKeys, [Arr(RouteJsons(f, rs)), Str(f.checkpointSchema)]))
  }

  /** The digest a checkpoint carries. */
  function ContentSha(f: Format, rs: seq<Route>): Text
    requires HasShape(f)
  {
    f.sha(ContentBytes(f, rs))
  }

  // ---- capture ----

  /** A deployment as a route: only from a deployment with nothing staged and no rollback history. */
  function RouteOf(id: Text, d: Deployment): Option<Route> {
    if NonBlank(id).None? || d.staged.Some? || d.stack != [] then None
    else Normal(Route(id, d.active.candidate, d.active.artifact, d.active.manifest, d.active.generation))
  }

  /** How a listed deployment is read: the id it goes by, whether it has one, and what it
      shows. The lemmas below hold for any reading; the gates use `Normally()`. */
  datatype Reading = Reading(key: Text -> Text, named: Text -> bool, shows: Deployment -> Option<Content>)

  datatype Content = Content(candidate: Text, artifact: Text, manifest: Option<Text>)

  /** What a deployment shows, if it can be read. */
  function ContentOf(d: Deployment): Option<Content> {
    if NonBlank(d.active.candidate).None? || FoldedDigest(d.active.artifact).None?
       || (d.active.manifest.Some? && FoldedDigest(d.active.manifest.value).None?)
    then None
    else Some(Content(NonBlank(d.active.candidate).value, FoldedDigest(d.active.artifact).value,
                      if d.active.manifest.Some? then FoldedDigest(d.active.manifest.value) else None))
  }

  function Normally(): Reading {
    Reading(Strip, id => NonBlank(id).Some?, ContentOf)
  }

  /** No two deployment ids are read as one. */
  ghost predicate KeyDistinct(g: Reading, t: Table) {
    forall a, b :: a in t && b in t && a != b ==> g.key(a) != g.key(b)
  }

  ghost predicate Capturable(t: Table) {
    (forall id :: id in t ==> RouteOf(id, t[id]).Some?) && KeyDistinct(Normally(), t)
  }

  ghost predicate IsRouteOf(r: Route, t: Table) {
    exists id :: id in t && RouteOf(id, t[id]) == Some(r)
  }

  /** Exactly the routes of the table, in strict id order. */
  ghost predicate Describes(rs: seq<Route>, t: Table) {
    |rs| == |t| && Sorted(Ids(rs)) && Lists(rs, t)
  }

  ghost predicate Lists(rs: seq<Route>, t: Table) {
    forall r :: r in rs <==> IsRouteOf(r, t)
  }

  /** `routes.sort(key=...)`; `InsertRoute` puts equal ids after one another. */
  method InsertRoute(rs: seq<Route>, r: Route) returns (out: seq<Route>)
    requires forall i, j :: 0 <= i < j < |rs| ==> !Less(rs[j].deployment, rs[i].deployment)
    ensures forall i, j :: 0 <= i < j < |out| ==> !Less(out[j].deployment, out[i].deployment)
    ensures multiset(out) == multiset(rs) + multiset{r}
  {
    var at := |rs|;
    while at > 0 && Less(r.deployment, rs[at - 1].deployment)
      invariant 0 <= at <= |rs|
      invariant forall i :: at <= i < |rs| ==> Less(r.deployment, rs[i].deployment)
    {
      at := at - 1;
    }
    forall i | 0 <= i < at ensures !Less(r.deployment, rs[i].deployment) {
      if Less(r.deployment, rs[i].deployment) && i < at - 1 {
        LessTrichotomy(rs[i].deployment, rs[at - 1].deployment);
        if rs[i].deployment != rs[at - 1].deployment {
          LessTransitive(r.deployment, rs[i].deployment, rs[at - 1].deployment);
        }
      }
    }
    forall i | at <= i < |rs| ensures !Less(rs[i].deployment, r.deployment) {
      LessTrichotomy(r.deployment, rs[i].deployment);
    }
    out := rs[..at] + [r] + rs[at..];
    assert rs == rs[..at] + rs[at..];
  }

  method SortRoutes(rs: seq<Route>) returns (out: seq<Route>)
    ensures forall i, j :: 0 <= i < j < |out| ==> !Less(out[j].deployment, out[i].deployment)
    ensures multiset(out) == multiset(rs)
  {
    out := [];
    var i := 0;
    while i < |rs|
      invariant i <= |rs|
      invariant forall i, j :: 0 <= i < j < |out| ==> !Less(out[j].deployment, out[i].deployment)
      invariant multiset(out) == multiset(rs[..i])
    {
      out := InsertRoute(out, rs[i]);
      assert rs[..i + 1] == rs[..i] + [rs[i]];
      i := i + 1;
    }
    assert rs[..i] == rs;
  }

  /** The views of a table: every deployment once. */
  ghost predicate IsListing(views: seq<View>, t: Table) {
    && |views| == |t|
    && (forall i :: 0 <= i < |views| ==> views[i].0 in t && views[i].1 == t[views[i].0])
    && (forall i, j :: 0 <= i < j < |views| ==> views[i].0 != views[j].0)
    && ViewIds(views) == t.Keys
  }

  ghost function ViewIds(views: seq<View>): set<Text> {
    set i | 0 <= i < |views| :: views[i].0
  }

  lemma PositionOf(views: seq<View>, t: Table, id: Text) returns (i: nat)
    requires IsListing(views, t) && id in t
    ensures i < |views| && views[i] == (id, t[id])
  {
    assert id in ViewIds(views);
    i :| 0 <= i < |views| && views[i].0 == id;
  }

  lemma ListingIs(t: Table)
    ensures IsListing(Listing(t), t)
  {
    ListingComplete(t);
    forall i, j | 0 <= i < j < |Listing(t)| ensures Listing(t)[i].0 != Listing(t)[j].0 {
      LessTrichotomy(Listing(t)[i].0, Listing(t)[j].0);
      LessTrichotomy(Listing(t)[i].0, Listing(t)[i].0);
    }
    assert forall id :: id in t.Keys ==> id in ViewIds(Listing(t));
  }

  ghost predicate ReadInto(views: seq<View>, routes: seq<Route>) {
    |routes| == |views| && forall k :: 0 <= k < |views| ==> RouteOf(views[k].0, views[k].1) == Some(routes[k])
  }

  lemma SameIds(a: seq<Route>, b: seq<Route>)
    requires multiset(a) == multiset(b)
    ensures KeySet(Ids(a)) == KeySet(Ids(b)) && |a| == |b|
    ensures forall r :: r in a <==> r in b
  {
    assert |multiset(a)| == |a| && |multiset(b)| == |b|;
    assert forall r :: r in a <==> r in multiset(a);
    assert forall r :: r in b <==> r in multiset(b);
    forall k ensures k in KeySet(Ids(a)) <==> k in KeySet(Ids(b)) {
      KeyShift(a, b, k);
      KeyShift(b, a, k);
    }
  }

  lemma KeyShift(a: seq<Route>, b: seq<Route>, k: Text)
    requires forall r :: r in a ==> r in b
    ensures k in KeySet(Ids(a)) ==> k in KeySet(Ids(b))
  {
    if k in KeySet(Ids(a)) {
      var i :| 0 <= i < |a| && Ids(a)[i] == k;
      assert a[i] in b;
      var j :| 0 <= j < |b| && b[j] == a[i];
      assert Ids(b)[j] == k;
    }
  }

  /** Weakly ordered and without repetition is strictly ordered. */
  lemma OrderedDistinct(rs: seq<Route>)
    requires forall i, j :: 0 <= i < j < |rs| ==> !Less(rs[j].deployment, rs[i].deployment)
    requires Distinct(Ids(rs))
    ensures Sorted(Ids(rs))
  {
    forall i, j | 0 <= i < j < |rs| ensures Less(Ids(rs)[i], Ids(rs)[j]) {
      LessTrichotomy(rs[i].deployment, rs[j].deployment);
      assert Ids(rs)[i] != Ids(rs)[j];
    }
  }

  lemma ReadIds(views: seq<View>, routes: seq<Route>)
    requires ReadInto(views, routes)
    ensures KeysTo(Normally(), views, Ids(routes))
  {
  }

  ghost predicate KeysTo(g: Reading, views: seq<View>, ids: seq<Text>) {
    |ids| == |views| && forall k :: 0 <= k < |views| ==> g.key(views[k].0) == ids[k]
  }

  /** The routes read are distinct exactly if the ids as read are. */
  lemma DistinctReadings(g: Reading, views: seq<View>, ids: seq<Text>, t: Table)
    requires IsListing(views, t) && KeysTo(g, views, ids)
    ensures Distinct(ids) <==> KeyDistinct(g, t)
  {
    if !Distinct(ids) {
      var i, j :| 0 <= i < j < |ids| && ids[i] == ids[j];
      assert views[i].0 != views[j].0 && g.key(views[i].0) == g.key(views[j].0);
    }
    if !KeyDistinct(g, t) {
      var a, b :| a in t && b in t && a != b && g.key(a) == g.key(b);
      var i := PositionOf(views, t, a);
      var j := PositionOf(views, t, b);
      assert ids[i] == ids[j];
    }
  }

  lemma EveryReading(views: seq<View>, routes: seq<Route>, t: Table)
    requires IsListing(views, t) && ReadInto(views, routes)
    ensures forall id :: id in t ==> RouteOf(id, t[id]).Some?
    ensures forall r :: r in routes <==> IsRouteOf(r, t)
  {
    forall id | id in t ensures RouteOf(id, t[id]).Some? && RouteOf(id, t[id]).value in routes {
      var i := PositionOf(views, t, id);
      assert RouteOf(views[i].0, views[i].1) == Some(routes[i]);
    }
    forall r | r in routes ensures IsRouteOf(r, t) {
      var k :| 0 <= k < |routes| && routes[k] == r;
      assert RouteOf(views[k].0, views[k].1) == Some(r);
    }
  }

  lemma UnreadableView(views: seq<View>, i: nat, t: Table)
    requires IsListing(views, t) && i < |views| && RouteOf(views[i].0, views[i].1).None?
    ensures !Capturable(t)
  {
    assert views[i].0 in t;
  }

  /** What the final check of `capture_active_route_checkpoint` decides. */
  lemma CaptureDecides(views: seq<View>, routes: seq<Route>, ordered: seq<Route>, t: Table)
    requires IsListing(views, t) && ReadInto(views, routes) && multiset(ordered) == multiset(routes)
    requires forall i, j :: 0 <= i < j < |ordered| ==> !Less(ordered[j].deployment, ordered[i].deployment)
    ensures |KeySet(Ids(ordered))| == |ordered| <==> Capturable(t)
    ensures Capturable(t) ==> Describes(ordered, t)
  {
    EveryReading(views, routes, t);
    ReadIds(views, routes);
    DistinctReadings(Normally(), views, Ids(routes), t);
    SameIds(routes, ordered);
    DistinctIffCardinality(Ids(routes));
    DistinctIffCardinality(Ids(ordered));
    if Distinct(Ids(ordered)) {
      OrderedDistinct(ordered);
    }
  }

  /** The loop of `capture_active_route_checkpoint`. */
  method ReadViews(views: seq<View>) returns (routes: Option<seq<Route>>)
    ensures routes.Some? ==> ReadInto(views, routes.value)
    ensures routes.None? ==> exists i :: 0 <= i < |views| && RouteOf(views[i].0, views[i].1).None?
  {
    var read := [];
    var i := 0;
    while i < |views|
      invariant i <= |views| && |read| == i
      invariant forall k :: 0 <= k < i ==> RouteOf(views[k].0, views[k].1) == Some(read[k])
    {
      var r := RouteOf(views[i].0, views[i].1);
      if r.None? {
        return None;
      }
      read := read + [r.value];
      i := i + 1;
    }
    return Some(read);
  }

  /** `capture_active_route_checkpoint`: it succeeds exactly on a capturable router, and
      then the checkpoint describes that router. */
  method Capture(f: Format, router: VersionedArtifactRouter) returns (res: Option<Checkpoint>)
    requires HasShape(f)
    ensures res.Some? <==> Capturable(router.deployments)
    ensures res.Some? ==>
              && Describes(res.value.routes, router.deployments)
              && res.value == Checkpoint(f.checkpointSchema, res.value.routes, |res.value.routes|,
                                         ContentSha(f, res.value.routes), true, false)
    ensures res.Some? <==> AllReadied(router.deployments)
    ensures res.Some? ==> PairedInOrder(res.value.routes, router.deployments)
  {
    CapturableIff(router.deployments);
    var views := router.List();
    ListingIs(router.deployments);
    var routes := ReadViews(views);
    if routes.None? {
      ghost var i :| 0 <= i < |views| && RouteOf(views[i].0, views[i].1).None?;
      UnreadableView(views, i, router.deployments);
      return None;
    }
    var ordered := SortRoutes(routes.value);
    CaptureDecides(views, routes.value, ordered, router.deployments);
    if |KeySet(Ids(ordered))| != |ordered| {
      return None;
    }
    CapturedShows(ordered, router.deployments);
    return Some(Checkpoint(f.checkpointSchema, ordered, |ordered|, ContentSha(f, ordered), true, false));
  }

  /** The deployment has a name, nothing staged, no rollback history, and a readable active version. */
  ghost predicate Readied(id: Text, d: Deployment) {
    && Strip(id) != [] && d.staged.None? && d.stack == []
    && Strip(d.active.candidate) != [] && FoldedDigest(d.active.artifact).Some?
    && (d.active.manifest.Some? ==> FoldedDigest(d.active.manifest.value).Some?)
    && d.active.generation >= 1
  }

  /** Every deployment can be read, and no two ids become one when stripped. */
  ghost predicate AllReadied(t: Table) {
    && (forall id :: id in t ==> Readied(id, t[id]))
    && (forall a, b :: a in t && b in t && a != b ==> Strip(a) != Strip(b))
  }

  /** As many routes as deployments, in ascending id order, each showing its deployment. */
  ghost predicate PairedInOrder(rs: seq<Route>, t: Table) {
    && |rs| == |t|
    && (forall i, j :: 0 <= i < j < |rs| ==> Less(rs[i].deployment, rs[j].deployment))
    && ShowsExactly(rs, t)
    && CarriesGenerations(rs, t)
  }

  lemma CapturableIff(t: Table)
    ensures Capturable(t) <==> AllReadied(t)
  {
    forall id | id in t ensures RouteOf(id, t[id]).Some? <==> Readied(id, t[id]) {
      RoutedIff(id, t[id]);
    }
  }

  lemma RoutedIff(id: Text, d: Deployment)
    ensures RouteOf(id, d).Some? <==> Readied(id, d)
    ensures RouteOf(id, d).Some? ==> RouteOf(id, d).value.generation == d.active.generation
  {
  }

  /** Each route has the generation that was active under its id. */
  ghost predicate CarriesGenerations(rs: seq<Route>, t: Table) {
    forall r :: r in rs ==> exists id :: id in t && r.deployment == Strip(id) && r.generation == t[id].active.generation
  }

  lemma CapturedShows(rs: seq<Route>, t: Table)
    requires Capturable(t) && Describes(rs, t)
    ensures PairedInOrder(rs, t)
  {
    AscendingIds(rs);
    SortedDistinct(Ids(rs));
    CapturedPromises(rs, t);
    RecoversIff(rs, t);
    CapturedGenerations(rs, t);
  }

  lemma CapturedGenerations(rs: seq<Route>, t: Table)
    requires Lists(rs, t)
    ensures CarriesGenerations(rs, t)
  {
    forall r | r in rs
      ensures exists id :: id in t && r.deployment == Strip(id) && r.generation == t[id].active.generation
    {
      assert IsRouteOf(r, t);
      var id :| id in t && RouteOf(id, t[id]) == Some(r);
      RoutedIff(id, t[id]);
      RouteShows(id, t[id]);
    }
  }

  // ---- verification of a recovered router ----

  predicate Quiet(d: Deployment) {
    d.staged.None? && d.stack == []
  }

  function Promise(r: Route): Content {
    Content(r.candidate, r.artifact, r.manifest)
  }

  /** From deployment id, as read, to what is shown under it. */
  ghost function Shown(g: Reading, t: Table): map<Text, Option<Content>>
    requires KeyDistinct(g, t)
  {
    map id | id in t :: g.key(id) := g.shows(t[id])
  }

  ghost function Promised(rs: seq<Route>): map<Text, Option<Content>>
    requires Distinct(Ids(rs))
  {
    map i | 0 <= i < |rs| :: Ids(rs)[i] := Some(Promise(rs[i]))
  }

  /** The checks on the checkpoint itself. */
  ghost predicate Coherent(f: Format, cp: Checkpoint)
    requires HasShape(f)
  {
    && cp.schema == f.checkpointSchema && cp.quiescent && !cp.controlAllowed && cp.routeCount == |cp.routes|
    && FoldedDigest(cp.sha) == Some(ContentSha(f, cp.routes))
    && Sorted(Ids(cp.routes))
  }

  ghost predicate Quiescent(g: Reading, t: Table) {
    && (forall id :: id in t ==> g.named(id) && Quiet(t[id]))
    && KeyDistinct(g, t)
  }

  /** `recovered_by_id` for these views. */
  ghost predicate Indexes(g: Reading, byId: map<Text, Deployment>, views: seq<View>) {
    && |byId| == |views|
    && (forall i :: 0 <= i < |views| ==> g.key(views[i].0) in byId && byId[g.key(views[i].0)] == views[i].1)
    && byId.Keys == ReadIdsOf(g, views)
  }

  ghost function ReadIdsOf(g: Reading, views: seq<View>): set<Text> {
    set i | 0 <= i < |views| :: g.key(views[i].0)
  }

  ghost predicate AllQuiet(g: Reading, views: seq<View>) {
    forall i :: 0 <= i < |views| ==> g.named(views[i].0) && Quiet(views[i].1)
  }

  ghost predicate KeysDiffer(g: Reading, views: seq<View>) {
    forall i, j :: 0 <= i < j < |views| ==> g.key(views[i].0) != g.key(views[j].0)
  }

  ghost predicate SoFar(g: Reading, byId: map<Text, Deployment>, views: seq<View>) {
    AllQuiet(g, views) && KeysDiffer(g, views) && Indexes(g, byId, views)
  }

  /** The first loop of `verify_recovered_active_routes`. */
  method IndexById(g: Reading, views: seq<View>) returns (byId: Option<map<Text, Deployment>>)
    ensures byId.Some? <==> AllQuiet(g, views) && KeysDiffer(g, views)
    ensures byId.Some? ==> Indexes(g, byId.value, views)
  {
    var index: map<Text, Deployment> := map[];
    var i := 0;
    while i < |views|
      invariant i <= |views|
      invariant SoFar(g, index, views[..i])
    {
      var id := g.key(views[i].0);
      if !g.named(views[i].0) || id in index || views[i].1.staged.Some? || views[i].1.stack != [] {
        Unindexable(g, views, i, index);
        return None;
      }
      IndexedUpTo(g, views, i, index);
      index := index[id := views[i].1];
      i := i + 1;
    }
    assert views[..i] == views;
    return Some(index);
  }

  lemma Unindexable(g: Reading, views: seq<View>, i: nat, index: map<Text, Deployment>)
    requires i < |views| && SoFar(g, index, views[..i])
    requires !g.named(views[i].0) || g.key(views[i].0) in index || !Quiet(views[i].1)
    ensures !(AllQuiet(g, views) && KeysDiffer(g, views))
  {
    if g.named(views[i].0) && g.key(views[i].0) in index {
      var k :| 0 <= k < i && g.key(views[..i][k].0) == g.key(views[i].0);
      assert g.key(views[k].0) == g.key(views[i].0);
    }
  }

  lemma OneMore(g: Reading, views: seq<View>, v: View, index: map<Text, Deployment>)
    requires Indexes(g, index, views) && g.key(v.0) !in index
    ensures Indexes(g, index[g.key(v.0) := v.1], views + [v])
  {
    var after, upto := index[g.key(v.0) := v.1], views + [v];
    ReadIdsGrow(g, views, v);
    assert after.Keys == index.Keys + {g.key(v.0)};
    assert |after| == |after.Keys| && |index| == |index.Keys|;
    forall j | 0 <= j < |upto|
      ensures g.key(upto[j].0) in after && after[g.key(upto[j].0)] == upto[j].1
    {
      if j < |views| { assert upto[j] == views[j] && g.key(views[j].0) in index; }
    }
  }

  lemma OneMoreDiffers(g: Reading, views: seq<View>, v: View, index: map<Text, Deployment>)
    requires Indexes(g, index, views) && KeysDiffer(g, views) && g.key(v.0) !in index
    ensures KeysDiffer(g, views + [v])
  {
    var upto := views + [v];
    forall j, k | 0 <= j < k < |upto| ensures g.key(upto[j].0) != g.key(upto[k].0) {
      assert upto[j] == views[j] && g.key(views[j].0) in index;
    }
  }

  lemma IndexedUpTo(g: Reading, views: seq<View>, i: nat, index: map<Text, Deployment>)
    requires i < |views| && SoFar(g, index, views[..i])
    requires g.named(views[i].0) && g.key(views[i].0) !in index && Quiet(views[i].1)
    ensures SoFar(g, index[g.key(views[i].0) := views[i].1], views[..i + 1])
  {
    OneMore(g, views[..i], views[i], index);
    OneMoreDiffers(g, views[..i], views[i], index);
    assert views[..i + 1] == views[..i] + [views[i]];
  }

  lemma ReadIdsGrow(g: Reading, views: seq<View>, v: View)
    ensures ReadIdsOf(g, views + [v]) == ReadIdsOf(g, views) + {g.key(v.0)}
  {
    var more := views + [v];
    forall k ensures k in ReadIdsOf(g, more) <==> k in ReadIdsOf(g, views) + {g.key(v.0)} {
      if k in ReadIdsOf(g, more) {
        var i :| 0 <= i < |more| && g.key(more[i].0) == k;
        if i < |views| { assert views[i] == more[i]; }
      }
      if k in ReadIdsOf(g, views) {
        var i :| 0 <= i < |views| && g.key(views[i].0) == k;
        assert more[i] == views[i];
      }
      if k == g.key(v.0) { assert more[|views|] == v; }
    }
  }

  lemma QuiescentViews(g: Reading, views: seq<View>, t: Table)
    requires IsListing(views, t)
    ensures AllQuiet(g, views) && KeysDiffer(g, views) <==> Quiescent(g, t)
  {
    if AllQuiet(g, views) && KeysDiffer(g, views) {
      forall id | id in t ensures g.named(id) && Quiet(t[id]) {
        var i := PositionOf(views, t, id);
      }
      forall a, b | a in t && b in t && a != b ensures g.key(a) != g.key(b) {
        var i := PositionOf(views, t, a);
        var j := PositionOf(views, t, b);
        assert g.key(views[if i < j then i else j].0) != g.key(views[if i < j then j else i].0);
      }
    }
    if Quiescent(g, t) {
      forall i, j | 0 <= i < j < |views| ensures g.key(views[i].0) != g.key(views[j].0) {
        assert views[i].0 in t && views[j].0 in t;
      }
    }
  }

  ghost predicate MatchesAll(g: Reading, rs: seq<Route>, byId: map<Text, Deployment>) {
    forall i :: 0 <= i < |rs| ==> rs[i].deployment in byId && g.shows(byId[rs[i].deployment]) == Some(Promise(rs[i]))
  }

  /** The second loop of `verify_recovered_active_routes`. */
  method MatchRoutes(g: Reading, rs: seq<Route>, byId: map<Text, Deployment>) returns (ok: bool)
    ensures ok <==> MatchesAll(g, rs, byId)
  {
    var i := 0;
    while i < |rs|
      invariant i <= |rs|
      invariant MatchesAll(g, rs[..i], byId)
    {
      if rs[i].deployment !in byId || g.shows(byId[rs[i].deployment]) != Some(Promise(rs[i])) {
        return false;
      }
      i := i + 1;
    }
    assert rs[..i] == rs;
    return true;
  }

  lemma ReadPosition(g: Reading, views: seq<View>, k: Text) returns (i: nat)
    requires k in ReadIdsOf(g, views)
    ensures i < |views| && g.key(views[i].0) == k
  {
    i :| 0 <= i < |views| && g.key(views[i].0) == k;
  }

  /** `m` holds what is shown under each id. */
  ghost predicate Holds(g: Reading, m: map<Text, Option<Content>>, t: Table) {
    && (forall id :: id in t ==> g.key(id) in m && m[g.key(id)] == g.shows(t[id]))
    && m.Keys == set id | id in t :: g.key(id)
  }

  lemma ShownHolds(g: Reading, t: Table)
    requires KeyDistinct(g, t)
    ensures Holds(g, Shown(g, t), t)
  {
  }

  lemma HeldIsIndexed(g: Reading, byId: map<Text, Deployment>, views: seq<View>, m: map<Text, Option<Content>>, t: Table)
    requires IsListing(views, t) && Indexes(g, byId, views) && Holds(g, m, t)
    ensures m.Keys == byId.Keys
    ensures forall k :: k in byId ==> m[k] == g.shows(byId[k])
  {
    forall k | k in byId ensures k in m && m[k] == g.shows(byId[k]) {
      var i := ReadPosition(g, views, k);
      assert views[i].0 in t;
    }
    forall k | k in m ensures k in byId {
      var id :| id in t && g.key(id) == k;
      var i := PositionOf(views, t, id);
    }
  }

  /** `p` holds the promise of each route. */
  ghost predicate Keeps(p: map<Text, Option<Content>>, rs: seq<Route>) {
    && |p| == |rs|
    && p.Keys == KeySet(Ids(rs))
    && forall i :: 0 <= i < |rs| ==> rs[i].deployment in p && p[rs[i].deployment] == Some(Promise(rs[i]))
  }

  lemma PromisedIs(rs: seq<Route>)
    requires Distinct(Ids(rs))
    ensures Keeps(Promised(rs), rs)
  {
    DistinctIffCardinality(Ids(rs));
    assert Promised(rs).Keys == KeySet(Ids(rs));
    assert |Promised(rs)| == |Promised(rs).Keys|;
    forall i | 0 <= i < |rs|
      ensures rs[i].deployment in Promised(rs) && Promised(rs)[rs[i].deployment] == Some(Promise(rs[i]))
    {
      assert Ids(rs)[i] in Promised(rs);
    }
  }

  lemma SubsetOfEqualSize(a: set<Text>, b: set<Text>)
    requires a <= b && |a| == |b|
    ensures a == b
  {
    assert |b - a| == |b| - |a|;
  }

  /** The counting argument: as many deployments as routes, and every route matched, is
      equality of the two maps. */
  lemma CountingDecides(g: Reading, rs: seq<Route>, byId: map<Text, Deployment>,
                        m: map<Text, Option<Content>>, p: map<Text, Option<Content>>)
    requires m.Keys == byId.Keys && forall k :: k in byId ==> m[k] == g.shows(byId[k])
    requires Keeps(p, rs)
    ensures |byId| == |rs| && MatchesAll(g, rs, byId) <==> m == p
  {
    assert |m| == |m.Keys| && |byId| == |byId.Keys| && |p| == |p.Keys|;
    if |byId| == |rs| && MatchesAll(g, rs, byId) {
      forall k | k in p ensures k in byId && m[k] == p[k] {
        var i := IdPosition(rs, k);
        assert rs[i].deployment in byId;
      }
      SubsetOfEqualSize(p.Keys, byId.Keys);
    }
    if m == p {
      forall i | 0 <= i < |rs|
        ensures rs[i].deployment in byId && g.shows(byId[rs[i].deployment]) == Some(Promise(rs[i]))
      {
        assert rs[i].deployment in m;
      }
    }
  }

  lemma IdPosition(rs: seq<Route>, k: Text) returns (i: nat)
    requires k in KeySet(Ids(rs))
    ensures i < |rs| && rs[i].deployment == k
  {
    i :| 0 <= i < |rs| && Ids(rs)[i] == k;
  }

  /** The recovered table is quiescent and shows, id by id, what the routes promise. */
  ghost predicate Recovers(g: Reading, rs: seq<Route>, t: Table) {
    Quiescent(g, t) && Distinct(Ids(rs)) && Shown(g, t) == Promised(rs)
  }

  /** The part of `verify_recovered_active_routes` behind the checks on the checkpoint. */
  method CompareRecovered(g: Reading, rs: seq<Route>, router: VersionedArtifactRouter) returns (ok: bool)
    requires Distinct(Ids(rs))
    ensures ok <==> Recovers(g, rs, router.deployments)
  {
    var views := router.List();
    ListingIs(router.deployments);
    QuiescentViews(g, views, router.deployments);
    if |views| != |rs| {
      if Recovers(g, rs, router.deployments) {
        PromisedIs(rs);
        ShownSize(g, views, router.deployments);
      }
      return false;
    }
    var byId := IndexById(g, views);
    if byId.None? {
      return false;
    }
    ok := MatchRoutes(g, rs, byId.value);
    ShownHolds(g, router.deployments);
    HeldIsIndexed(g, byId.value, views, Shown(g, router.deployments), router.deployments);
    PromisedIs(rs);
    CountingDecides(g, rs, byId.value, Shown(g, router.deployments), Promised(rs));
  }

  /** `verify_recovered_active_routes` */
  method VerifyRecovered(f: Format, cp: Checkpoint, router: VersionedArtifactRouter) returns (ok: bool)
    requires HasShape(f)
    ensures ok <==> Coherent(f, cp) && Recovers(Normally(), cp.routes, router.deployments)
    ensures ok <==>
              && cp.schema == f.checkpointSchema && cp.quiescent && !cp.controlAllowed && cp.routeCount == |cp.routes|
              && FoldedDigest(cp.sha) == Some(ContentSha(f, cp.routes))
              && (forall i, j :: 0 <= i < j < |cp.routes| ==> Less(cp.routes[i].deployment, cp.routes[j].deployment))
              && ShowsExactly(cp.routes, router.deployments)
  {
    AscendingIds(cp.routes);
    if cp.schema != f.checkpointSchema || !cp.quiescent || cp.controlAllowed || cp.routeCount != |cp.routes| {
      return false;
    }
    if FoldedDigest(cp.sha) != Some(ContentSha(f, cp.routes)) {
      return false;
    }
    if !Sorted(Ids(cp.routes)) {
      return false;
    }
    SortedDistinct(Ids(cp.routes));
    RecoversIff(cp.routes, router.deployments);
    ok := CompareRecovered(Normally(), cp.routes, router);
  }

  lemma AscendingIds(rs: seq<Route>)
    ensures Sorted(Ids(rs)) <==> forall i, j :: 0 <= i < j < |rs| ==> Less(rs[i].deployment, rs[j].deployment)
  {
    if Sorted(Ids(rs)) {
      forall i, j | 0 <= i < j < |rs| ensures Less(rs[i].deployment, rs[j].deployment) {
        assert Less(Ids(rs)[i], Ids(rs)[j]);
      }
    }
  }

  lemma ShownSize(g: Reading, views: seq<View>, t: Table)
    requires IsListing(views, t) && KeyDistinct(g, t)
    ensures |Shown(g, t)| == |views|
  {
    var ids := seq(|views|, i requires 0 <= i < |views| => g.key(views[i].0));
    assert KeysTo(g, views, ids);
    DistinctReadings(g, views, ids, t);
    DistinctIffCardinality(ids);
    assert Shown(g, t).Keys == KeySet(ids) by {
      forall k | k in KeySet(ids) ensures k in Shown(g, t) {
        var i :| 0 <= i < |ids| && ids[i] == k;
        assert views[i].0 in t;
      }
      forall k | k in Shown(g, t) ensures k in KeySet(ids) {
        var id :| id in t && g.key(id) == k;
        var i := PositionOf(views, t, id);
        assert ids[i] == k;
      }
    }
    assert |Shown(g, t)| == |Shown(g, t).Keys|;
  }

  // ---- the same over the deployments themselves ----

  /** The route is under this id and names what the deployment has active. */
  ghost predicate ShownAs(r: Route, id: Text, d: Deployment) {
    && r.deployment == Strip(id)
    && r.candidate == Strip(d.active.candidate) && r.candidate != []
    && FoldedDigest(d.active.artifact) == Some(r.artifact)
    && (if d.active.manifest.None? then r.manifest.None?
        else r.manifest.Some? && FoldedDigest(d.active.manifest.value) == r.manifest)
  }

  lemma ShownAsIff(r: Route, id: Text, d: Deployment)
    ensures ShownAs(r, id, d) <==> RouteAt(Normally(), r, id, d)
  {
  }

  /** Nothing staged, no rollback history, and ids that stay apart when stripped. */
  ghost predicate StandsQuiet(t: Table) {
    && (forall id :: id in t ==> Strip(id) != [] && t[id].staged.None? && t[id].stack == [])
    && (forall a, b :: a in t && b in t && a != b ==> Strip(a) != Strip(b))
  }

  /** Every deployment is some route's. */
  ghost predicate AllIdsShown(rs: seq<Route>, t: Table) {
    forall id :: id in t ==> exists r :: r in rs && ShownAs(r, id, t[id])
  }

  /** Every route is some deployment's. */
  ghost predicate AllRoutesShown(rs: seq<Route>, t: Table) {
    forall r :: r in rs ==> exists id :: id in t && ShownAs(r, id, t[id])
  }

  ghost predicate ShowsExactly(rs: seq<Route>, t: Table) {
    StandsQuiet(t) && AllIdsShown(rs, t) && AllRoutesShown(rs, t)
  }

  lemma Backs(g: Reading, rs: seq<Route>, t: Table, m: map<Text, Option<Content>>, p: map<Text, Option<Content>>)
    requires Holds(g, m, t) && Keeps(p, rs) && EveryIdRouted(g, rs, t) && EveryRouteBacked(g, rs, t)
    ensures m == p
  {
    RoutedKeys(g, rs, t, m, p);
    BackedKeys(g, rs, t, m, p);
    SameMap(m, p);
  }

  lemma SameMap(m: map<Text, Option<Content>>, p: map<Text, Option<Content>>)
    requires m.Keys <= p.Keys && forall k :: k in p ==> k in m && m[k] == p[k]
    ensures m == p
  {
  }

  lemma PairedOff(g: Reading, rs: seq<Route>, t: Table, m: map<Text, Option<Content>>, p: map<Text, Option<Content>>)
    requires Holds(g, m, t) && Keeps(p, rs)
    ensures m == p <==> EveryIdRouted(g, rs, t) && EveryRouteBacked(g, rs, t)
  {
    if m == p {
      IdsRouted(g, rs, t, p);
      RoutesBacked(g, rs, t, p);
    } else if EveryIdRouted(g, rs, t) && EveryRouteBacked(g, rs, t) {
      Backs(g, rs, t, m, p);
    }
  }

  lemma IdsRouted(g: Reading, rs: seq<Route>, t: Table, p: map<Text, Option<Content>>)
    requires Holds(g, p, t) && Keeps(p, rs)
    ensures EveryIdRouted(g, rs, t)
  {
    forall id | id in t ensures exists r :: r in rs && RouteAt(g, r, id, t[id]) {
      var i := IdPosition(rs, g.key(id));
      SameContent(g, rs[i], id, t[id]);
    }
  }

  lemma RoutesBacked(g: Reading, rs: seq<Route>, t: Table, p: map<Text, Option<Content>>)
    requires Holds(g, p, t) && Keeps(p, rs)
    ensures EveryRouteBacked(g, rs, t)
  {
    forall r | r in rs ensures exists id :: id in t && RouteAt(g, r, id, t[id]) {
      var i :| 0 <= i < |rs| && rs[i] == r;
      var id :| id in t && g.key(id) == r.deployment;
      SameContent(g, r, id, t[id]);
    }
  }

  lemma SameContent(g: Reading, r: Route, id: Text, d: Deployment)
    requires g.key(id) == r.deployment && g.shows(d) == Some(Promise(r))
    ensures RouteAt(g, r, id, d)
  {
  }

  lemma IdsShownIff(rs: seq<Route>, t: Table)
    ensures EveryIdRouted(Normally(), rs, t) <==> AllIdsShown(rs, t)
  {
    forall r, id | id in t ensures ShownAs(r, id, t[id]) <==> RouteAt(Normally(), r, id, t[id]) {
      ShownAsIff(r, id, t[id]);
    }
  }

  lemma RoutesShownIff(rs: seq<Route>, t: Table)
    ensures EveryRouteBacked(Normally(), rs, t) <==> AllRoutesShown(rs, t)
  {
    forall r, id | id in t ensures ShownAs(r, id, t[id]) <==> RouteAt(Normally(), r, id, t[id]) {
      ShownAsIff(r, id, t[id]);
    }
  }

  lemma QuiescentIff(t: Table)
    ensures Quiescent(Normally(), t) <==> StandsQuiet(t)
  {
  }

  lemma RecoversPaired(g: Reading, rs: seq<Route>, t: Table)
    requires Distinct(Ids(rs))
    ensures Recovers(g, rs, t) <==> Quiescent(g, t) && EveryIdRouted(g, rs, t) && EveryRouteBacked(g, rs, t)
  {
    if Quiescent(g, t) {
      ShownHolds(g, t);
      PromisedIs(rs);
      PairedOff(g, rs, t, Shown(g, t), Promised(rs));
    }
  }

  /** Recovery compares maps; over the deployments it is this. */
  lemma RecoversIff(rs: seq<Route>, t: Table)
    requires Distinct(Ids(rs))
    ensures Recovers(Normally(), rs, t) <==> ShowsExactly(rs, t)
  {
    RecoversPaired(Normally(), rs, t);
    QuiescentIff(t);
    IdsShownIff(rs, t);
    RoutesShownIff(rs, t);
  }

  // ---- a captured checkpoint and the routers it accepts ----

  lemma RouteShows(id: Text, d: Deployment)
    ensures var r := RouteOf(id, d);
            r.Some? ==> && r.value.deployment == Normally().key(id)
                        && Normally().shows(d) == Some(Promise(r.value))
                        && Normally().named(id) && Quiet(d)
  {
  }

  ghost predicate RouteAt(g: Reading, r: Route, id: Text, d: Deployment) {
    r.deployment == g.key(id) && g.shows(d) == Some(Promise(r))
  }

  ghost predicate EveryIdRouted(g: Reading, rs: seq<Route>, t: Table) {
    forall id :: id in t ==> exists r :: r in rs && RouteAt(g, r, id, t[id])
  }

  ghost predicate EveryRouteBacked(g: Reading, rs: seq<Route>, t: Table) {
    forall r :: r in rs ==> exists id :: id in t && RouteAt(g, r, id, t[id])
  }

  lemma CapturedIdsRouted(rs: seq<Route>, t: Table)
    requires Capturable(t) && Lists(rs, t)
    ensures EveryIdRouted(Normally(), rs, t) && Quiescent(Normally(), t)
  {
    forall id | id in t
      ensures Normally().named(id) && Quiet(t[id]) && exists r :: r in rs && RouteAt(Normally(), r, id, t[id])
    {
      var r := RouteOf(id, t[id]).value;
      RouteShows(id, t[id]);
      assert IsRouteOf(r, t);
      assert RouteAt(Normally(), r, id, t[id]);
    }
  }

  lemma CapturedRoutesBacked(rs: seq<Route>, t: Table)
    requires Lists(rs, t)
    ensures EveryRouteBacked(Normally(), rs, t)
  {
    forall r | r in rs ensures exists id :: id in t && RouteAt(Normally(), r, id, t[id]) {
      assert IsRouteOf(r, t);
      var id :| id in t && RouteOf(id, t[id]) == Some(r);
      RouteShows(id, t[id]);
      assert RouteAt(Normally(), r, id, t[id]);
    }
  }

  lemma RoutedKeys(g: Reading, rs: seq<Route>, t: Table, m: map<Text, Option<Content>>, p: map<Text, Option<Content>>)
    requires Holds(g, m, t) && Keeps(p, rs) && EveryIdRouted(g, rs, t)
    ensures m.Keys <= p.Keys
  {
    forall k | k in m ensures k in p {
      var id :| id in t && g.key(id) == k;
      var r :| r in rs && RouteAt(g, r, id, t[id]);
      var i :| 0 <= i < |rs| && rs[i] == r;
      assert rs[i].deployment in p;
    }
  }

  lemma BackedKeys(g: Reading, rs: seq<Route>, t: Table, m: map<Text, Option<Content>>, p: map<Text, Option<Content>>)
    requires Holds(g, m, t) && Keeps(p, rs) && EveryRouteBacked(g, rs, t)
    ensures forall k :: k in p ==> k in m && m[k] == p[k]
  {
    forall k | k in p ensures k in m && m[k] == p[k] {
      var i := IdPosition(rs, k);
      assert rs[i] in rs;
      var id :| id in t && RouteAt(g, rs[i], id, t[id]);
    }
  }

  lemma CapturedKeys(rs: seq<Route>, t: Table, m: map<Text, Option<Content>>, p: map<Text, Option<Content>>)
    requires Capturable(t) && Lists(rs, t) && Holds(Normally(), m, t) && Keeps(p, rs)
    ensures m.Keys <= p.Keys && Quiescent(Normally(), t)
  {
    CapturedIdsRouted(rs, t);
    RoutedKeys(Normally(), rs, t, m, p);
  }

  lemma CapturedValues(rs: seq<Route>, t: Table, m: map<Text, Option<Content>>, p: map<Text, Option<Content>>)
    requires Lists(rs, t) && Holds(Normally(), m, t) && Keeps(p, rs)
    ensures forall k :: k in p ==> k in m && m[k] == p[k]
  {
    CapturedRoutesBacked(rs, t);
    BackedKeys(Normally(), rs, t, m, p);
  }

  /** What the captured routes promise is what the captured router shows. */
  lemma CapturedPromises(rs: seq<Route>, t: Table)
    requires Capturable(t) && Describes(rs, t)
    ensures Quiescent(Normally(), t) && Distinct(Ids(rs))
    ensures Promised(rs) == Shown(Normally(), t)
  {
    SortedDistinct(Ids(rs));
    ListedPromises(rs, t);
  }

  lemma ListedPromises(rs: seq<Route>, t: Table)
    requires Capturable(t) && Lists(rs, t) && Distinct(Ids(rs))
    ensures Quiescent(Normally(), t)
    ensures Promised(rs) == Shown(Normally(), t)
  {
    ShownHolds(Normally(), t);
    PromisedIs(rs);
    CapturedAgree(rs, t, Shown(Normally(), t), Promised(rs));
  }

  lemma CapturedAgree(rs: seq<Route>, t: Table, m: map<Text, Option<Content>>, p: map<Text, Option<Content>>)
    requires Capturable(t) && Lists(rs, t) && Holds(Normally(), m, t) && Keeps(p, rs)
    ensures p == m && Quiescent(Normally(), t)
  {
    CapturedKeys(rs, t, m, p);
    CapturedValues(rs, t, m, p);
    SameMap(m, p);
  }

  /** A checkpoint captured from one router accepts another exactly if that one is
      quiescent and shows the same candidate, artifact and manifest under the same ids. */
  lemma CapturedAccepts(f: Format, cp: Checkpoint, t: Table, recovered: Table)
    requires HasShape(f) && (forall b :: IsHex64(f.sha(b)))
    requires Capturable(t) && Describes(cp.routes, t)
    requires cp == Checkpoint(f.checkpointSchema, cp.routes, |cp.routes|, ContentSha(f, cp.routes), true, false)
    ensures KeyDistinct(Normally(), t)
    ensures Coherent(f, cp) && Recovers(Normally(), cp.routes, recovered) <==>
            Quiescent(Normally(), recovered) && Shown(Normally(), recovered) == Shown(Normally(), t)
  {
    CapturedPromises(cp.routes, t);
    HexIsNormal(cp.sha);
  }

  // ---- generations ----

  ghost predicate Fresh(t: Table) {
    forall id :: id in t ==> t[id].active.generation == 1
  }

  /** The generation loop of `verify_recovery_generation_semantics`, behind the
      recomputed identity checks. */
  method VerifyGenerations(f: Format, cp: Checkpoint, router: VersionedArtifactRouter) returns (ok: bool)
    requires HasShape(f)
    ensures ok <==> && Coherent(f, cp) && Recovers(Normally(), cp.routes, router.deployments)
                    && (forall i :: 0 <= i < |cp.routes| ==> cp.routes[i].generation >= 1)
                    && Fresh(router.deployments)
  {
    ok := VerifyRecovered(f, cp, router);
    if !ok {
      return false;
    }
    var views := router.List();
    ListingIs(router.deployments);
    ok := GenerationLoop(Normally(), cp.routes, views, router.deployments);
  }

  method GenerationLoop(g: Reading, rs: seq<Route>, views: seq<View>, ghost t: Table) returns (ok: bool)
    requires IsListing(views, t) && Recovers(g, rs, t)
    ensures ok <==> (forall i :: 0 <= i < |rs| ==> rs[i].generation >= 1) && Fresh(t)
  {
    QuiescentViews(g, views, t);
    var byId := IndexById(g, views);
    ShownHolds(g, t);
    PromisedIs(rs);
    HeldIsIndexed(g, byId.value, views, Shown(g, t), t);
    assert byId.value.Keys == KeySet(Ids(rs));
    ok := CheckGenerations(rs, byId.value);
    IndexFresh(g, byId.value, views, t);
    AllGenerations(rs, byId.value);
  }

  method CheckGenerations(rs: seq<Route>, index: map<Text, Deployment>) returns (ok: bool)
    requires index.Keys == KeySet(Ids(rs))
    ensures ok <==> forall i :: 0 <= i < |rs| ==> rs[i].generation >= 1 && GenerationOf(index, rs[i].deployment) == 1
  {
    var i := 0;
    while i < |rs|
      invariant i <= |rs|
      invariant forall k :: 0 <= k < i ==> rs[k].generation >= 1 && GenerationOf(index, rs[k].deployment) == 1
    {
      if rs[i].generation < 1 || GenerationOf(index, rs[i].deployment) != 1 {
        return false;
      }
      i := i + 1;
    }
    return true;
  }

  /** The recovered generation; 0 stands for a missing deployment. */
  function GenerationOf(index: map<Text, Deployment>, id: Text): int {
    if id in index then index[id].active.generation else 0
  }

  lemma AllGenerations(rs: seq<Route>, index: map<Text, Deployment>)
    requires index.Keys == KeySet(Ids(rs))
    ensures (forall i :: 0 <= i < |rs| ==> GenerationOf(index, rs[i].deployment) == 1)
            <==> forall k :: k in index ==> index[k].active.generation == 1
  {
    if forall i :: 0 <= i < |rs| ==> GenerationOf(index, rs[i].deployment) == 1 {
      forall k | k in index ensures index[k].active.generation == 1 {
        var i := IdPosition(rs, k);
      }
    }
    if forall k :: k in index ==> index[k].active.generation == 1 {
      forall i | 0 <= i < |rs| ensures GenerationOf(index, rs[i].deployment) == 1 {
        assert Ids(rs)[i] in KeySet(Ids(rs));
      }
    }
  }

  lemma IndexFresh(g: Reading, index: map<Text, Deployment>, views: seq<View>, t: Table)
    requires IsListing(views, t) && Indexes(g, index, views)
    ensures Fresh(t) <==> forall k :: k in index ==> index[k].active.generation == 1
  {
    if Fresh(t) {
      forall k | k in index ensures index[k].active.generation == 1 {
        var i := ReadPosition(g, views, k);
      }
    }
    if forall k :: k in index ==> index[k].active.generation == 1 {
      forall id | id in t ensures t[id].active.generation == 1 {
        var i := PositionOf(views, t, id);
      }
    }
  }

  lemma {:induction false} NoneCounted(h: seq<Event>, i: nat)
    requires Activations(h) == 0 && Rollbacks(h) == 0 && i < |h|
    ensures !h[i].Activated? && !h[i].RolledBack?
  {
    if i < |h| - 1 {
      NoneCounted(h[..|h| - 1], i);
    }
  }

  /** Passing the generation loop means that no deployment was ever activated or rolled
      back since its bootstrap, and conversely. */
  lemma FreshMeansUntouched(t: Table)
    requires TableWellFormed(t)
    ensures Fresh(t) <==> forall id :: id in t ==> Activations(t[id].history) == 0 && Rollbacks(t[id].history) == 0
    ensures Fresh(t) ==> forall id, i :: id in t && 0 <= i < |t[id].history| ==>
                           !t[id].history[i].Activated? && !t[id].history[i].RolledBack?
  {
    forall id | id in t
      ensures t[id].active.generation == 1 <==> Activations(t[id].history) == 0 && Rollbacks(t[id].history) == 0
    {
      assert Counted(t[id]);
    }
    if Fresh(t) {
      forall id, i | id in t && 0 <= i < |t[id].history|
        ensures !t[id].history[i].Activated? && !t[id].history[i].RolledBack?
      {
        NoneCounted(t[id].history, i);
      }
    }
  }
}
