/** Checkpoints whose routes were changed under the digest they were captured with: what
    the digest tells apart, and that recovery, export and import refuse the rest. */
module Tampering {
  import opened Wrappers
  import opened Text
  import opened Json
  import opened JsonRoundTrip
  import opened Utf8
  import opened Records
  import opened Checkpoint
  import opened Interchange
  import Router

  // ---- what the digest covers ----

  /** The digests agree although the hashed bytes do not. */
  predicate Collide(f: Format, rs: seq<Route>, ts: seq<Route>)
    requires HasShape(f)
  {
    ContentBytes(f, rs) != ContentBytes(f, ts) && f.sha(ContentBytes(f, rs)) == f.sha(ContentBytes(f, ts))
  }

  /** A split surrogate pair and its joined character print alike. */
  ghost predicate PrintsJoined(f: Format) {
    forall v: Json :: Printable(v) ==> f.print_(MergeAll(v)) == f.print_(v)
  }

  lemma MergeContent(f: Format, rs: seq<Route>)
    requires HasShape(f) && Lawful(f)
    ensures var content := Record(f.contentKeys, [Arr(RouteJsons(f, rs)), Str(f.checkpointSchema)]);
            && Printable(content)
            && MergeAll(content) == Record(f.contentKeys, [Arr(RouteJsons(f, MergeRoutes(rs))), Str(f.checkpointSchema)])
  {
    MergeRouteList(f, rs);
    MergeIffWhole(f.checkpointSchema);
    MergeRecord(f.contentKeys,
                [Arr(RouteJsons(f, rs)), Str(f.checkpointSchema)],
                [Arr(RouteJsons(f, MergeRoutes(rs))), Str(f.checkpointSchema)]);
  }

  /** The object written for a route determines each of its five fields. */
  lemma RouteJsonInjective(f: Format, a: Route, b: Route)
    requires HasShape(f) && RouteJson(f, a) == RouteJson(f, b)
    ensures a == b
  {
    var x, y := RouteJson(f, a).members, RouteJson(f, b).members;
    assert x[0] == y[0] && x[1] == y[1] && x[2] == y[2] && x[3] == y[3] && x[4] == y[4];
  }

  lemma ContentInjective(f: Format, rs: seq<Route>, ts: seq<Route>)
    requires HasShape(f)
    requires Record(f.contentKeys, [Arr(RouteJsons(f, rs)), Str(f.checkpointSchema)])
             == Record(f.contentKeys, [Arr(RouteJsons(f, ts)), Str(f.checkpointSchema)])
    ensures rs == ts
  {
    var x := Record(f.contentKeys, [Arr(RouteJsons(f, rs)), Str(f.checkpointSchema)]).members[0].value.items;
    var y := Record(f.contentKeys, [Arr(RouteJsons(f, ts)), Str(f.checkpointSchema)]).members[0].value.items;
    assert x == RouteJsons(f, rs) && y == RouteJsons(f, ts);
    forall i | 0 <= i < |rs| ensures rs[i] == ts[i] {
      assert x[i] == y[i];
      RouteJsonInjective(f, rs[i], ts[i]);
    }
  }

  /** Unless the digest collides on the two contents, two lists of routes have the same
      digest exactly if joining their split surrogate pairs makes them one list: every
      field of every route is covered, and so are their number and order. */
  lemma SameDigestIff(f: Format, rs: seq<Route>, ts: seq<Route>)
    requires HasShape(f) && Lawful(f) && !Collide(f, rs, ts)
    ensures ContentSha(f, rs) == ContentSha(f, ts) ==> MergeRoutes(rs) == MergeRoutes(ts)
    ensures PrintsJoined(f) && MergeRoutes(rs) == MergeRoutes(ts) ==> ContentSha(f, rs) == ContentSha(f, ts)
  {
    MergeContent(f, rs);
    MergeContent(f, ts);
    if ContentSha(f, rs) == ContentSha(f, ts) {
      assert ContentBytes(f, rs) == ContentBytes(f, ts);
      ContentInjective(f, MergeRoutes(rs), MergeRoutes(ts));
    }
  }

  /** Lists of routes in normal form without split pairs are determined by their digest. */
  lemma DigestDeterminesRoutes(f: Format, rs: seq<Route>, ts: seq<Route>)
    requires HasShape(f) && Lawful(f) && !Collide(f, rs, ts)
    requires NormalAll(rs) == Some(rs) && WholeRoutes(rs)
    requires NormalAll(ts) == Some(ts) && WholeRoutes(ts)
    ensures ContentSha(f, rs) == ContentSha(f, ts) <==> rs == ts
  {
    SameDigestIff(f, rs, ts);
    WholeRoutesIff(rs);
    WholeRoutesIff(ts);
  }

  // ---- changed routes under the old digest ----

  /** `changed` carries the digest `cp` was captured with. */
  predicate UnderDigestOf(changed: Checkpoint, cp: Checkpoint) {
    FoldedDigest(changed.sha) == Some(cp.sha)
  }

  /** No recovered router makes up for routes that differ from those captured in any
      field, in number or in order. */
  lemma ChangedNotCoherent(f: Format, cp: Checkpoint, changed: Checkpoint)
    requires HasShape(f) && Lawful(f)
    requires cp.sha == ContentSha(f, cp.routes) && NormalAll(cp.routes) == Some(cp.routes) && WholeRoutes(cp.routes)
    requires UnderDigestOf(changed, cp) && !Collide(f, cp.routes, changed.routes)
    ensures MergeRoutes(changed.routes) != cp.routes ==> !Coherent(f, changed)
  {
    SameDigestIff(f, cp.routes, changed.routes);
    WholeRoutesIff(cp.routes);
  }

  /** Export looks at the normalised routes. */
  lemma ChangedNotExported(f: Format, cp: Checkpoint, changed: Checkpoint)
    requires HasShape(f) && Lawful(f)
    requires cp.sha == ContentSha(f, cp.routes) && NormalAll(cp.routes) == Some(cp.routes) && WholeRoutes(cp.routes)
    requires UnderDigestOf(changed, cp)
    requires NormalAll(changed.routes).Some? ==> !Collide(f, cp.routes, NormalAll(changed.routes).value)
    ensures Export(f, changed).Some? ==>
              NormalAll(changed.routes).Some? && MergeRoutes(NormalAll(changed.routes).value) == cp.routes
  {
    if NormalAll(changed.routes).Some? {
      SameDigestIff(f, cp.routes, NormalAll(changed.routes).value);
      WholeRoutesIff(cp.routes);
    }
  }

  /** Whatever bytes import accepts under the old digest, it returns the captured routes. */
  lemma ChangedNotImported(f: Format, cp: Checkpoint, data: Bytes, changed: Checkpoint)
    requires HasShape(f) && Lawful(f)
    requires cp.sha == ContentSha(f, cp.routes) && NormalAll(cp.routes) == Some(cp.routes) && WholeRoutes(cp.routes)
    requires UnderDigestOf(changed, cp) && !Collide(f, cp.routes, changed.routes)
    ensures Import(f, data) == Some(changed) ==> changed.routes == cp.routes
  {
    if Import(f, data) == Some(changed) {
      ImportedIffExported(f, data, changed);
      DigestDeterminesRoutes(f, cp.routes, changed.routes);
    }
  }

  /** A checkpoint captured from a router, without split pairs, whose routes were then
      replaced by others without split pairs while the digest was kept: refused against
      every recovered router, not exported, and not what import returns for any bytes. */
  lemma ChangedRoutesRefused(f: Format, cp: Checkpoint, t: Router.Table, changed: Checkpoint,
                             recovered: Router.Table, data: Bytes)
    requires HasShape(f) && Lawful(f) && Capturable(t) && Describes(cp.routes, t) && WholeRoutes(cp.routes)
    requires cp.sha == ContentSha(f, cp.routes)
    requires changed.sha == cp.sha && changed.routes != cp.routes
    requires NormalAll(changed.routes) == Some(changed.routes) && WholeRoutes(changed.routes)
    requires !Collide(f, cp.routes, changed.routes)
    ensures !(Coherent(f, changed) && Recovers(Normally(), changed.routes, recovered))
    ensures Export(f, changed).None?
    ensures Import(f, data) != Some(changed)
  {
    CapturedNormal(cp.routes, t);
    HexIsNormal(cp.sha);
    WholeRoutesIff(changed.routes);
    ChangedNotCoherent(f, cp, changed);
    ChangedNotExported(f, cp, changed);
    ChangedNotImported(f, cp, data, changed);
  }

  // ---- the format the program uses ----

  /** With the program's printer the digest tells lists of routes apart exactly up to
      joined pairs. */
  lemma InterchangePrintsJoined(sha: Bytes -> Text)
    ensures PrintsJoined(InterchangeFormat(sha))
  {
    forall v: Json | Printable(v) ensures DumpsBytes(MergeAll(v)) == DumpsBytes(v) {
      MergedPrintsAlike(v, []);
    }
  }
}
