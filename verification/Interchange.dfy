/** Checkpoints as canonical bytes: export, strict import, and exactly when the second
    undoes the first. */
module Interchange {
  import opened Wrappers
  import opened Text
  import opened Json
  import opened JsonRoundTrip
  import opened Utf8
  import opened Records
  import opened Checkpoint
  import Router

  // ---- export ----

  function CheckpointJson(f: Format, rs: seq<Route>, count: int, sha: Text): Json
    requires HasShape(f)
  {
    Record(f.checkpointKeys, [Bool(false), Str(sha), Bool(true), Int(count), Arr(RouteJsons(f, rs)), Str(f.checkpointSchema)])
  }

  function EnvelopeJson(f: Format, rs: seq<Route>, count: int, sha: Text): Json
    requires HasShape(f)
  {
    Record(f.envelopeKeys, [Bool(false), CheckpointJson(f, rs, count, sha), Str(f.schema)])
  }

  /** `export_recovery_checkpoint`; None stands for the ValueErrors. */
  function Export(f: Format, cp: Checkpoint): Option<Bytes>
    requires HasShape(f)
  {
    if cp.schema != f.checkpointSchema || !cp.quiescent || cp.controlAllowed || cp.routeCount != |cp.routes| then None
    else
      var rs := NormalAll(cp.routes);
      if rs.None? || !Sorted(Ids(rs.value)) then None
      else if FoldedDigest(cp.sha) != Some(ContentSha(f, rs.value)) then None
      else Some(f.print_(EnvelopeJson(f, rs.value, cp.routeCount, ContentSha(f, rs.value))))
  }

  /** The route with its ids stripped and its digests folded; its generation is positive. */
  ghost predicate Normalised(r: Route, n: Route) {
    && n.deployment == Strip(r.deployment) && n.deployment != []
    && n.candidate == Strip(r.candidate) && n.candidate != []
    && FoldedDigest(r.artifact) == Some(n.artifact)
    && (if r.manifest.None? then n.manifest.None? else n.manifest.Some? && FoldedDigest(r.manifest.value) == n.manifest)
    && n.generation == r.generation && r.generation >= 1
  }

  /** What is exported: the normalised routes, in strictly ascending id order, under their own digest. */
  ghost predicate Exportable(f: Format, cp: Checkpoint, rs: seq<Route>)
    requires HasShape(f)
  {
    && cp.schema == f.checkpointSchema && cp.quiescent && !cp.controlAllowed && cp.routeCount == |cp.routes|
    && |rs| == |cp.routes|
    && (forall i :: 0 <= i < |rs| ==> Normalised(cp.routes[i], rs[i]))
    && (forall i, j :: 0 <= i < j < |rs| ==> Less(rs[i].deployment, rs[j].deployment))
    && FoldedDigest(cp.sha) == Some(ContentSha(f, rs))
  }

  lemma NormalisedIff(r: Route, n: Route)
    ensures Normalised(r, n) <==> Normal(r) == Some(n)
  {
  }

  lemma NormalisedAll(rs: seq<Route>, ns: seq<Route>)
    ensures NormalAll(rs) == Some(ns) <==> |ns| == |rs| && forall i :: 0 <= i < |rs| ==> Normalised(rs[i], ns[i])
  {
    NormalAllAt(rs);
    if |ns| == |rs| {
      forall i | 0 <= i < |rs| ensures Normalised(rs[i], ns[i]) <==> Normal(rs[i]) == Some(ns[i]) {
        NormalisedIff(rs[i], ns[i]);
      }
      if forall i :: 0 <= i < |rs| ==> Normalised(rs[i], ns[i]) {
        assert NormalAll(rs).value == ns;
      }
    }
  }

  lemma ExportableIff(f: Format, cp: Checkpoint, rs: seq<Route>)
    requires HasShape(f)
    ensures Exportable(f, cp, rs) <==> Export(f, cp).Some? && NormalAll(cp.routes) == Some(rs)
    ensures Exportable(f, cp, rs) ==> Export(f, cp) == Some(f.print_(EnvelopeJson(f, rs, |rs|, ContentSha(f, rs))))
  {
    NormalisedAll(cp.routes, rs);
    AscendingIds(rs);
  }

  method ExportCheckpoint(f: Format, cp: Checkpoint) returns (data: Option<Bytes>)
    requires HasShape(f)
    ensures data == Export(f, cp)
    ensures data.Some? <==> exists rs :: Exportable(f, cp, rs)
    ensures forall rs :: Exportable(f, cp, rs) ==>
                           data == Some(f.print_(EnvelopeJson(f, rs, |rs|, ContentSha(f, rs))))
  {
    forall rs
      ensures Exportable(f, cp, rs) <==> Export(f, cp).Some? && NormalAll(cp.routes) == Some(rs)
      ensures Exportable(f, cp, rs) ==> Export(f, cp) == Some(f.print_(EnvelopeJson(f, rs, |rs|, ContentSha(f, rs))))
    {
      ExportableIff(f, cp, rs);
    }
    if cp.schema != f.checkpointSchema || !cp.quiescent || cp.controlAllowed || cp.routeCount != |cp.routes| {
      return None;
    }
    var routes := NormalizeRoutes(cp.routes);
    if routes.None? || !Sorted(Ids(routes.value)) {
      return None;
    }
    var expected := ContentSha(f, routes.value);
    if FoldedDigest(cp.sha) != Some(expected) {
      return None;
    }
    return Some(f.print_(EnvelopeJson(f, routes.value, cp.routeCount, expected)));
  }

  /** The loop of `_checkpoint_payload`. */
  method NormalizeRoutes(rs: seq<Route>) returns (routes: Option<seq<Route>>)
    ensures routes == NormalAll(rs)
  {
    var sofar := [];
    var i := 0;
    while i < |rs|
      invariant i <= |rs|
      invariant NormalAll(rs[..i]) == Some(sofar)
    {
      assert rs[..i + 1][..i] == rs[..i];
      var r := Normal(rs[i]);
      if r.None? {
        NotNormalAll(rs, i);
        return None;
      }
      sofar := sofar + [r.value];
      i := i + 1;
    }
    assert rs[..i] == rs;
    return Some(sofar);
  }

  lemma {:induction false} NotNormalAll(rs: seq<Route>, i: nat)
    requires i < |rs| && Normal(rs[i]).None?
    ensures NormalAll(rs).None?
  {
    if i < |rs| - 1 {
      NotNormalAll(rs[..|rs| - 1], i);
    }
  }

  // ---- import ----

  /** One item of the route list. */
  function ReadRoute(f: Format, v: Json): Option<Route>
    requires HasShape(f)
  {
    var fields := Fields(v, f.routeKeys);
    if fields.None? then None
    else
      var artifact, candidate, deployment, generation, manifest :=
        fields.value[0], fields.value[1], fields.value[2], fields.value[3], fields.value[4];
      if !generation.Int? || !deployment.Str? || !candidate.Str? || !artifact.Str? || !(manifest.Null? || manifest.Str?) then None
      else Normal(Route(deployment.s, candidate.s, artifact.s, if manifest.Null? then None else Some(manifest.s), generation.n))
  }

  function ReadRoutes(f: Format, items: seq<Json>): Option<seq<Route>>
    requires HasShape(f)
  {
    if items == [] then Some([])
    else
      var before, last := ReadRoutes(f, items[..|items| - 1]), ReadRoute(f, items[|items| - 1]);
      if before.None? || last.None? then None else Some(before.value + [last.value])
  }

  /** The `checkpoint` object, up to its list of routes. */
  function ReadHeader(f: Format, v: Json): Option<(seq<Json>, Text)>
    requires HasShape(f)
  {
    var fields := Fields(v, f.checkpointKeys);
    if fields.None? then None
    else
      var control, sha, quiescent, count, routes, schema :=
        fields.value[0], fields.value[1], fields.value[2], fields.value[3], fields.value[4], fields.value[5];
      if schema != Str(f.checkpointSchema) || quiescent != Bool(true) || control != Bool(false) then None
      else if !count.Int? || count.n < 0 || !routes.Arr? || |routes.items| != count.n then None
      else if !sha.Str? || FoldedDigest(sha.s).None? then None
      else Some((routes.items, FoldedDigest(sha.s).value))
  }

  /** The checkpoint written in a decoded document. */
  function ReadEnvelope(f: Format, v: Json): Option<Checkpoint>
    requires HasShape(f)
  {
    var fields := Fields(v, f.envelopeKeys);
    if fields.None? || fields.value[2] != Str(f.schema) || fields.value[0] != Bool(false) then None
    else
      var header := ReadHeader(f, fields.value[1]);
      if header.None? then None
      else
        var rs := ReadRoutes(f, header.value.0);
        if rs.None? then None
        else Some(Checkpoint(f.checkpointSchema, rs.value, |header.value.0|, header.value.1, true, false))
  }

  /** `import_recovery_checkpoint` */
  function Import(f: Format, data: Bytes): Option<Checkpoint>
    requires HasShape(f)
  {
    var raw := f.parse(data);
    if raw.None? then None
    else
      var cp := ReadEnvelope(f, raw.value);
      if cp.None? || Export(f, cp.value) != Some(data) then None else cp
  }

  /** The checkpoint is exportable as it stands, free of split pairs, and these are its bytes. */
  ghost predicate ImportedAs(f: Format, data: Bytes, cp: Checkpoint)
    requires HasShape(f)
  {
    && Exportable(f, cp, cp.routes) && WholeRoutes(cp.routes)
    && data == f.print_(EnvelopeJson(f, cp.routes, |cp.routes|, cp.sha))
  }

  lemma ImportMeans(f: Format, data: Bytes)
    requires HasShape(f)
    ensures Lawful(f) && Import(f, data).Some? ==> ImportedAs(f, data, Import(f, data).value)
  {
    if Lawful(f) && Import(f, data).Some? {
      ImportedIffExported(f, data, Import(f, data).value);
      ExportableIff(f, Import(f, data).value, Import(f, data).value.routes);
      ExportedBytes(f, Import(f, data).value);
    }
  }

  method ImportCheckpoint(f: Format, data: Bytes) returns (res: Option<Checkpoint>)
    requires HasShape(f)
    ensures res == Import(f, data)
    ensures Lawful(f) && res.Some? ==> ImportedAs(f, data, res.value)
  {
    ImportMeans(f, data);
    var raw := f.parse(data);
    if raw.None? {
      return None;
    }
    var envelope := Fields(raw.value, f.envelopeKeys);
    if envelope.None? || envelope.value[2] != Str(f.schema) || envelope.value[0] != Bool(false) {
      return None;
    }
    var header := ReadHeader(f, envelope.value[1]);
    if header.None? {
      return None;
    }
    var routes := ReadRouteList(f, header.value.0);
    if routes.None? {
      return None;
    }
    var checkpoint := Checkpoint(f.checkpointSchema, routes.value, |header.value.0|, header.value.1, true, false);
    var canonical := ExportCheckpoint(f, checkpoint);
    if canonical != Some(data) {
      return None;
    }
    return Some(checkpoint);
  }

  /** The loop of `import_recovery_checkpoint`. */
  method ReadRouteList(f: Format, items: seq<Json>) returns (routes: Option<seq<Route>>)
    requires HasShape(f)
    ensures routes == ReadRoutes(f, items)
  {
    var sofar := [];
    var i := 0;
    while i < |items|
      invariant i <= |items|
      invariant ReadRoutes(f, items[..i]) == Some(sofar)
    {
      var r := ReadRoute(f, items[i]);
      if r.None? {
        UnreadRoute(f, items, i);
        return None;
      }
      OneMoreRead(f, items, i, sofar, r.value);
      sofar := sofar + [r.value];
      i := i + 1;
    }
    assert items[..i] == items;
    return Some(sofar);
  }

  lemma OneMoreRead(f: Format, items: seq<Json>, i: nat, sofar: seq<Route>, r: Route)
    requires HasShape(f) && i < |items| && ReadRoutes(f, items[..i]) == Some(sofar) && ReadRoute(f, items[i]) == Some(r)
    ensures ReadRoutes(f, items[..i + 1]) == Some(sofar + [r])
  {
    assert items[..i + 1][..i] == items[..i];
  }

  lemma {:induction false} UnreadRoute(f: Format, items: seq<Json>, i: nat)
    requires HasShape(f) && i < |items| && ReadRoute(f, items[i]).None?
    ensures ReadRoutes(f, items).None?
  {
    if i < |items| - 1 {
      UnreadRoute(f, items[..|items| - 1], i);
    }
  }

  // ---- what the format must satisfy ----

  /** Parsing undoes printing up to split surrogate pairs, digests are digests, and the
      keys are in printing order. */
  ghost predicate Lawful(f: Format) {
    && (forall v: Json :: Printable(v) ==> f.parse(f.print_(v)) == Some(MergeAll(v)))
    && (forall b: Bytes :: IsHex64(f.sha(b)))
    && Whole(f.schema) && Whole(f.checkpointSchema)
    && GoodKeys(f.envelopeKeys, 3) && GoodKeys(f.checkpointKeys, 6)
    && GoodKeys(f.contentKeys, 2) && GoodKeys(f.routeKeys, 5)
  }

  // ---- reading what was written ----

  lemma ReadWrittenRoute(f: Format, r: Route)
    requires HasShape(f) && Sorted(f.routeKeys)
    ensures ReadRoute(f, RouteJson(f, r)) == Normal(r)
  {
    SortedDistinct(f.routeKeys);
    RecordFields(f.routeKeys, [Str(r.artifact), Str(r.candidate), Str(r.deployment), Int(r.generation),
                               if r.manifest.Some? then Str(r.manifest.value) else Null]);
  }

  lemma {:induction false} ReadWrittenRoutes(f: Format, rs: seq<Route>)
    requires HasShape(f) && Sorted(f.routeKeys)
    ensures ReadRoutes(f, RouteJsons(f, rs)) == NormalAll(rs)
  {
    if rs != [] {
      ReadWrittenRoutes(f, rs[..|rs| - 1]);
      ReadWrittenRoute(f, rs[|rs| - 1]);
      assert RouteJsons(f, rs)[..|rs| - 1] == RouteJsons(f, rs[..|rs| - 1]);
    }
  }

  lemma ReadWrittenHeader(f: Format, rs: seq<Route>, sha: Text)
    requires HasShape(f) && Sorted(f.checkpointKeys) && IsHex64(sha)
    ensures ReadHeader(f, CheckpointJson(f, rs, |rs|, sha)) == Some((RouteJsons(f, rs), sha))
  {
    SortedDistinct(f.checkpointKeys);
    HexIsNormal(sha);
    RecordFields(f.checkpointKeys,
                 [Bool(false), Str(sha), Bool(true), Int(|rs|), Arr(RouteJsons(f, rs)), Str(f.checkpointSchema)]);
  }

  lemma ReadWrittenEnvelope(f: Format, rs: seq<Route>, sha: Text)
    requires HasShape(f) && Sorted(f.envelopeKeys) && Sorted(f.checkpointKeys) && Sorted(f.routeKeys) && IsHex64(sha)
    ensures ReadEnvelope(f, EnvelopeJson(f, rs, |rs|, sha)) ==
            if NormalAll(rs).None? then None
            else Some(Checkpoint(f.checkpointSchema, NormalAll(rs).value, |rs|, sha, true, false))
  {
    SortedDistinct(f.envelopeKeys);
    RecordFields(f.envelopeKeys, [Bool(false), CheckpointJson(f, rs, |rs|, sha), Str(f.schema)]);
    ReadWrittenHeader(f, rs, sha);
    ReadWrittenRoutes(f, rs);
  }

  // ---- what a round trip through JSON does to the routes ----

  function MergeRoute(r: Route): Route {
    r.(deployment := Merge(r.deployment), candidate := Merge(r.candidate), artifact := Merge(r.artifact),
       manifest := if r.manifest.Some? then Some(Merge(r.manifest.value)) else None)
  }

  function MergeRoutes(rs: seq<Route>): (merged: seq<Route>)
    ensures |merged| == |rs| && forall i :: 0 <= i < |rs| ==> merged[i] == MergeRoute(rs[i])
  {
    seq(|rs|, i requires 0 <= i < |rs| => MergeRoute(rs[i]))
  }

  /** The values of a route, in the order of its keys. */
  function RouteValues(r: Route): (values: seq<Json>)
    ensures |values| == 5
  {
    [Str(r.artifact), Str(r.candidate), Str(r.deployment), Int(r.generation),
     if r.manifest.Some? then Str(r.manifest.value) else Null]
  }

  lemma MergeRouteJson(f: Format, r: Route)
    requires HasShape(f) && GoodKeys(f.routeKeys, 5)
    ensures MergeAll(RouteJson(f, r)) == RouteJson(f, MergeRoute(r))
    ensures Printable(RouteJson(f, r))
  {
    MergeRecord(f.routeKeys, RouteValues(r), RouteValues(MergeRoute(r)));
  }

  lemma MergeRouteList(f: Format, rs: seq<Route>)
    requires HasShape(f) && GoodKeys(f.routeKeys, 5)
    ensures MergeAll(Arr(RouteJsons(f, rs))) == Arr(RouteJsons(f, MergeRoutes(rs)))
    ensures Printable(Arr(RouteJsons(f, rs)))
  {
    var items := RouteJsons(f, rs);
    forall i | 0 <= i < |items|
      ensures MergeItems(items)[i] == RouteJson(f, MergeRoutes(rs)[i]) && Printable(items[i])
    {
      MergeItemsAt(items, i);
      MergeRouteJson(f, rs[i]);
    }
    assert MergeItems(items) == RouteJsons(f, MergeRoutes(rs));
  }

  lemma MergeCheckpointJson(f: Format, rs: seq<Route>, count: int, sha: Text)
    requires HasShape(f) && GoodKeys(f.routeKeys, 5) && GoodKeys(f.checkpointKeys, 6) && Whole(f.checkpointSchema) && IsHex64(sha)
    ensures MergeAll(CheckpointJson(f, rs, count, sha)) == CheckpointJson(f, MergeRoutes(rs), count, sha)
    ensures Printable(CheckpointJson(f, rs, count, sha))
  {
    MergeRouteList(f, rs);
    HexIsWhole(sha);
    MergeIffWhole(sha);
    MergeIffWhole(f.checkpointSchema);
    MergeRecord(f.checkpointKeys,
                [Bool(false), Str(sha), Bool(true), Int(count), Arr(RouteJsons(f, rs)), Str(f.checkpointSchema)],
                [Bool(false), Str(sha), Bool(true), Int(count), Arr(RouteJsons(f, MergeRoutes(rs))), Str(f.checkpointSchema)]);
  }

  lemma MergeEnvelopeJson(f: Format, rs: seq<Route>, count: int, sha: Text)
    requires HasShape(f) && Lawful(f) && IsHex64(sha)
    ensures MergeAll(EnvelopeJson(f, rs, count, sha)) == EnvelopeJson(f, MergeRoutes(rs), count, sha)
    ensures Printable(EnvelopeJson(f, rs, count, sha))
  {
    MergeCheckpointJson(f, rs, count, sha);
    MergeIffWhole(f.schema);
    MergeRecord(f.envelopeKeys,
                [Bool(false), CheckpointJson(f, rs, count, sha), Str(f.schema)],
                [Bool(false), CheckpointJson(f, MergeRoutes(rs), count, sha), Str(f.schema)]);
  }

  // ---- normal and whole checkpoints ----

  predicate WholeRoute(r: Route) {
    Whole(r.deployment) && Whole(r.candidate)
  }

  predicate WholeRoutes(rs: seq<Route>) {
    forall i :: 0 <= i < |rs| ==> WholeRoute(rs[i])
  }

  /** Stripped ids and lower-case digests throughout. */
  predicate IsNormal(cp: Checkpoint) {
    NormalAll(cp.routes) == Some(cp.routes) && FoldedDigest(cp.sha) == Some(cp.sha)
  }

  lemma StripShrinks(s: Text)
    ensures |Strip(s)| <= |s|
    ensures |Strip(s)| == |s| ==> Strip(s) == s
  {
    assert StripRight(StripLeft(s)) <= StripLeft(s);
    if |StripLeft(s)| == |s| { assert StripLeft(s) == s; }
  }

  lemma {:induction false} MergeShrinks(t: Text)
    ensures |Merge(t)| == |t| ==> Merge(t) == t
  {
    if |t| >= 2 && IsHigh(t[0]) && IsLow(t[1]) {
      assert |Merge(t[2..])| <= |t| - 2;
    } else if t != [] {
      MergeShrinks(t[1..]);
      assert t == [t[0]] + t[1..];
    }
  }

  /** A text that survives joining and stripping had no split pair. */
  lemma SurvivesWhole(t: Text)
    requires NonBlank(Merge(t)) == Some(t)
    ensures Whole(t)
  {
    StripShrinks(Merge(t));
    MergeShrinks(t);
    MergeIffWhole(t);
  }

  lemma WholeRouteIff(r: Route)
    requires Normal(r) == Some(r)
    ensures WholeRoute(r) ==> MergeRoute(r) == r
    ensures Normal(MergeRoute(r)) == Some(r) ==> WholeRoute(r)
  {
    if WholeRoute(r) {
      MergeIffWhole(r.deployment);
      MergeIffWhole(r.candidate);
      DigestWhole(r.artifact);
      if r.manifest.Some? { DigestWhole(r.manifest.value); }
    }
    if Normal(MergeRoute(r)) == Some(r) {
      SurvivesWhole(r.deployment);
      SurvivesWhole(r.candidate);
    }
  }

  lemma DigestWhole(s: Text)
    requires FoldedDigest(s) == Some(s)
    ensures Merge(s) == s
  {
    HexIsWhole(s);
    MergeIffWhole(s);
  }

  lemma {:induction false} WholeRoutesIff(rs: seq<Route>)
    requires NormalAll(rs) == Some(rs)
    ensures NormalAll(MergeRoutes(rs)) == Some(rs) <==> WholeRoutes(rs)
    ensures WholeRoutes(rs) ==> MergeRoutes(rs) == rs
  {
    if rs != [] {
      var init, last := rs[..|rs| - 1], rs[|rs| - 1];
      assert rs == init + [last];
      WholeRoutesIff(init);
      WholeRouteIff(last);
      WholeSplit(rs);
      assert MergeRoutes(rs) == MergeRoutes(init) + [MergeRoute(last)];
      SnocNormal(MergeRoutes(init), MergeRoute(last), init, last);
    }
  }

  lemma SnocNormal(rs: seq<Route>, r: Route, init: seq<Route>, last: Route)
    ensures NormalAll(rs + [r]) == Some(init + [last]) <==> NormalAll(rs) == Some(init) && Normal(r) == Some(last)
  {
    assert (rs + [r])[..|rs|] == rs;
    if NormalAll(rs).Some? && Normal(r).Some? {
      SnocEqual(NormalAll(rs).value, Normal(r).value, init, last);
    }
  }

  lemma SnocEqual(x: seq<Route>, y: Route, init: seq<Route>, last: Route)
    ensures x + [y] == init + [last] <==> x == init && y == last
  {
    if x + [y] == init + [last] {
      assert |x + [y]| == |x| + 1 && |init + [last]| == |init| + 1;
      assert x == (x + [y])[..|x|] && init == (init + [last])[..|init|];
      assert y == (x + [y])[|x|] && last == (init + [last])[|init|];
    }
  }

  lemma WholeSplit(rs: seq<Route>)
    requires rs != []
    ensures WholeRoutes(rs) <==> WholeRoutes(rs[..|rs| - 1]) && WholeRoute(rs[|rs| - 1])
  {
    var init := rs[..|rs| - 1];
    if WholeRoutes(rs) {
      forall i | 0 <= i < |init| ensures WholeRoute(init[i]) {
        assert WholeRoute(rs[i]);
      }
    }
    if WholeRoutes(init) && WholeRoute(rs[|rs| - 1]) {
      forall i | 0 <= i < |rs| ensures WholeRoute(rs[i]) {
        if i < |init| { assert WholeRoute(init[i]); }
      }
    }
  }

  lemma {:induction false} ReadRoutesNormal(f: Format, items: seq<Json>)
    requires HasShape(f)
    ensures ReadRoutes(f, items).Some? ==>
              NormalAll(ReadRoutes(f, items).value) == ReadRoutes(f, items) && |ReadRoutes(f, items).value| == |items|
  {
    if items != [] && ReadRoutes(f, items).Some? {
      ReadRoutesNormal(f, items[..|items| - 1]);
      ReadRouteNormal(f, items[|items| - 1]);
      var rs := ReadRoutes(f, items).value;
      assert rs[..|rs| - 1] == ReadRoutes(f, items[..|items| - 1]).value;
    }
  }

  lemma ReadRouteNormal(f: Format, v: Json)
    requires HasShape(f)
    ensures var r := ReadRoute(f, v); r.Some? ==> Normal(r.value) == r
  {
    var fields := Fields(v, f.routeKeys);
    if ReadRoute(f, v).Some? {
      NormalTwice(Route(fields.value[2].s, fields.value[1].s, fields.value[0].s,
                        if fields.value[4].Null? then None else Some(fields.value[4].s), fields.value[3].n));
    }
  }

  lemma ReadEnvelopeNormal(f: Format, v: Json)
    requires HasShape(f)
    ensures ReadEnvelope(f, v).Some? ==> IsNormal(ReadEnvelope(f, v).value)
  {
    if ReadEnvelope(f, v).Some? {
      var header := ReadHeader(f, Fields(v, f.envelopeKeys).value[1]);
      ReadRoutesNormal(f, header.value.0);
      HeaderDigest(f, Fields(v, f.envelopeKeys).value[1]);
    }
  }

  lemma HeaderDigest(f: Format, v: Json)
    requires HasShape(f)
    ensures ReadHeader(f, v).Some? ==> FoldedDigest(ReadHeader(f, v).value.1) == Some(ReadHeader(f, v).value.1)
  {
    if ReadHeader(f, v).Some? {
      HexIsNormal(ReadHeader(f, v).value.1);
    }
  }

  // ---- the theorems ----

  /** The bytes an exportable normal checkpoint is printed as. */
  lemma ExportedBytes(f: Format, cp: Checkpoint)
    requires HasShape(f) && IsNormal(cp) && Export(f, cp).Some?
    ensures cp.sha == ContentSha(f, cp.routes)
    ensures Export(f, cp).value == f.print_(EnvelopeJson(f, cp.routes, |cp.routes|, cp.sha))
    ensures cp == Checkpoint(f.checkpointSchema, cp.routes, |cp.routes|, cp.sha, true, false)
  {
  }

  lemma ReadBack(f: Format, cp: Checkpoint)
    requires HasShape(f) && Lawful(f) && IsNormal(cp) && Export(f, cp).Some?
    ensures f.parse(Export(f, cp).value).Some?
    ensures ReadEnvelope(f, f.parse(Export(f, cp).value).value) == Some(cp) <==> WholeRoutes(cp.routes)
  {
    ExportedBytes(f, cp);
    var v := EnvelopeJson(f, cp.routes, |cp.routes|, cp.sha);
    MergeEnvelopeJson(f, cp.routes, |cp.routes|, cp.sha);
    assert f.parse(f.print_(v)) == Some(MergeAll(v));
    ReadWrittenEnvelope(f, MergeRoutes(cp.routes), cp.sha);
    WholeRoutesIff(cp.routes);
  }

  /** Exactly the exports of normal checkpoints without split surrogate pairs are
      imported, each as its own checkpoint: import accepts bytes only if exporting its
      result gives those same bytes. */
  lemma ImportedIffExported(f: Format, data: Bytes, cp: Checkpoint)
    requires HasShape(f) && Lawful(f)
    ensures Import(f, data) == Some(cp) <==>
            Export(f, cp) == Some(data) && IsNormal(cp) && WholeRoutes(cp.routes)
  {
    if Import(f, data) == Some(cp) {
      ReadEnvelopeNormal(f, f.parse(data).value);
      ReadBack(f, cp);
    }
    if Export(f, cp) == Some(data) && IsNormal(cp) && WholeRoutes(cp.routes) {
      ReadBack(f, cp);
    }
  }

  /** A captured checkpoint can always be exported. It survives export and import
      unchanged exactly if no id or candidate in it has a split surrogate pair. */
  lemma CapturedRoundTrip(f: Format, cp: Checkpoint, t: Router.Table)
    requires HasShape(f) && Lawful(f) && Capturable(t) && Describes(cp.routes, t)
    requires cp == Checkpoint(f.checkpointSchema, cp.routes, |cp.routes|, ContentSha(f, cp.routes), true, false)
    ensures Export(f, cp).Some? && IsNormal(cp)
    ensures Import(f, Export(f, cp).value) == Some(cp) <==> WholeRoutes(cp.routes)
  {
    CapturedNormal(cp.routes, t);
    HexIsNormal(cp.sha);
    ImportedIffExported(f, Export(f, cp).value, cp);
  }

  lemma CapturedRouteNormal(r: Route, t: Router.Table)
    requires IsRouteOf(r, t)
    ensures Normal(r) == Some(r)
  {
    var id :| id in t && RouteOf(id, t[id]) == Some(r);
    var d := t[id];
    NormalTwice(Route(id, d.active.candidate, d.active.artifact, d.active.manifest, d.active.generation));
  }

  lemma ListedNormal(rs: seq<Route>, t: Router.Table)
    requires Lists(rs, t)
    ensures NormalAll(rs) == Some(rs)
  {
    forall i | 0 <= i < |rs| ensures Normal(rs[i]) == Some(rs[i]) {
      assert rs[i] in rs;
      CapturedRouteNormal(rs[i], t);
    }
    NormalAllAt(rs);
    assert NormalAll(rs).value == rs;
  }

  lemma CapturedNormal(rs: seq<Route>, t: Router.Table)
    requires Describes(rs, t)
    ensures NormalAll(rs) == Some(rs)
  {
    ListedNormal(rs, t);
  }

  lemma SplitIdStays(id: Text)
    requires id == [0xD800, 0xDC00]
    ensures Strip(id) == id && !Whole(id)
  {
    StripIsStripped(id);
    assert SplitPairAt(id, 0);
  }

  lemma RouteIsListed(rs: seq<Route>, t: Router.Table, id: Text) returns (i: nat)
    requires Capturable(t) && Describes(rs, t) && id in t
    ensures i < |rs| && rs[i].deployment == Strip(id)
  {
    var r := RouteOf(id, t[id]).value;
    assert IsRouteOf(r, t);
    i :| 0 <= i < |rs| && rs[i] == r;
  }

  /** One deployment called U+D800 U+DC00 is captured and exported, and its bytes do not
      import as the checkpoint that was captured. */
  lemma SplitPairIdIsLost(f: Format, cp: Checkpoint, t: Router.Table, id: Text)
    requires HasShape(f) && Lawful(f) && Capturable(t) && Describes(cp.routes, t)
    requires cp == Checkpoint(f.checkpointSchema, cp.routes, |cp.routes|, ContentSha(f, cp.routes), true, false)
    requires id == [0xD800, 0xDC00] && id in t
    ensures Export(f, cp).Some? && Import(f, Export(f, cp).value) != Some(cp)
  {
    CapturedRoundTrip(f, cp, t);
    var i := RouteIsListed(cp.routes, t, id);
    SplitIdStays(id);
    assert !WholeRoute(cp.routes[i]);
  }

  // ---- the format the program writes and reads ----

  function ParseBytes(b: Bytes): Option<Json> {
    var decoded := Decode(b);
    if decoded.None? then None else Loads(decoded.value)
  }

  function InterchangeFormat(sha: Bytes -> Text): (f: Format)
    ensures HasShape(f)
  {
    Format(DumpsBytes, ParseBytes, sha,
           Lit("morpheus.dataplane-recovery-interchange/v1"),
           Lit("morpheus.dataplane-active-route-checkpoint/v1"),
           EnvelopeKeys(), CheckpointKeys(), ContentKeys(), RouteKeys())
  }

  function EnvelopeKeys(): seq<Text> {
    [Lit("automatic_control_allowed"), Lit("checkpoint"), Lit("schema")]
  }

  function CheckpointKeys(): seq<Text> {
    [Lit("automatic_control_allowed"), Lit("checkpoint_sha256"), Lit("quiescent_routes_verified"),
     Lit("route_count"), Lit("routes"), Lit("schema")]
  }

  function ContentKeys(): seq<Text> {
    [Lit("routes"), Lit("schema")]
  }

  function RouteKeys(): seq<Text> {
    [Lit("artifact_sha256"), Lit("candidate_id"), Lit("deployment_id"), Lit("source_generation"),
     Lit("verification_manifest_sha256")]
  }

  lemma {:induction false} LessFrom(a: Text, b: Text, k: nat)
    requires k < |a| && k < |b| && a[..k] == b[..k] && a[k] < b[k]
    ensures Less(a, b)
  {
    if k > 0 {
      assert a[0] == a[..k][0] && b[0] == b[..k][0];
      assert a[1..][..k - 1] == a[..k][1..] && b[1..][..k - 1] == b[..k][1..];
      LessFrom(a[1..], b[1..], k - 1);
    }
  }

  /** Adjacent keys in order suffices. */
  lemma {:induction false} ChainSorted(keys: seq<Text>)
    requires forall i :: 0 <= i < |keys| - 1 ==> Less(keys[i], keys[i + 1])
    ensures Sorted(keys)
  {
    if keys != [] {
      var init, last := keys[..|keys| - 1], keys[|keys| - 1];
      ChainSorted(init);
      forall i | 0 <= i < |init| ensures Less(keys[i], last) {
        assert Less(keys[|keys| - 2], last);
        if i < |keys| - 2 {
          assert Less(init[i], init[|init| - 1]);
          LessTransitive(keys[i], keys[|keys| - 2], last);
        }
      }
      forall i, j | 0 <= i < j < |keys| ensures Less(keys[i], keys[j]) {
        if j < |init| { assert Less(init[i], init[j]); }
      }
    }
  }

  lemma EnvelopeKeysGood()
    ensures GoodKeys(EnvelopeKeys(), 3)
  {
    var keys := EnvelopeKeys();
    LessFrom(keys[0], keys[1], 0);
    LessFrom(keys[1], keys[2], 0);
    ChainSorted(keys);
    LitIsWhole("automatic_control_allowed");
    LitIsWhole("checkpoint");
    LitIsWhole("schema");
  }

  lemma CheckpointKeysGood()
    ensures GoodKeys(CheckpointKeys(), 6)
  {
    var keys := CheckpointKeys();
    LessFrom(keys[0], keys[1], 0);
    LessFrom(keys[1], keys[2], 0);
    LessFrom(keys[2], keys[3], 0);
    LessFrom(keys[3], keys[4], 5);
    LessFrom(keys[4], keys[5], 0);
    ChainSorted(keys);
    LitIsWhole("automatic_control_allowed");
    LitIsWhole("checkpoint_sha256");
    LitIsWhole("quiescent_routes_verified");
    LitIsWhole("route_count");
    LitIsWhole("routes");
    LitIsWhole("schema");
  }

  lemma ContentKeysGood()
    ensures GoodKeys(ContentKeys(), 2)
  {
    var keys := ContentKeys();
    LessFrom(keys[0], keys[1], 0);
    LitIsWhole("routes");
    LitIsWhole("schema");
  }

  lemma RouteKeysGood()
    ensures GoodKeys(RouteKeys(), 5)
  {
    var keys := RouteKeys();
    LessFrom(keys[0], keys[1], 0);
    LessFrom(keys[1], keys[2], 0);
    LessFrom(keys[2], keys[3], 0);
    LessFrom(keys[3], keys[4], 0);
    ChainSorted(keys);
    LitIsWhole("artifact_sha256");
    LitIsWhole("candidate_id");
    LitIsWhole("deployment_id");
    LitIsWhole("source_generation");
    LitIsWhole("verification_manifest_sha256");
  }

  lemma ParsesBack(v: Json)
    requires Printable(v)
    ensures ParseBytes(DumpsBytes(v)) == Some(MergeAll(v))
  {
    RoundTrip(v);
  }

  /** The theorems above hold of the printer, parser, names and keys the code uses, for
      any digest that yields digests. */
  lemma InterchangeFormatIsLawful(sha: Bytes -> Text)
    requires forall b: Bytes :: IsHex64(sha(b))
    ensures Lawful(InterchangeFormat(sha))
  {
    var f := InterchangeFormat(sha);
    forall v: Json | Printable(v) ensures f.parse(f.print_(v)) == Some(MergeAll(v)) {
      ParsesBack(v);
    }
    EnvelopeKeysGood();
    CheckpointKeysGood();
    ContentKeysGood();
    RouteKeysGood();
    LitIsWhole("morpheus.dataplane-recovery-interchange/v1");
    LitIsWhole("morpheus.dataplane-active-route-checkpoint/v1");
  }
}
