/** What happens when some calls take no lock: exactly which sets of calls can lose an update. */
module AnchorRace {
  import opened Wrappers
  import opened Text
  import opened Utf8
  import opened HeadStore
  import opened AnchorProtocol
  import opened AnchorSafety
  import opened AnchorTheorems
  import opened AnchorRuns

  /** The parser accepts nothing but prints of valid heads. */
  ghost predicate Strict(f: Format) {
    forall b, h :: f.parse(b) == Some(h) ==> ValidHead(h) && b == f.render(h)
  }

  lemma HeadFormatIsStrict(sha: Bytes -> Text)
    ensures Strict(HeadFormat(sha))
  {
    var f := HeadFormat(sha);
    forall b, h | f.parse(b) == Some(h) ensures ValidHead(h) && b == f.render(h) {
      AcceptedIffCanonical(b, h);
    }
  }

  /** The calls themselves: everything of a state that no step changes. */
  ghost predicate SameCalls(s: State, t: State) {
    && t.origin == s.origin
    && t.writers.Keys == s.writers.Keys
    && forall id :: id in s.writers ==> SameCall(s.writers[id], t.writers[id])
  }

  predicate SameCall(w: Writer, v: Writer) {
    v == w.(pc := v.pc)
  }

  /** The evidence of the call fits its own predecessor's print. */
  ghost predicate Fit(f: Format, w: Writer) {
    && Admits(w.request)
    && |f.render(w.request.store.head)| == w.request.store.payloadSize
    && f.sha(f.render(w.request.store.head)) == w.request.store.payloadSha
  }

  ghost predicate FitFor(f: Format, s: State, id: nat, h: StoredHead) {
    id in s.writers && Fit(f, s.writers[id]) && s.writers[id].request.store.head == h
  }

  /** Calls that, one after the other, take the original head to `h`. */
  ghost predicate Leads(f: Format, s: State, ids: seq<nat>, h: StoredHead) {
    if ids == [] then s.origin.Some? && f.parse(s.origin.value) == Some(h)
    else
      var last := ids[|ids| - 1];
      && last in s.writers
      && FitFor(f, s, last, s.writers[last].request.store.head)
      && s.writers[last].request.recovery.head == h
      && Leads(f, s, ids[..|ids| - 1], s.writers[last].request.store.head)
  }

  ghost predicate Reachable(f: Format, s: State, h: StoredHead) {
    exists ids :: Leads(f, s, ids, h)
  }

  /** A call without a lock and another call of any gate, both fit for one head that the
      anchor can come to hold. */
  ghost predicate Rivals(f: Format, s: State, a: nat, b: nat, h: StoredHead) {
    && a != b
    && FitFor(f, s, a, h) && FitFor(f, s, b, h)
    && s.writers[a].gate == Bare
    && Reachable(f, s, h)
  }

  ghost predicate Racy(f: Format, s: State) {
    exists a, b, h :: Rivals(f, s, a, b, h)
  }

  // ---- rivals lose an update ----

  /** One call without a lock suffices. In any state with a free lock in which it and any
      other call, of whatever gate, are ready for the same head, there is a run in which
      both return evidence and the unlocked one replaces a head it was not admitted on. */
  lemma BareCallLosesUpdate(f: Format, s: State, a: nat, b: nat) returns (events: seq<Event>)
    requires Ready(f, s, a) && Ready(f, s, b) && a != b && s.lock == Absent
    requires s.writers[a].gate == Bare
    requires s.writers[a].request.store.head == s.writers[b].request.store.head
    ensures Known(s, events)
    ensures var t := RunFrom(f, s, events);
            && t.writers[a].pc == Returned && t.writers[b].pc == Returned
            && |t.log| == |s.log| + 2
            && t.log[|s.log|].writer == b && t.log[|s.log| + 1].writer == a
            && t.log[|s.log| + 1].before == Some(f.render(s.writers[b].request.recovery.head))
            && !Advances(f, t, t.log[|s.log| + 1])
  {
    events := RaceRun(f, s, a, b);
    LostUpdate(f, s, RunFrom(f, s, events), a, b);
  }

  /** The unlocked call reads its predecessor, the other one runs to its end, and the first goes on. */
  lemma RaceRun(f: Format, s: State, a: nat, b: nat) returns (events: seq<Event>)
    requires Ready(f, s, a) && Ready(f, s, b) && a != b && s.lock == Absent
    requires s.writers[a].gate == Bare
    ensures Known(s, events)
    ensures var s2 := At(Published(f, At(s, a, PredecessorLoaded), b), b, Returned);
            RunFrom(f, s, events) == At(Published(f, s2, a), a, Returned)
  {
    var n := ReleaseSteps(s.writers[b].gate) + 1;
    var e1 := Times(a, 2);
    AloneIsRun(f, s, [], a, 2);
    assert [] + e1 == e1;
    var e2 := e1 + Times(b, n);
    AloneIsRun(f, s, e1, b, n);
    events := e2 + Times(a, 5);
    AloneIsRun(f, s, e2, a, 5);
    Loads(f, s, s, a);
    RivalRuns(f, s, a, b);
    BarePublishes(f, At(Published(f, At(s, a, PredecessorLoaded), b), b, Returned), a);
  }

  lemma RivalRuns(f: Format, s: State, a: nat, b: nat)
    requires Ready(f, s, a) && Ready(f, s, b) && a != b && s.lock == Absent
    ensures var s1 := At(s, a, PredecessorLoaded);
            Alone(f, s1, b, ReleaseSteps(s.writers[b].gate) + 1) == At(Published(f, s1, b), b, Returned)
  {
    UndisturbedCallReturns(f, At(s, a, PredecessorLoaded), b);
  }

  /** The second publication found the first one's head, whose sequence number is one too high. */
  lemma LostUpdate(f: Format, s: State, t: State, a: nat, b: nat)
    requires Ready(f, s, a) && Ready(f, s, b)
    requires s.writers[a].request.store.head == s.writers[b].request.store.head
    requires |t.log| == |s.log| + 2 && t.log[|s.log| + 1].writer == a && a in t.writers
    requires t.writers[a].request == s.writers[a].request
    requires t.log[|s.log| + 1].before == Some(f.render(s.writers[b].request.recovery.head))
    ensures !Advances(f, t, t.log[|s.log| + 1])
  {
    var rb := s.writers[b].request;
    assert f.parse(f.render(rb.recovery.head)) == Some(rb.recovery.head);
    assert rb.recovery.head.sequence == rb.store.head.sequence + 1;
  }

  lemma {:induction false} LeadersComeBefore(f: Format, s: State, ids: seq<nat>, h: StoredHead, id: nat)
    requires Leads(f, s, ids, h) && id in ids
    ensures id in s.writers && s.writers[id].request.store.head.sequence < h.sequence
  {
    var n := |ids| - 1;
    if id != ids[n] {
      LeadersComeBefore(f, s, ids[..n], s.writers[ids[n]].request.store.head, id);
    }
  }

  lemma {:induction false} RunJoins(f: Format, s: State, first: seq<Event>, more: seq<Event>)
    requires Known(s, first) && Known(RunFrom(f, s, first), more)
    ensures Known(s, first + more)
    ensures RunFrom(f, s, first + more) == RunFrom(f, RunFrom(f, s, first), more)
  {
    if more == [] {
      assert first + more == first;
    } else {
      var n := |more| - 1;
      RunJoins(f, s, first, more[..n]);
      assert first + more == first + more[..n] + [more[n]];
      RunSnoc(f, s, first + more[..n], more[n]);
    }
  }

  /** At rest with head `h`: the lock is free, and the calls outside `ids` have not begun. */
  ghost predicate RestsAt(f: Format, s: State, t: State, ids: seq<nat>, h: StoredHead) {
    && SameCalls(s, t)
    && t.lock == Absent
    && ValidHead(h) && t.anchor == Some(f.render(h))
    && forall id :: id in s.writers && id !in ids ==> t.writers[id].pc == Start
  }

  lemma FitIsReady(f: Format, s: State, t: State, ids: seq<nat>, id: nat, h: StoredHead)
    requires Lawful(f) && RestsAt(f, s, t, ids, h) && FitFor(f, s, id, h) && id !in ids
    ensures Ready(f, t, id)
  {
    assert SameCall(s.writers[id], t.writers[id]);
    assert ValidHead(t.writers[id].request.recovery.head);
  }

  /** The leading calls, each run to its end, do take the anchor to `h`. */
  lemma {:induction false} LeadingRun(f: Format, s: State, ids: seq<nat>, h: StoredHead) returns (events: seq<Event>)
    requires Init(s) && Lawful(f) && Strict(f) && Leads(f, s, ids, h)
    ensures Known(s, events) && RestsAt(f, s, RunFrom(f, s, events), ids, h)
    decreases |ids|
  {
    if ids == [] {
      events := [];
    } else {
      var n := |ids| - 1;
      var last := ids[n];
      var g := s.writers[last].request.store.head;
      var before := LeadingRun(f, s, ids[..n], g);
      if last in ids[..n] {
        LeadersComeBefore(f, s, ids[..n], g, last);
        assert false;
      }
      var t := RunFrom(f, s, before);
      FitIsReady(f, s, t, ids[..n], last, g);
      events := before + Times(last, ReleaseSteps(t.writers[last].gate) + 1);
      AloneIsRun(f, s, before, last, ReleaseSteps(t.writers[last].gate) + 1);
      UndisturbedCallReturns(f, t, last);
      RestsAgain(f, s, t, ids, h);
    }
  }

  lemma RestsAgain(f: Format, s: State, t: State, ids: seq<nat>, h: StoredHead)
    requires ids != [] && Leads(f, s, ids, h)
    requires var last := ids[|ids| - 1]; RestsAt(f, s, t, ids[..|ids| - 1], s.writers[last].request.store.head)
    ensures var last := ids[|ids| - 1];
            last in t.writers && RestsAt(f, s, At(Published(f, t, last), last, Returned), ids, h)
  {
    var last := ids[|ids| - 1];
    assert SameCall(s.writers[last], t.writers[last]);
  }

  /** Rivals can break the chain of publications. */
  lemma RivalsBreakTheChain(f: Format, s: State, a: nat, b: nat, h: StoredHead) returns (events: seq<Event>)
    requires Init(s) && Lawful(f) && Strict(f) && Rivals(f, s, a, b, h)
    ensures Known(s, events) && !Chained(f, RunFrom(f, s, events))
  {
    var ids :| Leads(f, s, ids, h);
    var first := LeadingRun(f, s, ids, h);
    var t := RunFrom(f, s, first);
    if a in ids { LeadersComeBefore(f, s, ids, h, a); }
    if b in ids { LeadersComeBefore(f, s, ids, h, b); }
    FitIsReady(f, s, t, ids, a, h);
    FitIsReady(f, s, t, ids, b, h);
    assert SameCall(s.writers[a], t.writers[a]) && SameCall(s.writers[b], t.writers[b]);
    var more := BareCallLosesUpdate(f, t, a, b);
    RunJoins(f, s, first, more);
    events := first + more;
  }

  // ---- without rivals nothing is lost ----

  /** Everything the anchor can ever hold. */
  ghost predicate Content(f: Format, s: State, b: Bytes) {
    s.origin == Some(b) || exists id :: id in s.writers && b == Successor(f, s.writers[id].request)
  }

  /** No two of these contents share a digest. */
  ghost predicate NoCollision(f: Format, s: State) {
    forall b, c :: Content(f, s, b) && Content(f, s, c) && f.sha(b) == f.sha(c) ==> b == c
  }

  /** Some content has passed the call's size and digest checks. */
  ghost predicate Seen(f: Format, s: State, w: Writer) {
    exists b :: Content(f, s, b) && |b| == w.request.store.payloadSize && f.sha(b) == w.request.store.payloadSha
  }

  /** The places a call without a lock can be at. */
  predicate BarePlace(pc: Pc) {
    match pc
    case Start | PredecessorRead | PredecessorLoaded | TempWritten | Replaced | ReadBack | Confirmed | Returned => true
    case Raised(holding) => true
    case Crashed(holding) => true
    case _ => false
  }

  predicate LockFacts(t: State, id: nat)
    requires id in t.writers
  {
    var w := t.writers[id];
    if w.gate == Bare then BarePlace(w.pc) else LockMarked(w.pc) ==> t.lock == Present(Marker(w))
  }

  ghost predicate FileFacts(f: Format, s: State, t: State, id: nat)
    requires id in t.writers
  {
    var w := t.writers[id];
    && (w.pc == PredecessorRead ==> Admits(w.request) && Seen(f, s, w))
    && (AtPredecessor(w.pc) ==> Fit(f, w) && t.anchor == Some(f.render(w.request.store.head)))
    && (w.pc == TempWritten ==> w.pid in t.temps && t.temps[w.pid] == Successor(f, w.request))
  }

  /** What a call can rely on where it stands, whether the others lock or not. */
  ghost predicate MixedFacts(f: Format, s: State, t: State, id: nat)
    requires id in t.writers
  {
    LockFacts(t, id) && FileFacts(f, s, t, id)
  }

  /** What the anchor holds is a possible content, and a head only if calls lead there. */
  ghost predicate Led(f: Format, s: State, anchor: Option<Bytes>) {
    anchor.Some? ==>
      && Content(f, s, anchor.value)
      && forall h :: f.parse(anchor.value) == Some(h) ==> Reachable(f, s, h)
  }

  ghost predicate Mixed(f: Format, s: State, t: State) {
    && SameCalls(s, t)
    && Exclusive(t)
    && Chained(f, t)
    && Led(f, s, t.anchor)
    && forall id :: id in t.writers ==> MixedFacts(f, s, t, id)
  }

  lemma InitMixed(f: Format, s: State)
    requires Init(s)
    ensures Mixed(f, s, s)
  {
    if s.anchor.Some? {
      forall h | f.parse(s.anchor.value) == Some(h) ensures Reachable(f, s, h) {
        assert Leads(f, s, [], h);
      }
    }
  }

  /** Without rivals no two calls have loaded their predecessor at the same time. */
  lemma LoadedAlone(f: Format, s: State, t: State, a: nat, b: nat)
    requires Mixed(f, s, t) && Lawful(f) && !Racy(f, s)
    requires a in t.writers && b in t.writers && AtPredecessor(t.writers[a].pc) && AtPredecessor(t.writers[b].pc)
    ensures a == b
  {
    assert MixedFacts(f, s, t, a) && MixedFacts(f, s, t, b);
    assert SameCall(s.writers[a], t.writers[a]) && SameCall(s.writers[b], t.writers[b]);
    var h, g := t.writers[a].request.store.head, t.writers[b].request.store.head;
    assert f.parse(f.render(h)) == Some(h) && f.parse(f.render(g)) == Some(g);
    if a != b && t.writers[a].gate == Bare { assert Rivals(f, s, a, b, h); }
    if a != b && t.writers[b].gate == Bare { assert Rivals(f, s, b, a, h); }
  }

  // ---- one step without rivals ----

  /** Only a holder, or a call that finds the lock free, changes who holds it. */
  predicate LockDiscipline(t: State, u: State, id: nat)
    requires id in t.writers && id in u.writers
  {
    if Holds(t.writers[id]) || t.lock.Absent? then u.lock.Present? <==> Holds(u.writers[id])
    else u.lock == t.lock && !Holds(u.writers[id])
  }

  lemma ExclusiveStep(t: State, u: State, id: nat)
    requires Exclusive(t) && OnlyMoves(t, u, id) && LockDiscipline(t, u, id)
    ensures Exclusive(u)
  {
    forall other | other in u.writers && other != id ensures u.writers[other] == t.writers[other] {
    }
    if u.lock.Present? && !Holds(u.writers[id]) {
      var other :| other in t.writers && Holds(t.writers[other]);
      assert Holds(u.writers[other]);
    }
  }

  lemma StepsMove(f: Format, t: State, id: nat, io: Io)
    requires id in t.writers
    ensures OnlyMoves(t, Step(f, t, id, io), id)
  {
  }

  lemma SameCallsStep(s: State, t: State, u: State, id: nat)
    requires SameCalls(s, t) && OnlyMoves(t, u, id)
    ensures SameCalls(s, u)
  {
    forall other | other in s.writers ensures SameCall(s.writers[other], u.writers[other]) {
      assert SameCall(s.writers[other], t.writers[other]);
    }
  }

  lemma BareDiscipline(f: Format, t: State, id: nat, io: Io)
    requires id in t.writers && t.writers[id].gate == Bare && BarePlace(t.writers[id].pc)
    ensures var u := Step(f, t, id, io); u.lock == t.lock && BarePlace(u.writers[id].pc)
  {
  }

  lemma LockedDiscipline(f: Format, t: State, id: nat, io: Io)
    requires id in t.writers && t.writers[id].gate != Bare
    requires LockMarked(t.writers[id].pc) ==> t.lock == Present(Marker(t.writers[id]))
    requires Holds(t.writers[id]) ==> t.lock.Present?
    ensures var u := Step(f, t, id, io);
            LockDiscipline(t, u, id) && (LockMarked(u.writers[id].pc) ==> u.lock == Present(Marker(u.writers[id])))
  {
    if !Holds(t.writers[id]) && !Finished(t.writers[id].pc) { BystanderSteps(f, t, id, io); }
  }

  predicate Replacing(t: State, id: nat, io: Io)
    requires id in t.writers
  {
    t.writers[id].pc == TempWritten && io == Fine && t.writers[id].pid in t.temps
  }

  /** Every step but the replacement leaves the anchor alone, and the temporary file too
      unless the call has loaded its predecessor. */
  lemma QuietStep(f: Format, t: State, id: nat, io: Io)
    requires id in t.writers && !Replacing(t, id, io)
    ensures var u := Step(f, t, id, io);
            && u.log == t.log && u.anchor == t.anchor
            && (u.temps == t.temps || AtPredecessor(t.writers[id].pc))
  {
  }

  /** A call that passes its load has evidence that fits what it loaded. */
  lemma LoadedFits(f: Format, s: State, t: State, id: nat)
    requires id in t.writers && t.writers[id].pc == PredecessorRead && MixedFacts(f, s, t, id)
    requires Led(f, s, t.anchor) && Strict(f) && NoCollision(f, s)
    requires var w := t.writers[id]; Load(f, t.anchor, w.request.store.payloadSha) == Some(w.request.store.head)
    ensures Fit(f, t.writers[id]) && t.anchor == Some(f.render(t.writers[id].request.store.head))
  {
    var w := t.writers[id];
    HexIsNormal(w.request.store.payloadSha);
    var b :| Content(f, s, b) && |b| == w.request.store.payloadSize && f.sha(b) == w.request.store.payloadSha;
    assert b == t.anchor.value;
  }

  /** The size and digest checks on the anchor as it is read first. */
  predicate Identified(f: Format, anchor: Option<Bytes>, r: Request) {
    && Admits(r) && anchor.Some?
    && |anchor.value| == r.store.payloadSize
    && f.sha(anchor.value) == r.store.payloadSha
  }

  lemma ReadStep(f: Format, t: State, id: nat, io: Io)
    requires id in t.writers && Step(f, t, id, io).writers[id].pc == PredecessorRead
    ensures Identified(f, t.anchor, t.writers[id].request)
  {
  }

  lemma LoadStep(f: Format, t: State, id: nat, io: Io)
    requires id in t.writers && Step(f, t, id, io).writers[id].pc == PredecessorLoaded
    ensures var w := t.writers[id];
            w.pc == PredecessorRead && Load(f, t.anchor, w.request.store.payloadSha) == Some(w.request.store.head)
  {
    match t.writers[id].pc
    case PredecessorRead =>
    case _ =>
  }

  lemma TempStep(f: Format, t: State, id: nat, io: Io)
    requires id in t.writers && Step(f, t, id, io).writers[id].pc == TempWritten
    ensures var w := t.writers[id];
            w.pc == PredecessorLoaded && Step(f, t, id, io).temps == t.temps[w.pid := Successor(f, w.request)]
  {
  }

  lemma OwnFileFacts(f: Format, s: State, t: State, id: nat, io: Io)
    requires id in t.writers && MixedFacts(f, s, t, id) && !Replacing(t, id, io)
    requires Led(f, s, t.anchor) && Strict(f) && NoCollision(f, s)
    ensures FileFacts(f, s, Step(f, t, id, io), id)
  {
    var u := Step(f, t, id, io);
    StepsMove(f, t, id, io);
    QuietStep(f, t, id, io);
    if u.writers[id].pc == PredecessorRead {
      ReadStep(f, t, id, io);
      assert Content(f, s, t.anchor.value);
    } else if u.writers[id].pc == PredecessorLoaded {
      LoadStep(f, t, id, io);
      LoadedFits(f, s, t, id);
    } else if u.writers[id].pc == TempWritten {
      TempStep(f, t, id, io);
    }
  }

  // ---- every step without rivals ----

  lemma OwnLockFacts(f: Format, t: State, id: nat, io: Io)
    requires id in t.writers && LockFacts(t, id) && (Holds(t.writers[id]) ==> t.lock.Present?)
    ensures var u := Step(f, t, id, io); LockFacts(u, id) && LockDiscipline(t, u, id)
  {
    if t.writers[id].gate == Bare {
      BareDiscipline(f, t, id, io);
    } else {
      LockedDiscipline(f, t, id, io);
    }
  }

  lemma HolderSeesLock(t: State, id: nat)
    requires Exclusive(t) && id in t.writers
    ensures Holds(t.writers[id]) ==> t.lock.Present?
  {
  }

  /** A call keeps its facts while another moves, if the files it relies on stay. */
  lemma OtherFacts(f: Format, s: State, t: State, u: State, id: nat, other: nat)
    requires Exclusive(t) && OnlyMoves(t, u, id) && LockDiscipline(t, u, id)
    requires other in t.writers && other != id && MixedFacts(f, s, t, other)
    requires AtPredecessor(t.writers[other].pc) ==> u.anchor == t.anchor && u.temps == t.temps
    ensures MixedFacts(f, s, u, other)
  {
    assert u.writers[other] == t.writers[other];
    if t.writers[other].gate != Bare && LockMarked(t.writers[other].pc) {
      assert Holds(t.writers[other]);
    }
  }

  lemma OthersFacts(f: Format, s: State, t: State, u: State, id: nat)
    requires Mixed(f, s, t) && Lawful(f) && !Racy(f, s)
    requires OnlyMoves(t, u, id) && LockDiscipline(t, u, id)
    requires AtPredecessor(t.writers[id].pc) || (u.anchor == t.anchor && u.temps == t.temps)
    ensures forall other :: other in u.writers && other != id ==> MixedFacts(f, s, u, other)
  {
    forall other | other in u.writers && other != id ensures MixedFacts(f, s, u, other) {
      if AtPredecessor(t.writers[id].pc) && AtPredecessor(t.writers[other].pc) {
        LoadedAlone(f, s, t, id, other);
      }
      assert MixedFacts(f, s, t, other);
      OtherFacts(f, s, t, u, id, other);
    }
  }

  lemma QuietKeeps(f: Format, s: State, t: State, id: nat, io: Io)
    requires Mixed(f, s, t) && Lawful(f) && Strict(f) && NoCollision(f, s) && !Racy(f, s)
    requires id in t.writers && !Replacing(t, id, io)
    ensures Mixed(f, s, Step(f, t, id, io))
  {
    var u := Step(f, t, id, io);
    StepsMove(f, t, id, io);
    QuietStep(f, t, id, io);
    assert MixedFacts(f, s, t, id);
    HolderSeesLock(t, id);
    OwnLockFacts(f, t, id, io);
    OwnFileFacts(f, s, t, id, io);
    QuietMixed(f, s, t, u, id);
  }

  lemma QuietMixed(f: Format, s: State, t: State, u: State, id: nat)
    requires Mixed(f, s, t) && Lawful(f) && !Racy(f, s)
    requires OnlyMoves(t, u, id) && LockDiscipline(t, u, id) && MixedFacts(f, s, u, id)
    requires u.log == t.log && u.anchor == t.anchor && (u.temps == t.temps || AtPredecessor(t.writers[id].pc))
    ensures Mixed(f, s, u)
  {
    assert SameCalls(s, u) by { SameCallsStep(s, t, u, id); }
    assert Exclusive(u) by { ExclusiveStep(t, u, id); }
    assert Chained(f, u) by { ChainKept(f, t, u, id); }
    OthersFacts(f, s, t, u, id);
  }

  lemma ReplacingKeeps(f: Format, s: State, t: State, id: nat)
    requires Mixed(f, s, t) && Lawful(f) && !Racy(f, s)
    requires id in t.writers && Replacing(t, id, Fine)
    ensures Mixed(f, s, Replacement(t, id))
  {
    var u := Replacement(t, id);
    assert MixedFacts(f, s, t, id);
    HolderSeesLock(t, id);
    ReplacementMoves(f, s, t, id);
    assert SameCalls(s, u) by { SameCallsStep(s, t, u, id); }
    assert Exclusive(u) by { ExclusiveStep(t, u, id); }
    assert Chained(f, u) by { FitReplacementChained(f, s, t, id); }
    assert Led(f, s, u.anchor) by { StillLed(f, s, t, id); }
    OthersFacts(f, s, t, u, id);
  }

  lemma ReplacementMoves(f: Format, s: State, t: State, id: nat)
    requires id in t.writers && Replacing(t, id, Fine) && MixedFacts(f, s, t, id)
    requires Holds(t.writers[id]) ==> t.lock.Present?
    ensures var u := Replacement(t, id); OnlyMoves(t, u, id) && LockDiscipline(t, u, id) && MixedFacts(f, s, u, id)
  {
  }

  lemma FitReplacementChained(f: Format, s: State, t: State, id: nat)
    requires Chained(f, t) && Lawful(f) && id in t.writers && Replacing(t, id, Fine) && MixedFacts(f, s, t, id)
    ensures Chained(f, Replacement(t, id))
  {
    var u := Replacement(t, id);
    var p := Publication(id, t.anchor, t.temps[t.writers[id].pid]);
    assert Advances(f, t, p);
    LinkAppended(t.origin, t.log, t.anchor, p);
    forall i | 0 <= i < |u.log| ensures Advances(f, u, u.log[i]) {
      if i < |t.log| {
        AdvancesKept(f, t, u, id, t.log[i]);
      } else {
        AdvancesKept(f, t, u, id, p);
      }
    }
  }

  lemma StillLed(f: Format, s: State, t: State, id: nat)
    requires SameCalls(s, t) && Led(f, s, t.anchor) && Lawful(f)
    requires id in t.writers && Replacing(t, id, Fine) && MixedFacts(f, s, t, id)
    ensures Led(f, s, Replacement(t, id).anchor)
  {
    assert SameCall(s.writers[id], t.writers[id]);
    var r := t.writers[id].request;
    var b := Successor(f, r);
    assert Content(f, s, b);
    assert f.parse(t.anchor.value) == Some(r.store.head);
    var ids :| Leads(f, s, ids, r.store.head);
    assert (ids + [id])[..|ids|] == ids;
    assert FitFor(f, s, id, r.store.head);
    assert Leads(f, s, ids + [id], r.recovery.head);
    assert f.parse(b) == Some(r.recovery.head);
  }

  lemma {:induction false} MixedRun(f: Format, s: State, events: seq<Event>)
    requires Init(s) && Lawful(f) && Strict(f) && NoCollision(f, s) && !Racy(f, s) && Known(s, events)
    ensures Mixed(f, s, RunFrom(f, s, events))
  {
    if events == [] {
      InitMixed(f, s);
    } else {
      var n := |events| - 1;
      MixedRun(f, s, events[..n]);
      var t := RunFrom(f, s, events[..n]);
      if Replacing(t, events[n].id, events[n].io) {
        ReplacementStep(f, t, events[n].id);
        ReplacingKeeps(f, s, t, events[n].id);
      } else {
        QuietKeeps(f, s, t, events[n].id, events[n].io);
      }
    }
  }

  ghost predicate KeepsChain(f: Format, s: State, events: seq<Event>) {
    Known(s, events) ==> Chained(f, RunFrom(f, s, events))
  }

  /** The exact condition for losing no update, whatever gates the calls use: there are no
      two calls, one of them without a lock, that fit one head the anchor can come to hold. */
  lemma ChainKeptIffNotRacy(f: Format, s: State)
    requires Init(s) && Lawful(f) && Strict(f) && NoCollision(f, s)
    ensures (forall events: seq<Event> :: KeepsChain(f, s, events)) <==> !Racy(f, s)
  {
    if Racy(f, s) {
      var a, b, h :| Rivals(f, s, a, b, h);
      var events := RivalsBreakTheChain(f, s, a, b, h);
      assert !KeepsChain(f, s, events);
    } else {
      forall events: seq<Event> ensures KeepsChain(f, s, events) {
        if Known(s, events) { MixedRun(f, s, events); }
      }
    }
  }

  /** Where every fitting call is ready at once, one reads it off the gates: either nobody
      ready goes without a lock, or nobody else is ready. */
  lemma ChainKeptIffAmongReady(f: Format, s: State)
    requires Init(s) && Lawful(f) && Strict(f) && NoCollision(f, s)
    requires forall id :: id in s.writers && Fit(f, s.writers[id]) ==> Ready(f, s, id)
    ensures (forall events: seq<Event> :: KeepsChain(f, s, events)) <==>
            !exists a, b :: a != b && Ready(f, s, a) && Ready(f, s, b) && s.writers[a].gate == Bare
  {
    ChainKeptIffNotRacy(f, s);
    if Racy(f, s) {
      var a, b, h :| Rivals(f, s, a, b, h);
      assert Ready(f, s, a) && Ready(f, s, b);
    }
    if a, b :| a != b && Ready(f, s, a) && Ready(f, s, b) && s.writers[a].gate == Bare {
      var h := s.writers[a].request.store.head;
      assert s.writers[b].request.store.head == h;
      assert Leads(f, s, [], h);
      assert Rivals(f, s, a, b, h);
    }
  }
}
