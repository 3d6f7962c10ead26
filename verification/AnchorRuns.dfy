/** Concrete runs of the protocol: what one undisturbed call does, gate by gate. */
module AnchorRuns {
  import opened Wrappers
  import opened Text
  import opened Utf8
  import opened HeadStore
  import opened AnchorProtocol
  import opened AnchorTheorems

  function Iterate(next: State -> State, s: State, n: nat): State {
    if n == 0 then s else next(Iterate(next, s, n - 1))
  }

  lemma {:induction false} IterateJoins(next: State -> State, s: State, n: nat, m: nat)
    ensures Iterate(next, s, n + m) == Iterate(next, Iterate(next, s, n), m)
  {
    if m > 0 {
      IterateJoins(next, s, n, m - 1);
    }
  }

  /** One undisturbed step of a writer. */
  function Next(f: Format, id: nat): State -> State {
    (s: State) => if id in s.writers then Step(f, s, id, Fine) else s
  }

  /** `n` undisturbed steps of one writer. */
  function Alone(f: Format, s: State, id: nat, n: nat): State {
    Iterate(Next(f, id), s, n)
  }

  lemma AloneNext(f: Format, s: State, id: nat, n: nat, t: State)
    requires Alone(f, s, id, n) == t && id in t.writers
    ensures Alone(f, s, id, n + 1) == Step(f, t, id, Fine)
  {
  }

  function Times(id: nat, n: nat): seq<Event> {
    seq(n, i => Event(id, Fine))
  }

  lemma RunSnoc(f: Format, s: State, events: seq<Event>, e: Event)
    requires Known(s, events) && e.id in s.writers
    ensures Known(s, events + [e])
    ensures RunFrom(f, s, events + [e]) == Step(f, RunFrom(f, s, events), e.id, e.io)
  {
    assert (events + [e])[..|events|] == events;
  }

  lemma TimesSnoc(events: seq<Event>, id: nat, n: nat)
    requires n > 0
    ensures events + Times(id, n) == events + Times(id, n - 1) + [Event(id, Fine)]
  {
    assert Times(id, n) == Times(id, n - 1) + [Event(id, Fine)];
  }

  lemma {:induction false} AloneIsRun(f: Format, s: State, events: seq<Event>, id: nat, n: nat)
    requires Known(s, events) && id in s.writers
    ensures Known(s, events + Times(id, n))
    ensures RunFrom(f, s, events + Times(id, n)) == Alone(f, RunFrom(f, s, events), id, n)
  {
    if n == 0 {
      assert events + Times(id, 0) == events;
    } else {
      var before := events + Times(id, n - 1);
      AloneIsRun(f, s, events, id, n - 1);
      TimesSnoc(events, id, n);
      RunSnoc(f, s, before, Event(id, Fine));
      AloneNext(f, RunFrom(f, s, events), id, n - 1, RunFrom(f, s, before));
    }
  }

  /** The anchor holds what the request expects, and the request is admissible. */
  ghost predicate Ready(f: Format, s: State, id: nat) {
    && id in s.writers
    && s.writers[id].pc == Start
    && var r := s.writers[id].request;
       && Admits(r)
       && s.anchor == Some(f.render(r.store.head))
       && |s.anchor.value| == r.store.payloadSize
       && f.sha(s.anchor.value) == r.store.payloadSha
       && f.parse(s.anchor.value) == Some(r.store.head)
       && IsHex64(f.sha(f.render(r.recovery.head)))
       && f.parse(f.render(r.recovery.head)) == Some(r.recovery.head)
  }

  /** The files after writing and replacing. */
  function Published(f: Format, s: State, id: nat): State
    requires id in s.writers
  {
    var after := f.render(s.writers[id].request.recovery.head);
    DropTemp(s, s.writers[id].pid).(anchor := Some(after), log := s.log + [Publication(id, s.anchor, after)])
  }

  /** The lock as the call itself leaves it while it works. */
  function Locked(s: State, id: nat): State
    requires id in s.writers
  {
    if s.writers[id].gate == Bare then s else s.(lock := Present(Marker(s.writers[id])))
  }

  /** Steps until the lock is released, and until the call has returned. */
  function ReleaseSteps(gate: Gate): nat {
    match gate
    case Bare => 6
    case Serialized => 9
    case OwnershipBound => 10
  }

  /** An undisturbed locked call gets as far as releasing its lock, with its head published. */
  lemma RunsToRelease(f: Format, s: State, id: nat)
    requires Ready(f, s, id) && s.lock == Absent && s.writers[id].gate != Bare
    ensures Alone(f, s, id, ReleaseSteps(s.writers[id].gate)) == At(Published(f, s, id), id, Released)
  {
    Prepares(f, s, id);
    var prepared := At(Locked(s, id), id, PredecessorLoaded);
    Publishes(f, prepared, id);
    var published := At(Published(f, prepared, id), id, Replaced);
    assert ReadsBack(f, published, id);
    Releases(f, published, id);
    IterateJoins(Next(f, id), prepared, 2, ReleaseSteps(s.writers[id].gate) - 6);
    IterateJoins(Next(f, id), s, 4, ReleaseSteps(s.writers[id].gate) - 4);
    SameFilesInTheEnd(f, s, id);
  }

  /** An undisturbed call returns with its head published, whatever its gate. */
  lemma UndisturbedCallReturns(f: Format, s: State, id: nat)
    requires Ready(f, s, id) && (s.lock == Absent || s.writers[id].gate == Bare)
    ensures Alone(f, s, id, ReleaseSteps(s.writers[id].gate) + 1) == At(Published(f, s, id), id, Returned)
  {
    if s.writers[id].gate == Bare {
      BareReturns(f, s, id);
    } else {
      RunsToRelease(f, s, id);
      AloneNext(f, s, id, ReleaseSteps(s.writers[id].gate), At(Published(f, s, id), id, Released));
    }
  }

  lemma SameFilesInTheEnd(f: Format, s: State, id: nat)
    requires id in s.writers && s.lock == Absent && s.writers[id].gate != Bare
    ensures At(At(Published(f, At(Locked(s, id), id, PredecessorLoaded), id), id, Replaced).(lock := Absent), id, Released) ==
            At(Published(f, s, id), id, Released)
  {
  }

  lemma Prepares(f: Format, s: State, id: nat)
    requires Ready(f, s, id) && s.lock == Absent && s.writers[id].gate != Bare
    ensures Alone(f, s, id, 4) == At(Locked(s, id), id, PredecessorLoaded)
  {
    Locks(f, s, id);
    var marked := At(Locked(s, id), id, Marked);
    Loads(f, s, marked, id);
    assert At(marked, id, PredecessorLoaded) == At(Locked(s, id), id, PredecessorLoaded);
    IterateJoins(Next(f, id), s, 2, 2);
  }

  lemma Locks(f: Format, s: State, id: nat)
    requires id in s.writers && s.writers[id].pc == Start && s.lock == Absent && s.writers[id].gate != Bare
    ensures Alone(f, s, id, 2) == At(Locked(s, id), id, Marked)
  {
    AloneNext(f, s, id, 0, s);
    AloneNext(f, s, id, 1, At(s.(lock := Present(Blank)), id, Created));
  }

  /** Reading and loading the predecessor, where nothing has changed since `s`. */
  lemma Loads(f: Format, s: State, now: State, id: nat)
    requires Ready(f, s, id) && id in now.writers && now.anchor == s.anchor
    requires now.writers[id] == s.writers[id].(pc := if s.writers[id].gate == Bare then Start else Marked)
    ensures Alone(f, now, id, 2) == At(now, id, PredecessorLoaded)
  {
    AloneNext(f, now, id, 0, now);
    LoadsWhatItExpects(f, s.anchor.value, s.writers[id].request.store.head);
    AloneNext(f, now, id, 1, At(now, id, PredecessorRead));
    assert At(At(now, id, PredecessorRead), id, PredecessorLoaded) == At(now, id, PredecessorLoaded);
  }

  lemma Publishes(f: Format, t: State, id: nat)
    requires id in t.writers && t.writers[id].pc == PredecessorLoaded
    ensures Alone(f, t, id, 2) == At(Published(f, t, id), id, Replaced)
  {
    var w := t.writers[id];
    var after := f.render(w.request.recovery.head);
    AloneNext(f, t, id, 0, t);
    AloneNext(f, t, id, 1, At(t.(temps := t.temps[w.pid := after]), id, TempWritten));
    assert t.temps[w.pid := after] - {w.pid} == t.temps - {w.pid};
  }

  /** The anchor reads back as the head just published. */
  ghost predicate ReadsBack(f: Format, t: State, id: nat) {
    && id in t.writers
    && var head := t.writers[id].request.recovery.head;
       && t.anchor == Some(f.render(head))
       && IsHex64(f.sha(f.render(head))) && f.parse(f.render(head)) == Some(head)
  }

  lemma Confirms(f: Format, t: State, id: nat)
    requires ReadsBack(f, t, id) && t.writers[id].pc == Replaced
    ensures Alone(f, t, id, 2) == At(t, id, Confirmed)
  {
    var head := t.writers[id].request.recovery.head;
    LoadsWhatItExpects(f, f.render(head), head);
    AloneNext(f, t, id, 0, t);
    AloneNext(f, t, id, 1, At(t, id, ReadBack));
  }

  lemma Releases(f: Format, t: State, id: nat)
    requires ReadsBack(f, t, id) && t.writers[id].pc == Replaced
    requires t.writers[id].gate != Bare && t.lock == Present(Marker(t.writers[id]))
    ensures Alone(f, t, id, ReleaseSteps(t.writers[id].gate) - 6) == At(t.(lock := Absent), id, Released)
  {
    Confirms(f, t, id);
    var confirmed := At(t, id, Confirmed);
    LetsGoOf(f, confirmed, id);
    IterateJoins(Next(f, id), t, 2, ReleaseSteps(t.writers[id].gate) - 8);
    assert At(confirmed.(lock := Absent), id, Released) == At(t.(lock := Absent), id, Released);
  }

  lemma LetsGoOf(f: Format, t: State, id: nat)
    requires id in t.writers && t.writers[id].pc == Confirmed
    requires t.writers[id].gate != Bare && t.lock == Present(Marker(t.writers[id]))
    ensures Alone(f, t, id, ReleaseSteps(t.writers[id].gate) - 8) == At(t.(lock := Absent), id, Released)
  {
    AloneNext(f, t, id, 0, t);
    if t.writers[id].gate == OwnershipBound {
      AloneNext(f, t, id, 1, At(t, id, Rechecked));
    }
  }

  lemma BareReturns(f: Format, s: State, id: nat)
    requires Ready(f, s, id) && s.writers[id].gate == Bare
    ensures Alone(f, s, id, 7) == At(Published(f, s, id), id, Returned)
  {
    Loads(f, s, s, id);
    BarePublishes(f, At(s, id, PredecessorLoaded), id);
    IterateJoins(Next(f, id), s, 2, 5);
    assert At(Published(f, At(s, id, PredecessorLoaded), id), id, Returned) == At(Published(f, s, id), id, Returned);
  }

  /** From the loaded predecessor on: a bare call does not look at the anchor again before it replaces it. */
  lemma BarePublishes(f: Format, t: State, id: nat)
    requires id in t.writers && t.writers[id].pc == PredecessorLoaded && t.writers[id].gate == Bare
    requires var head := t.writers[id].request.recovery.head;
             IsHex64(f.sha(f.render(head))) && f.parse(f.render(head)) == Some(head)
    ensures Alone(f, t, id, 5) == At(Published(f, t, id), id, Returned)
  {
    Publishes(f, t, id);
    BareFinishes(f, At(Published(f, t, id), id, Replaced), id);
    IterateJoins(Next(f, id), t, 2, 3);
    assert At(At(Published(f, t, id), id, Replaced), id, Returned) == At(Published(f, t, id), id, Returned);
  }

  lemma BareFinishes(f: Format, t: State, id: nat)
    requires ReadsBack(f, t, id) && t.writers[id].gate == Bare && t.writers[id].pc == Replaced
    ensures Alone(f, t, id, 3) == At(t, id, Returned)
  {
    Confirms(f, t, id);
    AloneNext(f, t, id, 2, At(t, id, Confirmed));
    assert At(At(t, id, Confirmed), id, Returned) == At(t, id, Returned);
  }
}
