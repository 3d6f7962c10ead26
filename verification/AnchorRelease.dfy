/** What the existence check after the unlink means: when a call that has published its
    head returns, and when it raises. Both locked gates end with the same check. */
module AnchorRelease {
  import opened Wrappers
  import opened Text
  import opened Utf8
  import opened HeadStore
  import opened AnchorProtocol
  import opened AnchorSafety
  import opened AnchorTheorems
  import opened AnchorRuns

  /** No step of the call itself fails or is its last; the others may do anything. */
  ghost predicate Undisturbed(events: seq<Event>, id: nat) {
    forall i :: 0 <= i < |events| && events[i].id == id ==> events[i].io == Fine
  }

  /** The states a run passes through, the first and the last included. */
  function States(f: Format, s: State, events: seq<Event>): (p: seq<State>)
    requires Known(s, events)
    ensures |p| == |events| + 1 && p[0] == s && p[|events|] == RunFrom(f, s, events)
    ensures forall j :: 0 <= j <= |events| ==> Known(s, events[..j]) && p[j] == RunFrom(f, s, events[..j])
  {
    assert events[..|events|] == events;
    seq(|events| + 1, j requires 0 <= j <= |events| && Known(s, events) => RunFrom(f, s, events[..j]))
  }

  /** The j-th event leads from the j-th state to the next. */
  ghost predicate StepsAt(f: Format, events: seq<Event>, p: seq<State>, j: nat)
    requires j < |events| && |p| == |events| + 1
  {
    events[j].id in p[j].writers && p[j + 1] == Step(f, p[j], events[j].id, events[j].io)
  }

  ghost predicate SafeAt(f: Format, p: seq<State>, j: nat)
    requires j < |p|
  {
    Inv(f, p[j])
  }

  ghost predicate KnownAt(p: seq<State>, id: nat, j: nat)
    requires j < |p|
  {
    id in p[j].writers
  }

  /** `p` are the states of a run from a reachable state, and writer `id` is one of its writers. */
  ghost predicate Passes(f: Format, events: seq<Event>, p: seq<State>, id: nat) {
    && |p| == |events| + 1
    && (forall j :: 0 <= j < |events| ==> StepsAt(f, events, p, j))
    && (forall j :: 0 <= j < |p| ==> SafeAt(f, p, j))
    && (forall j :: 0 <= j < |p| ==> KnownAt(p, id, j))
  }

  lemma StatesPass(f: Format, s: State, events: seq<Event>, id: nat)
    requires Known(s, events) && Inv(f, s) && id in s.writers
    ensures Passes(f, events, States(f, s, events), id)
  {
    var p := States(f, s, events);
    forall j | 0 <= j < |events| ensures StepsAt(f, events, p, j) {
      StatesStep(f, s, events, j);
    }
    forall j | 0 <= j < |p| ensures SafeAt(f, p, j) && KnownAt(p, id, j) {
      RunKeepsInv(f, s, events[..j]);
    }
  }

  lemma StatesStep(f: Format, s: State, events: seq<Event>, j: nat)
    requires Known(s, events) && j < |events|
    ensures StepsAt(f, events, States(f, s, events), j)
  {
    var p := States(f, s, events);
    assert events[..j + 1] == events[..j] + [events[j]];
    RunSnoc(f, s, events[..j], events[j]);
    assert p[j] == RunFrom(f, s, events[..j]) && p[j + 1] == RunFrom(f, s, events[..j + 1]);
  }

  // ---- the two moments ----

  /** Event `u` is the call's unlink: from here on the lock is anybody's. */
  ghost predicate LetsGo(events: seq<Event>, p: seq<State>, id: nat, u: nat) {
    && u < |events| && |p| == |events| + 1 && events[u].id == id
    && KnownAt(p, id, u) && p[u].writers[id].pc != Released
    && KnownAt(p, id, u + 1) && p[u + 1].writers[id].pc == Released
    && p[u + 1].lock == Absent
  }

  /** Event `c` is the call's existence check. */
  ghost predicate Looks(events: seq<Event>, p: seq<State>, id: nat, c: nat) {
    && c < |events| && |p| == |events| + 1 && events[c].id == id
    && KnownAt(p, id, c) && p[c].writers[id].pc == Released
    && KnownAt(p, id, c + 1) && Finished(p[c + 1].writers[id].pc)
  }

  ghost predicate HoldsAt(p: seq<State>, id: nat, j: nat)
    requires j < |p|
  {
    KnownAt(p, id, j) && Holds(p[j].writers[id])
  }

  /** Event `k` creates the lock, in a call that has only then begun. */
  ghost predicate Creates(events: seq<Event>, p: seq<State>, k: nat) {
    && k < |events| && |p| == |events| + 1
    && p[k].lock == Absent
    && KnownAt(p, events[k].id, k) && p[k].writers[events[k].id].pc == Start
    && KnownAt(p, events[k].id, k + 1) && p[k + 1].writers[events[k].id].pc == Created
  }

  /** ... and its writer has not let the lock go before event `c`. */
  ghost predicate TakesAndKeeps(events: seq<Event>, p: seq<State>, k: nat, c: nat) {
    && Creates(events, p, k)
    && k < c < |p|
    && forall j :: k < j <= c ==> HoldsAt(p, events[k].id, j)
  }

  /** Between events `u` and `c` some writer takes the lock and keeps it. */
  ghost predicate TakenBetween(events: seq<Event>, p: seq<State>, u: nat, c: nat) {
    exists k :: u < k < c && TakesAndKeeps(events, p, k, c)
  }

  // ---- one step ----

  lemma StepGrowsLog(f: Format, s: State, id: nat, io: Io)
    requires id in s.writers
    ensures LogGrows(s.log, Step(f, s, id, io).log, id)
  {
    var w := s.writers[id];
    if w.pc == TempWritten && io == Fine && w.pid in s.temps {
      assert Step(f, s, id, io).log == s.log + [Publication(id, s.anchor, s.temps[w.pid])];
    } else {
      assert Step(f, s, id, io).log == s.log;
    }
  }

  lemma OthersStay(f: Format, s: State, id: nat, io: Io, other: nat)
    requires id in s.writers && other in s.writers && other != id
    ensures Step(f, s, id, io).writers[other] == s.writers[other]
  {
  }

  /** A published call is past the replacement and on its way to the release, or done. */
  ghost predicate OnItsWay(t: State, id: nat)
    requires id in t.writers
  {
    var pc := t.writers[id].pc;
    Has(t.log, id) && !Finished(pc) ==> AtSuccessor(pc) || pc == Released
  }

  /** What the invariant gives the call itself. */
  ghost predicate WellPlaced(f: Format, t: State, id: nat) {
    && id in t.writers
    && t.writers[id].gate != Bare
    && WriterFacts(f, t, id)
    && (AtSuccessor(t.writers[id].pc) ==> Admits(t.writers[id].request))
  }

  lemma InvPlaces(f: Format, t: State, id: nat)
    requires Inv(f, t) && id in t.writers
    ensures WellPlaced(f, t, id)
  {
    assert WriterFacts(f, t, id);
    if AtSuccessor(t.writers[id].pc) { PublishedIsAdmitted(f, t, id); }
  }

  lemma StaysOnItsWay(f: Format, t: State, id: nat, e: Event)
    requires Inv(f, t) && Lawful(f) && id in t.writers && e.id in t.writers
    requires e.id == id ==> e.io == Fine
    requires OnItsWay(t, id)
    ensures OnItsWay(Step(f, t, e.id, e.io), id)
  {
    if e.id != id {
      StepGrowsLog(f, t, e.id, e.io);
      OthersStay(f, t, e.id, e.io, id);
      OthersKeepLog(t.log, Step(f, t, e.id, e.io).log, e.id, id);
    } else {
      InvPlaces(f, t, id);
      OwnStepOnItsWay(f, t, id);
    }
  }

  lemma OwnStepOnItsWay(f: Format, t: State, id: nat)
    requires Lawful(f) && WellPlaced(f, t, id) && OnItsWay(t, id)
    ensures OnItsWay(Step(f, t, id, Fine), id)
  {
    var pc := t.writers[id].pc;
    if AtSuccessor(pc) {
      NextAfterReplacement(f, t, id);
    } else if pc == TempWritten {
      ReplacementStep(f, t, id);
    } else {
      QuietLog(f, t, id);
    }
  }

  lemma QuietLog(f: Format, t: State, id: nat)
    requires id in t.writers && t.writers[id].pc != TempWritten
    ensures Step(f, t, id, Fine).log == t.log
  {
  }

  /** How a published call ends: by its existence check. */
  lemma EndsByLooking(f: Format, t: State, id: nat)
    requires Lawful(f) && WellPlaced(f, t, id) && OnItsWay(t, id) && !Finished(t.writers[id].pc)
    requires var next := Step(f, t, id, Fine); Has(next.log, id) && Finished(next.writers[id].pc)
    ensures t.writers[id].pc == Released
    ensures Step(f, t, id, Fine).writers[id].pc == if t.lock.Present? then Raised(false) else Returned
  {
    var pc := t.writers[id].pc;
    if pc == TempWritten {
      ReplacementStep(f, t, id);
      assert false;
    } else if AtSuccessor(pc) {
      NextAfterReplacement(f, t, id);
      assert false;
    } else {
      QuietLog(f, t, id);
      LooksWhenReleased(f, t, id);
    }
  }

  lemma LooksWhenReleased(f: Format, t: State, id: nat)
    requires id in t.writers && t.writers[id].pc == Released
    ensures Step(f, t, id, Fine).writers[id].pc == if t.lock.Present? then Raised(false) else Returned
  {
  }

  lemma EntersReleased(f: Format, t: State, id: nat, io: Io)
    requires id in t.writers && t.writers[id].pc != Released
    requires Step(f, t, id, io).writers[id].pc == Released
    ensures Step(f, t, id, io).lock == Absent
  {
  }

  lemma LeavesReleased(f: Format, t: State, id: nat, io: Io)
    requires id in t.writers && t.writers[id].pc == Released
    ensures Step(f, t, id, io).writers[id].pc != Released
  {
  }

  /** The lock is only ever taken by creating it. */
  lemma TakesByCreating(f: Format, t: State, id: nat, io: Io)
    requires id in t.writers && !Holds(t.writers[id]) && Holds(Step(f, t, id, io).writers[id])
    ensures t.lock == Absent && t.writers[id].pc == Start && Step(f, t, id, io).writers[id].pc == Created
  {
    if !Finished(t.writers[id].pc) && t.writers[id].gate != Bare {
      BystanderSteps(f, t, id, io);
    }
  }

  // ---- along a run ----

  lemma OnItsWayNext(f: Format, events: seq<Event>, p: seq<State>, id: nat, j: nat)
    requires Passes(f, events, p, id) && Lawful(f) && Undisturbed(events, id) && j < |events|
    requires KnownAt(p, id, j) && OnItsWay(p[j], id)
    ensures KnownAt(p, id, j + 1) && OnItsWay(p[j + 1], id)
  {
    assert StepsAt(f, events, p, j) && SafeAt(f, p, j);
    StaysOnItsWay(f, p[j], id, events[j]);
  }

  lemma {:induction false} OnItsWayAlong(f: Format, events: seq<Event>, p: seq<State>, id: nat, j: nat)
    requires Passes(f, events, p, id) && Lawful(f) && Undisturbed(events, id) && j < |p|
    requires KnownAt(p, id, 0) && OnItsWay(p[0], id)
    ensures KnownAt(p, id, j) && OnItsWay(p[j], id)
  {
    if j > 0 {
      OnItsWayAlong(f, events, p, id, j - 1);
      OnItsWayNext(f, events, p, id, j - 1);
    }
  }

  lemma ReleasedByStep(f: Format, events: seq<Event>, p: seq<State>, id: nat, j: nat)
    requires Passes(f, events, p, id) && j < |events|
    requires KnownAt(p, id, j) && KnownAt(p, id, j + 1) && p[j + 1].writers[id].pc == Released
    ensures p[j].writers[id].pc == Released || LetsGo(events, p, id, j)
  {
    assert StepsAt(f, events, p, j);
    if events[j].id != id {
      OthersStay(f, p[j], events[j].id, events[j].io, id);
    } else if p[j].writers[id].pc != Released {
      EntersReleased(f, p[j], id, events[j].io);
    }
  }

  /** Whoever stands behind its unlink has made it at some event. */
  lemma {:induction false} LetsGoBefore(f: Format, events: seq<Event>, p: seq<State>, id: nat, j: nat) returns (u: nat)
    requires Passes(f, events, p, id) && j < |p|
    requires KnownAt(p, id, 0) && p[0].writers[id].pc == Start
    requires KnownAt(p, id, j) && p[j].writers[id].pc == Released
    ensures u < j && LetsGo(events, p, id, u)
    decreases j
  {
    assert KnownAt(p, id, j - 1);
    ReleasedByStep(f, events, p, id, j - 1);
    if p[j - 1].writers[id].pc == Released {
      u := LetsGoBefore(f, events, p, id, j - 1);
    } else {
      u := j - 1;
    }
  }

  /** A published call has ended. */
  ghost predicate Done(t: State, id: nat) {
    id in t.writers && Has(t.log, id) && Finished(t.writers[id].pc)
  }

  lemma DoneByStep(f: Format, events: seq<Event>, p: seq<State>, id: nat, j: nat)
    requires Passes(f, events, p, id) && Lawful(f) && Undisturbed(events, id) && j < |events|
    requires KnownAt(p, id, j) && OnItsWay(p[j], id) && Done(p[j + 1], id)
    ensures if Done(p[j], id) then p[j + 1].writers[id] == p[j].writers[id]
            else Looks(events, p, id, j) &&
                 p[j + 1].writers[id].pc == if p[j].lock.Present? then Raised(false) else Returned
  {
    assert StepsAt(f, events, p, j) && SafeAt(f, p, j);
    var e := events[j];
    if e.id != id {
      OthersStay(f, p[j], e.id, e.io, id);
      StepGrowsLog(f, p[j], e.id, e.io);
      OthersKeepLog(p[j].log, p[j + 1].log, e.id, id);
    } else if !Finished(p[j].writers[id].pc) {
      InvPlaces(f, p[j], id);
      EndsByLooking(f, p[j], id);
      assert KnownAt(p, id, j + 1);
    }
  }

  /** A published call that has ended did so at its existence check. */
  lemma {:induction false} LooksBefore(f: Format, events: seq<Event>, p: seq<State>, id: nat, j: nat) returns (c: nat)
    requires Passes(f, events, p, id) && Lawful(f) && Undisturbed(events, id) && j < |p|
    requires KnownAt(p, id, 0) && OnItsWay(p[0], id) && !Done(p[0], id)
    requires Done(p[j], id)
    ensures c < j && Looks(events, p, id, c)
    ensures p[j].writers[id].pc == if p[c].lock.Present? then Raised(false) else Returned
    decreases j
  {
    assert KnownAt(p, id, j - 1);
    OnItsWayAlong(f, events, p, id, j - 1);
    DoneByStep(f, events, p, id, j - 1);
    if Done(p[j - 1], id) {
      c := LooksBefore(f, events, p, id, j - 1);
    } else {
      c := j - 1;
    }
  }

  lemma TakenByStep(f: Format, events: seq<Event>, p: seq<State>, id: nat, other: nat, j: nat)
    requires Passes(f, events, p, id) && j < |events|
    requires HoldsAt(p, other, j + 1) && !HoldsAt(p, other, j)
    ensures events[j].id == other && Creates(events, p, j)
  {
    assert StepsAt(f, events, p, j);
    var e := events[j];
    if e.id != other {
      OthersStay(f, p[j], e.id, e.io, other);
    } else {
      TakesByCreating(f, p[j], other, e.io);
    }
  }

  lemma {:induction false} TakenSince(f: Format, events: seq<Event>, p: seq<State>, id: nat, other: nat, i: nat, j: nat)
    returns (k: nat)
    requires Passes(f, events, p, id) && i <= j < |p|
    requires !HoldsAt(p, other, i) && HoldsAt(p, other, j)
    ensures i <= k < j && TakesAndKeeps(events, p, k, j)
    ensures events[k].id == other
    decreases j
  {
    if HoldsAt(p, other, j - 1) {
      k := TakenSince(f, events, p, id, other, i, j - 1);
    } else {
      TakenByStep(f, events, p, id, other, j - 1);
      k := j - 1;
    }
  }

  lemma HeldBySomeone(f: Format, events: seq<Event>, p: seq<State>, id: nat, j: nat)
    requires Passes(f, events, p, id) && j < |p|
    ensures p[j].lock.Present? <==> exists other :: HoldsAt(p, other, j)
  {
    assert SafeAt(f, p, j);
    var t := p[j];
    if t.lock.Present? {
      var other :| other in t.writers && Holds(t.writers[other]);
      assert HoldsAt(p, other, j);
    }
  }

  /** The check finds the lock exactly if somebody has taken it over. */
  lemma PresentIffTaken(f: Format, events: seq<Event>, p: seq<State>, id: nat, u: nat, c: nat)
    requires Passes(f, events, p, id) && u < c
    requires LetsGo(events, p, id, u) && Looks(events, p, id, c)
    ensures p[c].lock.Present? <==> TakenBetween(events, p, u, c)
  {
    HeldBySomeone(f, events, p, id, c);
    if p[c].lock.Present? {
      var other :| HoldsAt(p, other, c);
      HeldBySomeone(f, events, p, id, u + 1);
      var k := TakenSince(f, events, p, id, other, u + 1, c);
    }
    if TakenBetween(events, p, u, c) {
      var k :| u < k < c && TakesAndKeeps(events, p, k, c);
      assert HoldsAt(p, events[k].id, c);
    }
  }

  /** The exact condition. From any reachable state in which the call has not begun, let
      the call publish and take its last step, none of its own steps failing. Then it
      raises exactly if, between its unlink and its existence check, another writer has
      created the lock and not yet let it go; otherwise it returns. */
  lemma RaisesIffTakenOver(f: Format, s: State, events: seq<Event>, id: nat) returns (u: nat, c: nat)
    requires Inv(f, s) && Lawful(f) && Known(s, events) && id in s.writers && s.writers[id].pc == Start
    requires Undisturbed(events, id) && Done(RunFrom(f, s, events), id)
    ensures var p := States(f, s, events);
            && u < c && LetsGo(events, p, id, u) && Looks(events, p, id, c)
            && RunFrom(f, s, events).writers[id].pc ==
               if TakenBetween(events, p, u, c) then Raised(false) else Returned
  {
    var p := States(f, s, events);
    StatesPass(f, s, events, id);
    assert KnownAt(p, id, 0);
    assert !Done(s, id) && OnItsWay(s, id) by { assert WriterFacts(f, s, id); }
    c := LooksBefore(f, events, p, id, |events|);
    u := LetsGoBefore(f, events, p, id, c);
    PresentIffTaken(f, events, p, id, u, c);
  }

  // ---- what a caller can know beforehand ----

  /** A run in which the call publishes and takes its last step, its own steps undisturbed. */
  ghost predicate PublishesIn(f: Format, s: State, events: seq<Event>, id: nat) {
    Known(s, events) && Undisturbed(events, id) && Done(RunFrom(f, s, events), id)
  }

  ghost predicate ReturnsIn(f: Format, s: State, events: seq<Event>, id: nat)
    requires Known(s, events) && id in s.writers
  {
    RunFrom(f, s, events).writers[id].pc == Returned
  }

  ghost predicate Begun(s: State, id: nat) {
    id in s.writers ==> s.writers[id].pc != Start
  }

  /** A call about to take the free lock can count on "published means returned" exactly if
      no other call has yet to begin. At the outset that means: if there is no other call. */
  lemma AlwaysReturnsIff(f: Format, s: State, id: nat)
    requires Inv(f, s) && Lawful(f) && Ready(f, s, id) && s.lock == Absent
    ensures (forall events: seq<Event> :: PublishesIn(f, s, events, id) ==> ReturnsIn(f, s, events, id)) <==>
            (forall other :: other != id ==> Begun(s, other))
  {
    if other :| other != id && !Begun(s, other) {
      var events := RaiseAfterPublication(f, s, id, other);
      assert PublishesIn(f, s, events, id) && !ReturnsIn(f, s, events, id);
    } else {
      forall events: seq<Event> | PublishesIn(f, s, events, id) ensures ReturnsIn(f, s, events, id) {
        AllBegunReturns(f, s, events, id);
      }
    }
  }

  lemma AllBegunReturns(f: Format, s: State, events: seq<Event>, id: nat)
    requires Inv(f, s) && Lawful(f) && id in s.writers && s.writers[id].pc == Start
    requires PublishesIn(f, s, events, id)
    requires forall other :: other != id ==> Begun(s, other)
    ensures ReturnsIn(f, s, events, id)
  {
    var p := States(f, s, events);
    var u, c := RaisesIffTakenOver(f, s, events, id);
    StatesPass(f, s, events, id);
    NoneToTakeOver(f, events, p, id, u, c);
  }

  lemma NoneToTakeOver(f: Format, events: seq<Event>, p: seq<State>, id: nat, u: nat, c: nat)
    requires Passes(f, events, p, id) && LetsGo(events, p, id, u)
    requires forall other :: other != id ==> Begun(p[0], other)
    ensures !TakenBetween(events, p, u, c)
  {
    if TakenBetween(events, p, u, c) {
      var k: nat :| u < k < c && TakesAndKeeps(events, p, k, c);
      TakerHadNotBegun(f, events, p, id, u, k);
    }
  }

  lemma TakerHadNotBegun(f: Format, events: seq<Event>, p: seq<State>, id: nat, u: nat, k: nat)
    requires Passes(f, events, p, id) && LetsGo(events, p, id, u) && u < k && Creates(events, p, k)
    ensures events[k].id != id && !Begun(p[0], events[k].id)
  {
    BeganThere(f, events, p, id, events[k].id, 0, k);
    BeganThere(f, events, p, id, events[k].id, u + 1, k);
  }

  /** Nobody returns to the start, so whoever stands there has always stood there. */
  lemma {:induction false} BeganThere(f: Format, events: seq<Event>, p: seq<State>, id: nat, other: nat, i: nat, k: nat)
    requires Passes(f, events, p, id) && i <= k < |p|
    requires KnownAt(p, other, k) && p[k].writers[other].pc == Start
    ensures KnownAt(p, other, i) && p[i].writers[other].pc == Start
    decreases k
  {
    if i < k {
      NeverBackToStart(f, events, p, id, other, k - 1);
      BeganThere(f, events, p, id, other, i, k - 1);
    }
  }

  lemma NeverBackToStart(f: Format, events: seq<Event>, p: seq<State>, id: nat, other: nat, j: nat)
    requires Passes(f, events, p, id) && j < |events|
    requires KnownAt(p, other, j + 1) && p[j + 1].writers[other].pc == Start
    ensures KnownAt(p, other, j) && p[j].writers[other].pc == Start
  {
    assert StepsAt(f, events, p, j);
    if events[j].id != other { OthersStay(f, p[j], events[j].id, events[j].io, other); }
  }

  // ---- both outcomes occur, under either gate ----

  /** A raise does not mean that nothing was published. In any state in which the lock is
      free, a call is ready and another has yet to begin, there is a run in which the first
      publishes, releases, and then raises because it sees the other's lock. */
  lemma RaiseAfterPublication(f: Format, s: State, id: nat, other: nat) returns (events: seq<Event>)
    requires Ready(f, s, id) && s.lock == Absent && s.writers[id].gate != Bare
    requires other in s.writers && other != id && s.writers[other].pc == Start && s.writers[other].gate != Bare
    ensures Known(s, events) && Undisturbed(events, id)
    ensures var t := RunFrom(f, s, events);
            && t.writers[id].pc == Raised(false)
            && t.anchor == Some(f.render(s.writers[id].request.recovery.head))
            && Has(t.log, id)
  {
    var first := ReleasingRun(f, s, id);
    events := first + [Event(other, Fine), Event(id, Fine)];
    TakenOverRun(f, s, first, id, other);
    assert RunFrom(f, s, first).log[|s.log|].writer == id;
  }

  /** The run that takes a ready call to its release. */
  lemma ReleasingRun(f: Format, s: State, id: nat) returns (events: seq<Event>)
    requires Ready(f, s, id) && s.lock == Absent && s.writers[id].gate != Bare
    ensures Known(s, events) && Undisturbed(events, id)
    ensures RunFrom(f, s, events) == At(Published(f, s, id), id, Released)
  {
    var n := ReleaseSteps(s.writers[id].gate);
    events := Times(id, n);
    AloneIsRun(f, s, [], id, n);
    assert [] + events == events;
    RunsToRelease(f, s, id);
  }

  lemma TakenOverRun(f: Format, s: State, first: seq<Event>, id: nat, other: nat)
    requires Known(s, first) && id in s.writers && other in s.writers && other != id
    requires var t := RunFrom(f, s, first);
             && t.lock == Absent && t.writers[id].pc == Released
             && t.writers[other].pc == Start && t.writers[other].gate != Bare
    ensures var events := first + [Event(other, Fine), Event(id, Fine)];
            && Known(s, events)
            && RunFrom(f, s, events) ==
               At(At(RunFrom(f, s, first).(lock := Present(Blank)), other, Created), id, Raised(false))
  {
    RunSnoc(f, s, first, Event(other, Fine));
    RunSnoc(f, s, first + [Event(other, Fine)], Event(id, Fine));
    assert first + [Event(other, Fine), Event(id, Fine)] == first + [Event(other, Fine)] + [Event(id, Fine)];
    LockTakenOver(f, RunFrom(f, s, first), id, other);
  }

  lemma LockTakenOver(f: Format, t: State, id: nat, other: nat)
    requires id in t.writers && other in t.writers && other != id && t.lock == Absent
    requires t.writers[id].pc == Released && t.writers[other].pc == Start && t.writers[other].gate != Bare
    ensures Step(f, Step(f, t, other, Fine), id, Fine) == At(At(t.(lock := Present(Blank)), other, Created), id, Raised(false))
  {
  }

  /** That the lock was taken in between is not enough: if the other call fails and lets the
      lock go before the check, the published call still returns. */
  lemma TakenAndLetGo(f: Format, s: State, id: nat, other: nat) returns (events: seq<Event>, u: nat, k: nat)
    requires Inv(f, s) && Ready(f, s, id) && s.lock == Absent
    requires other in s.writers && other != id && s.writers[other].pc == Start
    ensures PublishesIn(f, s, events, id) && ReturnsIn(f, s, events, id)
    ensures var p := States(f, s, events);
            && u < k && LetsGo(events, p, id, u) && Looks(events, p, id, |events| - 1)
            && Creates(events, p, k) && events[k].id == other
  {
    events, k := LetGoRun(f, s, id, other);
    StatesPass(f, s, events, id);
    u := TakenInBetween(f, events, States(f, s, events), id, other, k);
    assert RunFrom(f, s, events).log[|s.log|].writer == id;
  }

  lemma LetGoRun(f: Format, s: State, id: nat, other: nat) returns (events: seq<Event>, k: nat)
    requires Ready(f, s, id) && s.lock == Absent && s.writers[id].gate != Bare
    requires other in s.writers && other != id && s.writers[other].pc == Start && s.writers[other].gate != Bare
    ensures Known(s, events) && Undisturbed(events, id)
    ensures |events| == k + 6 && events[k] == Event(other, Fine) && events[k + 5] == Event(id, Fine)
    ensures Known(s, events[..k]) && RunFrom(f, s, events[..k]) == At(Published(f, s, id), id, Released)
    ensures Known(s, events[..k + 5])
    ensures RunFrom(f, s, events[..k + 5]) == At(RunFrom(f, s, events[..k]), other, Raised(false))
  {
    var first := ReleasingRun(f, s, id);
    k := |first|;
    FailingRun(f, s, first, other);
    events := first + FailingCall(other) + [Event(id, Fine)];
    assert events[..k] == first && events[..k + 5] == first + FailingCall(other);
  }

  /** The other call takes the lock, marks it, fails on the anchor and cleans up. */
  function FailingCall(other: nat): seq<Event> {
    [Event(other, Fine), Event(other, Fine), Event(other, Fails), Event(other, Fine), Event(other, Fine)]
  }

  lemma FailingRun(f: Format, s: State, first: seq<Event>, other: nat)
    requires Known(s, first) && other in s.writers
    requires var t := RunFrom(f, s, first); t.lock == Absent && t.writers[other].pc == Start && t.writers[other].gate != Bare
    ensures Known(s, first + FailingCall(other))
    ensures RunFrom(f, s, first + FailingCall(other)) == At(RunFrom(f, s, first), other, Raised(false))
  {
    var failed := first + Times(other, 2) + [Event(other, Fails)];
    FailsUnderLock(f, s, first, other);
    AloneIsRun(f, s, failed, other, 2);
    CleansUp(f, RunFrom(f, s, failed), other);
    FailingEvents(first, other);
    SameAfterCleanup(RunFrom(f, s, first), other);
  }

  lemma FailingEvents(first: seq<Event>, other: nat)
    ensures first + FailingCall(other) == first + Times(other, 2) + [Event(other, Fails)] + Times(other, 2)
  {
  }

  lemma FailsUnderLock(f: Format, s: State, first: seq<Event>, other: nat)
    requires Known(s, first) && other in s.writers
    requires var t := RunFrom(f, s, first); t.lock == Absent && t.writers[other].pc == Start && t.writers[other].gate != Bare
    ensures var failed := first + Times(other, 2) + [Event(other, Fails)];
            && Known(s, failed)
            && RunFrom(f, s, failed) == At(Locked(RunFrom(f, s, first), other), other, Unwinding)
  {
    var t := RunFrom(f, s, first);
    AloneIsRun(f, s, first, other, 2);
    Locks(f, t, other);
    var marked := At(Locked(t, other), other, Marked);
    RunSnoc(f, s, first + Times(other, 2), Event(other, Fails));
    FailsOnAnchor(f, marked, other);
    assert At(marked, other, Unwinding) == At(Locked(t, other), other, Unwinding);
  }

  lemma SameAfterCleanup(t: State, other: nat)
    requires other in t.writers && t.lock == Absent
    ensures At(At(Locked(t, other), other, Unwinding).(lock := Absent), other, Raised(false)) == At(t, other, Raised(false))
  {
  }

  lemma FailsOnAnchor(f: Format, t: State, other: nat)
    requires other in t.writers && t.writers[other].pc == Marked && t.writers[other].gate != Bare
    ensures Step(f, t, other, Fails) == At(t, other, Unwinding)
  {
  }

  lemma CleansUp(f: Format, t: State, other: nat)
    requires other in t.writers && t.writers[other].pc == Unwinding && t.writers[other].gate != Bare
    requires t.lock == Present(Marker(t.writers[other]))
    ensures Alone(f, t, other, 2) == At(t.(lock := Absent), other, Raised(false))
  {
    AloneNext(f, t, other, 0, t);
    if t.writers[other].gate == OwnershipBound {
      AloneNext(f, t, other, 1, At(t, other, OwnLockSeen));
    } else {
      AloneNext(f, t, other, 1, At(t.(lock := Absent), other, Raised(false)));
    }
  }

  lemma TakenInBetween(f: Format, events: seq<Event>, p: seq<State>, id: nat, other: nat, n: nat) returns (u: nat)
    requires Passes(f, events, p, id) && |events| == n + 6 && other != id
    requires events[n] == Event(other, Fine) && events[n + 5] == Event(id, Fine)
    requires KnownAt(p, id, 0) && p[0].writers[id].pc == Start
    requires KnownAt(p, id, n) && p[n].writers[id].pc == Released && p[n].lock == Absent
    requires KnownAt(p, other, n) && p[n].writers[other].pc == Start && p[n].writers[other].gate != Bare
    requires p[n + 5] == At(p[n], other, Raised(false))
    ensures u < n && LetsGo(events, p, id, u) && Looks(events, p, id, n + 5) && Creates(events, p, n)
    ensures p[n + 6] == At(p[n + 5], id, Returned)
  {
    u := LetsGoBefore(f, events, p, id, n);
    assert StepsAt(f, events, p, n) && StepsAt(f, events, p, n + 5);
    assert KnownAt(p, id, n + 5) && KnownAt(p, id, n + 6);
    assert KnownAt(p, other, n + 1);
  }
}
