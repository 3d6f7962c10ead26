/** Safety of concurrent advancement: what every step of every interleaving keeps, for
    any number of writers that all go through a locked gate. */
module AnchorSafety {
  import opened Wrappers
  import opened Text
  import opened Utf8
  import opened HeadStore
  import opened AnchorProtocol

  // ---- the invariant ----

  ghost predicate Has(log: seq<Publication>, id: nat) {
    exists i :: 0 <= i < |log| && log[i].writer == id
  }

  /** At most one writer holds the lock, and the lock file exists exactly while one does. */
  ghost predicate Exclusive(s: State) {
    && (forall a, b :: a in s.writers && b in s.writers && Holds(s.writers[a]) && Holds(s.writers[b]) ==> a == b)
    && (s.lock.Present? <==> exists id :: id in s.writers && Holds(s.writers[id]))
  }

  /** What the anchor held before the i-th publication. */
  function Before(origin: Option<Bytes>, log: seq<Publication>, i: nat): Option<Bytes>
    requires i <= |log|
  {
    if i == 0 then origin else Some(log[i - 1].after)
  }

  /** A publication replaces the head its call was admitted on by that head's successor. */
  ghost predicate Advances(f: Format, s: State, p: Publication) {
    && p.writer in s.writers
    && Admits(s.writers[p.writer].request)
    && p.before.Some?
    && f.parse(p.before.value) == Some(s.writers[p.writer].request.store.head)
    && p.after == Successor(f, s.writers[p.writer].request)
  }

  ghost predicate LinkedAt(origin: Option<Bytes>, log: seq<Publication>, i: nat)
    requires i < |log|
  {
    log[i].before == Before(origin, log, i)
  }

  /** Each publication found in the anchor what the previous one left there; `anchor` is what the last one left. */
  ghost predicate Linked(origin: Option<Bytes>, log: seq<Publication>, anchor: Option<Bytes>) {
    && (forall i :: 0 <= i < |log| ==> LinkedAt(origin, log, i))
    && anchor == Before(origin, log, |log|)
  }

  /** The publications form one unbroken chain from the original anchor to the current one. */
  ghost predicate Chained(f: Format, s: State) {
    && Linked(s.origin, s.log, s.anchor)
    && (forall i :: 0 <= i < |s.log| ==> Advances(f, s, s.log[i]))
  }

  ghost predicate OncePerWriter(log: seq<Publication>) {
    forall i, j :: 0 <= i < j < |log| ==> log[i].writer != log[j].writer
  }

  predicate LockMarked(pc: Pc) {
    match pc
    case Marked | PredecessorRead | PredecessorLoaded | TempWritten | Replaced | ReadBack | Confirmed | Rechecked
         | OwnLockSeen => true
    case _ => false
  }

  predicate AtPredecessor(pc: Pc) {
    pc == PredecessorLoaded || pc == TempWritten
  }

  predicate AtSuccessor(pc: Pc) {
    pc == Replaced || pc == ReadBack || pc == Confirmed || pc == Rechecked
  }

  predicate NotYetPublished(pc: Pc) {
    pc == Start || pc == Created || pc == Marked || pc == PredecessorRead || AtPredecessor(pc)
  }

  predicate HasPublished(pc: Pc) {
    AtSuccessor(pc) || pc == Released || pc == Returned
  }

  /** What writer `id` can rely on where it stands. */
  ghost predicate WriterFacts(f: Format, s: State, id: nat)
    requires id in s.writers
  {
    var w := s.writers[id];
    && (LockMarked(w.pc) ==> s.lock == Present(Marker(w)))
    && (w.pc == PredecessorRead || AtPredecessor(w.pc) ==> Admits(w.request))
    && (AtPredecessor(w.pc) ==>
          s.anchor.Some? && f.parse(s.anchor.value) == Some(w.request.store.head))
    && (w.pc == TempWritten ==> w.pid in s.temps && s.temps[w.pid] == Successor(f, w.request))
    && (AtSuccessor(w.pc) ==> s.anchor == Some(Successor(f, w.request)))
    && (NotYetPublished(w.pc) ==> !Has(s.log, id))
    && (HasPublished(w.pc) ==> Has(s.log, id))
  }

  ghost predicate Inv(f: Format, s: State) {
    && Cooperating(s)
    && Exclusive(s)
    && Chained(f, s)
    && OncePerWriter(s.log)
    && forall id :: id in s.writers ==> WriterFacts(f, s, id)
  }

  lemma InitInv(f: Format, s: State)
    requires Init(s) && Cooperating(s)
    ensures Inv(f, s)
  {
  }

  // ---- one step ----

  /** Only writer `id`'s program counter differs among the writers. */
  ghost predicate OnlyMoves(s: State, t: State, id: nat) {
    && id in s.writers
    && id in t.writers
    && t.writers == s.writers[id := s.writers[id].(pc := t.writers[id].pc)]
    && t.origin == s.origin
  }

  /** The log only grows, and only by publications of `id`. */
  ghost predicate LogGrows(before: seq<Publication>, after: seq<Publication>, id: nat) {
    after == before || (exists p :: after == before + [p] && p.writer == id)
  }

  lemma OthersKeepLog(before: seq<Publication>, after: seq<Publication>, id: nat, other: nat)
    requires LogGrows(before, after, id) && other != id
    ensures Has(before, other) <==> Has(after, other)
  {
    if Has(before, other) {
      var i :| 0 <= i < |before| && before[i].writer == other;
      assert after[i].writer == other;
    }
    if Has(after, other) {
      var i :| 0 <= i < |after| && after[i].writer == other;
      assert i < |before| && before[i].writer == other;
    }
  }

  /** A cooperating writer without the lock relies on no shared file, only on the log. */
  lemma BystanderFacts(f: Format, s: State, t: State, other: nat)
    requires other in s.writers && other in t.writers && t.writers[other] == s.writers[other]
    requires s.writers[other].gate != Bare && !Holds(s.writers[other])
    requires WriterFacts(f, s, other)
    requires Has(s.log, other) <==> Has(t.log, other)
    ensures WriterFacts(f, t, other)
  {
  }

  /** While `id` holds the lock, nobody else relies on the shared files. */
  lemma OthersKeepFacts(f: Format, s: State, t: State, id: nat)
    requires Inv(f, s) && OnlyMoves(s, t, id) && Holds(s.writers[id]) && LogGrows(s.log, t.log, id)
    ensures forall other :: other in t.writers && other != id ==> WriterFacts(f, t, other)
  {
    forall other | other in t.writers && other != id ensures WriterFacts(f, t, other) {
      OthersKeepLog(s.log, t.log, id, other);
      BystanderFacts(f, s, t, other);
    }
  }

  lemma ExclusiveKept(f: Format, s: State, t: State, id: nat)
    requires Inv(f, s) && OnlyMoves(s, t, id) && Holds(s.writers[id])
    requires t.lock.Present? <==> Holds(t.writers[id])
    ensures Exclusive(t)
  {
    forall a | a in t.writers && a != id ensures !Holds(t.writers[a]) {
      assert t.writers[a] == s.writers[a];
    }
  }

  lemma AdvancesKept(f: Format, s: State, t: State, id: nat, p: Publication)
    requires OnlyMoves(s, t, id) && Advances(f, s, p)
    ensures Advances(f, t, p)
  {
  }

  lemma ChainKept(f: Format, s: State, t: State, id: nat)
    requires Chained(f, s) && OnlyMoves(s, t, id) && t.log == s.log && t.anchor == s.anchor
    ensures Chained(f, t)
  {
    forall i | 0 <= i < |t.log| ensures Advances(f, t, t.log[i]) {
      AdvancesKept(f, s, t, id, s.log[i]);
    }
  }

  /** A holder's step that leaves the anchor alone. */
  lemma HolderMoves(f: Format, s: State, t: State, id: nat)
    requires Inv(f, s) && OnlyMoves(s, t, id) && Holds(s.writers[id])
    requires t.log == s.log && t.anchor == s.anchor
    requires t.lock.Present? <==> Holds(t.writers[id])
    requires WriterFacts(f, t, id)
    ensures Inv(f, t)
  {
    ExclusiveKept(f, s, t, id);
    ChainKept(f, s, t, id);
    OthersKeepFacts(f, s, t, id);
  }

  /** The program counters a writer without the lock can move to. */
  predicate BystanderGoal(from: Pc, to: Pc) {
    to == Crashed(false) || to == Raised(false) || (from == Released && to == Returned)
  }

  lemma BystanderOwnFacts(f: Format, s: State, id: nat, pc: Pc)
    requires id in s.writers && WriterFacts(f, s, id) && BystanderGoal(s.writers[id].pc, pc)
    ensures WriterFacts(f, At(s, id, pc), id) && !Holds(At(s, id, pc).writers[id])
  {
  }

  /** A step that only moves a program counter, of a writer that holds neither before nor after. */
  lemma BystanderMoves(f: Format, s: State, id: nat, pc: Pc)
    requires Inv(f, s) && id in s.writers && !Holds(s.writers[id]) && BystanderGoal(s.writers[id].pc, pc)
    ensures Inv(f, At(s, id, pc))
  {
    var t := At(s, id, pc);
    assert Chained(f, t) by { ChainKept(f, s, t, id); }
    assert WriterFacts(f, s, id);
    forall a | a in t.writers ensures Holds(t.writers[a]) == Holds(s.writers[a]) && WriterFacts(f, t, a) {
      if a == id {
        BystanderOwnFacts(f, s, id, pc);
      } else {
        assert t.writers[a] == s.writers[a] && WriterFacts(f, s, a);
        SameFilesSameFacts(f, s, t, a);
      }
    }
  }

  lemma SameFilesSameFacts(f: Format, s: State, t: State, other: nat)
    requires other in s.writers && other in t.writers && t.writers[other] == s.writers[other]
    requires t.anchor == s.anchor && t.lock == s.lock && t.temps == s.temps && t.log == s.log
    requires WriterFacts(f, s, other)
    ensures WriterFacts(f, t, other)
  {
  }

  lemma AcquireKeeps(f: Format, s: State, id: nat)
    requires Inv(f, s) && id in s.writers && s.writers[id].pc == Start && s.lock == Absent
    ensures Inv(f, At(s.(lock := Present(Blank)), id, Created))
  {
    var t := At(s.(lock := Present(Blank)), id, Created);
    ChainKept(f, s, t, id);
    assert t.writers[id].gate == s.writers[id].gate && Holds(t.writers[id]);
    forall a | a in t.writers && a != id ensures !Holds(t.writers[a]) && WriterFacts(f, t, a) {
      assert !Holds(s.writers[a]);
      BystanderFacts(f, s, t, a);
    }
    assert WriterFacts(f, s, id);
  }

  function Replacement(s: State, id: nat): State
    requires id in s.writers && s.writers[id].pid in s.temps
  {
    var w := s.writers[id];
    At(DropTemp(s, w.pid).(anchor := Some(s.temps[w.pid]),
                           log := s.log + [Publication(id, s.anchor, s.temps[w.pid])]), id, Replaced)
  }

  lemma LinkAppended(origin: Option<Bytes>, log: seq<Publication>, anchor: Option<Bytes>, p: Publication)
    requires Linked(origin, log, anchor) && p.before == anchor
    ensures Linked(origin, log + [p], Some(p.after))
  {
    var longer := log + [p];
    forall i | 0 <= i < |longer| ensures LinkedAt(origin, longer, i) {
      if i < |log| { assert LinkedAt(origin, log, i); }
      assert Before(origin, longer, i) == Before(origin, log, i);
    }
  }

  lemma ReplacementChained(f: Format, s: State, id: nat)
    requires Chained(f, s) && id in s.writers && s.writers[id].pc == TempWritten && WriterFacts(f, s, id)
    ensures s.writers[id].pid in s.temps && Chained(f, Replacement(s, id))
  {
    var t := Replacement(s, id);
    var p := Publication(id, s.anchor, s.temps[s.writers[id].pid]);
    assert Advances(f, s, p);
    LinkAppended(s.origin, s.log, s.anchor, p);
    forall i | 0 <= i < |t.log| ensures Advances(f, t, t.log[i]) {
      if i < |s.log| {
        AdvancesKept(f, s, t, id, s.log[i]);
      } else {
        AdvancesKept(f, s, t, id, p);
      }
    }
  }

  /** Replacing the anchor extends the chain by exactly the caller's successor. */
  lemma ReplaceKeeps(f: Format, s: State, id: nat)
    requires Inv(f, s) && id in s.writers && s.writers[id].pc == TempWritten
    ensures s.writers[id].pid in s.temps && Inv(f, Replacement(s, id))
  {
    assert WriterFacts(f, s, id);
    var t := Replacement(s, id);
    var p := Publication(id, s.anchor, s.temps[s.writers[id].pid]);
    assert Chained(f, t) by { ReplacementChained(f, s, id); }
    assert OncePerWriter(t.log) by { NewWriterOnce(s.log, p); }
    assert WriterFacts(f, t, id) by { ReplacedFacts(f, s, id); }
    assert Exclusive(t) by { ExclusiveKept(f, s, t, id); }
    assert LogGrows(s.log, t.log, id) by { assert t.log == s.log + [p]; }
    OthersKeepFacts(f, s, t, id);
  }

  lemma ReplacedFacts(f: Format, s: State, id: nat)
    requires id in s.writers && s.writers[id].pc == TempWritten && s.writers[id].gate != Bare && WriterFacts(f, s, id)
    ensures WriterFacts(f, Replacement(s, id), id)
  {
    assert Replacement(s, id).log[|s.log|].writer == id;
  }

  lemma NewWriterOnce(log: seq<Publication>, p: Publication)
    requires OncePerWriter(log) && !Has(log, p.writer)
    ensures OncePerWriter(log + [p])
  {
  }

  /** A load that returns has parsed what it returns. */
  lemma LoadParses(f: Format, file: Option<Bytes>, expected: Text, h: StoredHead)
    requires Load(f, file, expected) == Some(h)
    ensures file.Some? && f.parse(file.value) == Some(h)
  {
  }

  /** What `HolderMoves` asks of a step. */
  ghost predicate Moves(f: Format, s: State, t: State, id: nat) {
    && OnlyMoves(s, t, id)
    && t.log == s.log && t.anchor == s.anchor
    && (t.lock.Present? <==> Holds(t.writers[id]))
    && WriterFacts(f, t, id)
  }

  lemma DyingMoves(f: Format, s: State, id: nat)
    requires id in s.writers && Holds(s.writers[id]) && !Finished(s.writers[id].pc)
    requires WriterFacts(f, s, id) && s.lock.Present?
    ensures Moves(f, s, Step(f, s, id, Dies), id)
  {
  }

  /** Steps up to the replacement, the replacement itself excepted. */
  lemma EarlyMoves(f: Format, s: State, id: nat, io: Io)
    requires id in s.writers && Holds(s.writers[id]) && NotYetPublished(s.writers[id].pc)
    requires WriterFacts(f, s, id) && s.lock.Present?
    requires io != Dies && (s.writers[id].pc == TempWritten ==> io == Fails)
    ensures Moves(f, s, Step(f, s, id, io), id)
  {
    var w := s.writers[id];
    if w.pc == PredecessorRead {
      var loaded := Load(f, s.anchor, w.request.store.payloadSha);
      if loaded == Some(w.request.store.head) {
        LoadParses(f, s.anchor, w.request.store.payloadSha, w.request.store.head);
      }
    }
  }

  /** Steps after the replacement, and the exceptional path. */
  lemma LateMoves(f: Format, s: State, id: nat, io: Io)
    requires id in s.writers && Holds(s.writers[id]) && !Finished(s.writers[id].pc)
    requires !NotYetPublished(s.writers[id].pc) && io != Dies
    requires WriterFacts(f, s, id) && s.lock.Present?
    ensures Moves(f, s, Step(f, s, id, io), id)
  {
  }

  /** Every step of a holder but the replacement. */
  lemma AnyMoves(f: Format, s: State, id: nat, io: Io)
    requires id in s.writers && Holds(s.writers[id]) && !Finished(s.writers[id].pc)
    requires WriterFacts(f, s, id) && s.lock.Present?
    requires s.writers[id].pc == TempWritten ==> io != Fine
    ensures Moves(f, s, Step(f, s, id, io), id)
  {
    if io == Dies {
      DyingMoves(f, s, id);
    } else if NotYetPublished(s.writers[id].pc) {
      EarlyMoves(f, s, id, io);
    } else {
      LateMoves(f, s, id, io);
    }
  }

  lemma ReplacementStep(f: Format, s: State, id: nat)
    requires id in s.writers && s.writers[id].pc == TempWritten && s.writers[id].pid in s.temps
    ensures Step(f, s, id, Fine) == Replacement(s, id)
  {
  }

  /** Every step of a holder keeps the invariant. */
  lemma HolderStep(f: Format, s: State, id: nat, io: Io)
    requires Inv(f, s) && id in s.writers && Holds(s.writers[id]) && !Finished(s.writers[id].pc)
    ensures Inv(f, Step(f, s, id, io))
  {
    assert WriterFacts(f, s, id);
    if io == Fine && s.writers[id].pc == TempWritten {
      ReplaceKeeps(f, s, id);
      ReplacementStep(f, s, id);
    } else {
      AnyMoves(f, s, id, io);
      HolderMoves(f, s, Step(f, s, id, io), id);
    }
  }

  /** What a cooperating writer without the lock does next. */
  lemma BystanderSteps(f: Format, s: State, id: nat, io: Io)
    requires id in s.writers && s.writers[id].gate != Bare
    requires !Holds(s.writers[id]) && !Finished(s.writers[id].pc)
    ensures s.writers[id].pc == Start || s.writers[id].pc == Released
    ensures Step(f, s, id, io) ==
              if io == Dies then At(s, id, Crashed(false))
              else if io == Fails || s.lock.Present? then At(s, id, Raised(false))
              else if s.writers[id].pc == Start then At(s.(lock := Present(Blank)), id, Created)
              else At(s, id, Returned)
  {
  }

  lemma BystanderStep(f: Format, s: State, id: nat, io: Io)
    requires Inv(f, s) && id in s.writers && !Holds(s.writers[id]) && !Finished(s.writers[id].pc)
    ensures Inv(f, Step(f, s, id, io))
  {
    assert WriterFacts(f, s, id);
    BystanderSteps(f, s, id, io);
    if io == Dies {
      BystanderMoves(f, s, id, Crashed(false));
    } else if io == Fails || s.lock.Present? {
      BystanderMoves(f, s, id, Raised(false));
    } else if s.writers[id].pc == Start {
      AcquireKeeps(f, s, id);
    } else {
      BystanderMoves(f, s, id, Returned);
    }
  }

  /** Every step of any writer keeps the invariant. */
  lemma StepKeeps(f: Format, s: State, id: nat, io: Io)
    requires Inv(f, s) && id in s.writers
    ensures Inv(f, Step(f, s, id, io))
  {
    if !Finished(s.writers[id].pc) {
      if Holds(s.writers[id]) {
        HolderStep(f, s, id, io);
      } else {
        BystanderStep(f, s, id, io);
      }
    }
  }

  lemma {:induction false} RunKeepsInv(f: Format, s: State, events: seq<Event>)
    requires Inv(f, s) && Known(s, events)
    ensures Inv(f, RunFrom(f, s, events))
  {
    if events != [] {
      var n := |events| - 1;
      RunKeepsInv(f, s, events[..n]);
      StepKeeps(f, RunFrom(f, s, events[..n]), events[n].id, events[n].io);
    }
  }

  /** Every reachable state of every interleaving satisfies the invariant. */
  lemma RunKeeps(f: Format, s: State, events: seq<Event>)
    requires Init(s) && Cooperating(s) && Known(s, events)
    ensures Inv(f, RunFrom(f, s, events))
  {
    InitInv(f, s);
    RunKeepsInv(f, s, events);
  }
}
