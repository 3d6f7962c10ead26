/** What a locked call leaves behind: none that ends keeps its lock, unless one of its own
    steps failed, and a refused one touches nothing. */
module AnchorCleanup {
  import opened Wrappers
  import opened Text
  import opened Utf8
  import opened HeadStore
  import opened AnchorProtocol
  import opened AnchorSafety
  import opened AnchorTheorems
  import opened AnchorRuns
  import opened AnchorRelease

  /** A call none of whose steps has failed has ended without its lock, or still knows the lock
      for its own when it comes to clean up. */
  ghost predicate Tidy(t: State, id: nat)
    requires id in t.writers
  {
    var w := t.writers[id];
    && (Finished(w.pc) ==> w.pc == Returned || w.pc == Raised(false))
    && (w.pc == Unwinding || w.pc == OwnLockSeen ==> t.lock == Present(Marker(w)))
  }

  lemma TidyByStep(f: Format, t: State, id: nat)
    requires id in t.writers && t.writers[id].gate != Bare && Tidy(t, id)
    requires LockMarked(t.writers[id].pc) ==> t.lock == Present(Marker(t.writers[id]))
    ensures Tidy(Step(f, t, id, Fine), id)
  {
  }

  lemma OthersKeepTidy(f: Format, t: State, id: nat, e: Event)
    requires Inv(f, t) && id in t.writers && e.id in t.writers && e.id != id && Tidy(t, id)
    ensures Tidy(Step(f, t, e.id, e.io), id)
  {
    OthersStay(f, t, e.id, e.io, id);
    if t.writers[id].pc == Unwinding || t.writers[id].pc == OwnLockSeen {
      assert Holds(t.writers[id]);
      BystanderLeavesLock(f, t, e.id, e.io);
    }
  }

  /** Who does not hold the lock leaves a lock that is there as it is. */
  lemma BystanderLeavesLock(f: Format, t: State, id: nat, io: Io)
    requires id in t.writers && t.writers[id].gate != Bare && !Holds(t.writers[id]) && t.lock.Present?
    ensures Step(f, t, id, io).lock == t.lock
  {
    if !Finished(t.writers[id].pc) {
      BystanderSteps(f, t, id, io);
    }
  }

  lemma TidyNext(f: Format, events: seq<Event>, p: seq<State>, id: nat, j: nat)
    requires Passes(f, events, p, id) && Undisturbed(events, id) && j < |events|
    requires KnownAt(p, id, j) && Tidy(p[j], id)
    ensures KnownAt(p, id, j + 1) && Tidy(p[j + 1], id)
  {
    assert StepsAt(f, events, p, j) && SafeAt(f, p, j);
    if events[j].id == id {
      InvPlaces(f, p[j], id);
      TidyByStep(f, p[j], id);
    } else {
      OthersKeepTidy(f, p[j], id, events[j]);
    }
  }

  lemma {:induction false} TidyAlong(f: Format, events: seq<Event>, p: seq<State>, id: nat, j: nat)
    requires Passes(f, events, p, id) && Undisturbed(events, id) && j < |p|
    requires KnownAt(p, id, 0) && Tidy(p[0], id)
    ensures KnownAt(p, id, j) && Tidy(p[j], id)
  {
    if j > 0 {
      TidyAlong(f, events, p, id, j - 1);
      TidyNext(f, events, p, id, j - 1);
    }
  }

  /** In every run of cooperating writers a call that has ended, none of its own steps having
      failed, holds no lock; a lock that is there belongs to another call. */
  lemma EndedCallHoldsNothing(f: Format, s: State, events: seq<Event>, id: nat)
    requires Init(s) && Cooperating(s) && Known(s, events) && id in s.writers
    requires Undisturbed(events, id) && Finished(RunFrom(f, s, events).writers[id].pc)
    ensures var t := RunFrom(f, s, events);
            && t.writers[id].pc in {Returned, Raised(false)}
            && !Holds(t.writers[id])
            && (t.lock.Present? ==> exists other :: other in t.writers && other != id && Holds(t.writers[other]))
  {
    InitInv(f, s);
    StatesPass(f, s, events, id);
    assert KnownAt(States(f, s, events), id, 0);
    EndedHoldsNothing(f, events, States(f, s, events), id, |events|);
  }

  lemma EndedHoldsNothing(f: Format, events: seq<Event>, p: seq<State>, id: nat, j: nat)
    requires Passes(f, events, p, id) && Undisturbed(events, id) && j < |p|
    requires KnownAt(p, id, 0) && Tidy(p[0], id)
    requires KnownAt(p, id, j) && Finished(p[j].writers[id].pc)
    ensures p[j].writers[id].pc in {Returned, Raised(false)} && !Holds(p[j].writers[id])
    ensures p[j].lock.Present? ==> exists other :: other in p[j].writers && other != id && Holds(p[j].writers[other])
  {
    TidyAlong(f, events, p, id, j);
    HeldBySomeone(f, events, p, id, j);
    if p[j].lock.Present? {
      var other :| HoldsAt(p, other, j);
    }
  }

  /** While a call works, the lock names it: by its token under the ownership-bound gate, by
      its process under the other. */
  lemma LockNamesItsCall(f: Format, s: State, events: seq<Event>, id: nat)
    requires Init(s) && Cooperating(s) && Known(s, events) && id in s.writers
    ensures var t := RunFrom(f, s, events);
            var w := t.writers[id];
            w.pc in {Marked, PredecessorRead, PredecessorLoaded, TempWritten, Replaced, ReadBack, Confirmed, Rechecked} ==>
              t.lock == Present(if w.gate.OwnershipBound? then OwnerToken(w.token) else PidLine(w.pid))
  {
    RunKeeps(f, s, events);
    InvPlaces(f, RunFrom(f, s, events), id);
  }

  // ---- a refused call ----

  /** What can be wrong with the evidence: a check of an earlier gate is missing, a head or
      digest is malformed, or the two pieces do not fit together. */
  ghost predicate Amiss(r: Request) {
    || !r.store.compatibleState || !r.store.canonicalVerified || !r.store.replaceUsed
    || !r.store.readbackVerified || !r.store.consistencyVerified || r.store.controlAllowed
    || !r.recovery.compatibleState || !r.recovery.storedIdentityVerified || !r.recovery.predecessorMatchVerified
    || !r.recovery.recomputationVerified || !r.recovery.recoveryConsistencyVerified || r.recovery.controlAllowed
    || r.store.head.sequence <= 0 || Malformed(r.store.head.lineage)
    || Malformed(r.store.payloadSha) || r.store.payloadSize <= 0
    || r.recovery.head.sequence <= 0 || Malformed(r.recovery.head.lineage)
    || r.recovery.predecessor.sequence != r.store.head.sequence || r.recovery.predecessor.lineage != r.store.head.lineage
    || r.recovery.payloadSha != r.store.payloadSha || r.recovery.payloadSize != r.store.payloadSize
    || r.recovery.head.sequence - r.store.head.sequence != 1
  }

  /** Not 64 characters, or one of them is no lower-case hexadecimal digit. */
  ghost predicate Malformed(digest: Text) {
    |digest| != 64 || exists c :: c in digest && !(48 <= c <= 57) && !(97 <= c <= 102)
  }

  lemma MalformedIff(digest: Text)
    ensures Malformed(digest) <==> !IsHex64(digest)
  {
    if |digest| == 64 && !IsHex64(digest) {
      var i :| 0 <= i < 64 && !IsHexDigit(digest[i]);
      assert digest[i] in digest;
    }
  }

  /** The evidence is refused exactly then. */
  lemma AmissIff(r: Request)
    ensures Amiss(r) <==> !Admits(r)
  {
    MalformedIff(r.store.head.lineage);
    MalformedIff(r.store.payloadSha);
    MalformedIff(r.recovery.head.lineage);
  }

  /** What the advance step finds wrong: with the evidence, or with the file. */
  ghost predicate Refusable(f: Format, s: State, r: Request) {
    || Amiss(r)
    || s.anchor.None?
    || |s.anchor.value| != r.store.payloadSize
    || f.sha(s.anchor.value) != r.store.payloadSha
    || f.parse(s.anchor.value) != Some(r.store.head)
  }

  /** A locked call whose predecessor is no longer in the file takes the lock, finds that out,
      lets the lock go and raises; anchor, log and temporary files stay as they were. */
  lemma RefusedCallCleansUp(f: Format, s: State, id: nat)
    requires id in s.writers && s.writers[id].pc == Start && s.writers[id].gate != Bare && s.lock == Absent
    requires Refusable(f, s, s.writers[id].request)
    ensures Alone(f, s, id, 6) == At(s, id, Raised(false))
  {
    AmissIff(s.writers[id].request);
    var marked := At(Locked(s, id), id, Marked);
    Locks(f, s, id);
    UnwindsSoon(f, marked, id);
    IterateJoins(Next(f, id), s, 2, 4);
    assert At(marked.(lock := Absent), id, Raised(false)) == At(s, id, Raised(false));
  }

  /** An unlocked call has no lock to let go. */
  lemma RefusedBareCall(f: Format, s: State, id: nat)
    requires id in s.writers && s.writers[id].pc == Start && s.writers[id].gate == Bare
    requires Refusable(f, s, s.writers[id].request)
    ensures Alone(f, s, id, 2) == At(s, id, Raised(false))
  {
    AmissIff(s.writers[id].request);
    AloneNext(f, s, id, 0, s);
    if Step(f, s, id, Fine) == At(s, id, Raised(false)) {
      StaysEnded(f, At(s, id, Raised(false)), id, 1);
      IterateJoins(Next(f, id), s, 1, 1);
    } else {
      AloneNext(f, s, id, 1, At(s, id, PredecessorRead));
    }
  }

  lemma UnwindsSoon(f: Format, t: State, id: nat)
    requires id in t.writers && t.writers[id].pc == Marked && t.writers[id].gate != Bare
    requires t.lock == Present(Marker(t.writers[id])) && Refusable(f, t, t.writers[id].request)
    requires Amiss(t.writers[id].request) <==> !Admits(t.writers[id].request)
    ensures Alone(f, t, id, 4) == At(t.(lock := Absent), id, Raised(false))
  {
    AloneNext(f, t, id, 0, t);
    if Step(f, t, id, Fine) == At(t, id, Unwinding) {
      UnwindsAtOnce(f, t, id);
    } else {
      ReadsButRefuses(f, t, id);
      AloneNext(f, t, id, 1, At(t, id, PredecessorRead));
      CleansUp(f, At(t, id, Unwinding), id);
      IterateJoins(Next(f, id), t, 2, 2);
      SameTidied(t, id);
    }
  }

  lemma UnwindsAtOnce(f: Format, t: State, id: nat)
    requires id in t.writers && t.writers[id].pc == Marked && t.writers[id].gate != Bare
    requires t.lock == Present(Marker(t.writers[id])) && Alone(f, t, id, 1) == At(t, id, Unwinding)
    ensures Alone(f, t, id, 4) == At(t.(lock := Absent), id, Raised(false))
  {
    CleansUp(f, At(t, id, Unwinding), id);
    SameTidied(t, id);
    StaysEnded(f, At(t.(lock := Absent), id, Raised(false)), id, 1);
    IterateJoins(Next(f, id), At(t, id, Unwinding), 2, 1);
    IterateJoins(Next(f, id), t, 1, 3);
  }

  lemma SameTidied(t: State, id: nat)
    requires id in t.writers
    ensures At(At(t, id, Unwinding).(lock := Absent), id, Raised(false)) == At(t.(lock := Absent), id, Raised(false))
  {
  }

  lemma ReadsButRefuses(f: Format, t: State, id: nat)
    requires id in t.writers && t.writers[id].pc == Marked && t.writers[id].gate != Bare
    requires Refusable(f, t, t.writers[id].request) && Step(f, t, id, Fine) != At(t, id, Unwinding)
    requires Amiss(t.writers[id].request) <==> !Admits(t.writers[id].request)
    ensures Step(f, t, id, Fine) == At(t, id, PredecessorRead)
    ensures Step(f, At(t, id, PredecessorRead), id, Fine) == At(t, id, Unwinding)
  {
  }

  lemma StaysEnded(f: Format, t: State, id: nat, n: nat)
    requires id in t.writers && Finished(t.writers[id].pc)
    ensures Alone(f, t, id, n) == t
  {
    if n > 0 {
      StaysEnded(f, t, id, n - 1);
      AloneNext(f, t, id, n - 1, t);
    }
  }

  // ---- a call in trouble ----

  /** On the way out: what ends like this never returns evidence. */
  predicate Leaving(pc: Pc) {
    pc.Unwinding? || pc.OwnLockSeen? || pc.Raised? || pc.Crashed?
  }

  lemma LeavingStays(f: Format, s: State, id: nat, e: Event)
    requires id in s.writers && e.id in s.writers && Leaving(s.writers[id].pc)
    ensures Leaving(Step(f, s, e.id, e.io).writers[id].pc)
  {
    if e.id == id { LeavingSteps(f, s, id, e.io); } else { OthersStay(f, s, e.id, e.io, id); }
  }

  lemma LeavingSteps(f: Format, s: State, id: nat, io: Io)
    requires id in s.writers && Leaving(s.writers[id].pc)
    ensures Leaving(Step(f, s, id, io).writers[id].pc)
  {
  }

  lemma {:induction false} LeavesForGood(f: Format, s: State, events: seq<Event>, id: nat)
    requires Known(s, events) && id in s.writers && Leaving(s.writers[id].pc)
    ensures Leaving(RunFrom(f, s, events).writers[id].pc)
  {
    if events != [] {
      var n := |events| - 1;
      LeavesForGood(f, s, events[..n], id);
      LeavingStays(f, RunFrom(f, s, events[..n]), id, events[n]);
    }
  }

  /** What a call can still find wrong after it has read its predecessor, under any gate: the
      file no longer holds what it should, or the lock is not its own, gone or taken again. */
  ghost predicate Troubled(f: Format, s: State, id: nat)
    requires id in s.writers
  {
    var w := s.writers[id];
    match w.pc
    case PredecessorRead => s.anchor.None? || f.parse(s.anchor.value) != Some(w.request.store.head)
    case TempWritten => w.pid !in s.temps
    case Replaced => s.anchor != Some(f.render(w.request.recovery.head))
    case ReadBack => s.anchor.None? || f.parse(s.anchor.value) != Some(w.request.recovery.head)
    case Confirmed => w.gate.OwnershipBound? && s.lock != Present(OwnerToken(w.token))
    case Rechecked => s.lock == Absent
    case Released => s.lock != Absent
    case _ => false
  }

  /** A step of the call goes wrong: it finds trouble, its system call raises, or its process
      dies. The last step of an unlocked call makes no system call. */
  ghost predicate GoesWrong(f: Format, s: State, id: nat, io: Io)
    requires id in s.writers
  {
    var w := s.writers[id];
    && !Finished(w.pc)
    && (Troubled(f, s, id) || io == Dies || (io == Fails && !(w.gate.Bare? && w.pc.Confirmed?)))
  }

  /** Under any gate, beside any other calls and whatever comes after, a call one of whose steps
      went wrong returns no evidence. */
  lemma NoEvidenceAfterTrouble(f: Format, s: State, id: nat, io: Io, events: seq<Event>)
    requires id in s.writers && Known(s, events) && GoesWrong(f, s, id, io)
    ensures RunFrom(f, Step(f, s, id, io), events).writers[id].pc != Returned
  {
    assert Leaving(Step(f, s, id, io).writers[id].pc);
    LeavesForGood(f, Step(f, s, id, io), events, id);
  }

  /** A locked call that comes to its end with a completed step and still holds on has left a lock marked by another. */
  lemma HoldingOnLeavesForeignLock(f: Format, s: State, id: nat)
    requires id in s.writers && s.writers[id].gate != Bare && !Finished(s.writers[id].pc)
    requires Step(f, s, id, Fine).writers[id].pc == Raised(true)
    ensures s.writers[id].gate.OwnershipBound?
    ensures var t := Step(f, s, id, Fine); t.lock.Present? && t.lock.text != OwnerToken(s.writers[id].token)
  {
  }

  /** A call that finds the lock marked by another before its own unlink ends there and leaves it. */
  lemma ForeignLockIsLeft(f: Format, s: State, id: nat)
    requires id in s.writers && s.writers[id].gate.OwnershipBound? && s.writers[id].pc.Confirmed?
    requires s.lock != Present(OwnerToken(s.writers[id].token))
    ensures Step(f, s, id, Fine) == At(s, id, Raised(false))
  {
  }
}
