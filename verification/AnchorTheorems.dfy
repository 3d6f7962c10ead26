/** What the protocol invariant means for the callers: exclusion, no lost update, and
    evidence that can be trusted. */
module AnchorTheorems {
  import opened Wrappers
  import opened Text
  import opened Utf8
  import opened HeadStore
  import opened AnchorProtocol
  import opened AnchorSafety

  /** The caller behind the i-th publication. */
  ghost function RequestAt(s: State, i: nat): Request
    requires i < |s.log| && s.log[i].writer in s.writers
  {
    s.writers[s.log[i].writer].request
  }

  /** In every reachable state of every interleaving at most one writer stands between
      the exclusive create and the unlink. */
  lemma MutualExclusion(f: Format, s: State, events: seq<Event>, a: nat, b: nat)
    requires Init(s) && Cooperating(s) && Known(s, events)
    requires a in s.writers && b in s.writers
    ensures var t := RunFrom(f, s, events); Holds(t.writers[a]) && Holds(t.writers[b]) ==> a == b
  {
    RunKeeps(f, s, events);
  }

  /** Parsing undoes printing on valid heads, and digests look like digests. */
  ghost predicate Lawful(f: Format) {
    && (forall h :: ValidHead(h) ==> f.parse(f.render(h)) == Some(h))
    && (forall b :: IsHex64(f.sha(b)))
  }

  /** The head file format of the gates is lawful, whatever the hash. */
  lemma HeadFormatIsLawful(sha: Bytes -> Text)
    requires forall b :: IsHex64(sha(b))
    ensures Lawful(HeadFormat(sha))
  {
    var f := HeadFormat(sha);
    forall h | ValidHead(h) ensures f.parse(f.render(h)) == Some(h) {
      HeadRoundTrip(h);
    }
  }

  /** What the chain of publications says of the i-th one. */
  ghost predicate ContinuesChain(f: Format, origin: Option<Bytes>, t: State, i: nat) {
    && i < |t.log|
    && t.log[i].writer in t.writers
    && var r := RequestAt(t, i);
       && t.log[i].after == f.render(r.recovery.head)
       && r.recovery.head.sequence == r.store.head.sequence + 1
       && (if i == 0 then origin.Some? && f.parse(origin.value) == Some(r.store.head)
           else t.log[i - 1].writer in t.writers && r.store.head == RequestAt(t, i - 1).recovery.head)
       && (i == |t.log| - 1 ==> t.anchor == Some(t.log[i].after))
  }

  lemma InvContinuesChain(f: Format, t: State, i: nat)
    requires Inv(f, t) && Lawful(f) && i < |t.log|
    ensures ContinuesChain(f, t.origin, t, i)
  {
    assert Advances(f, t, t.log[i]) && LinkedAt(t.origin, t.log, i);
    if i > 0 {
      assert Advances(f, t, t.log[i - 1]);
      assert ValidHead(RequestAt(t, i - 1).recovery.head);
    }
  }

  /** No update is lost: each publication replaces precisely the head that the one before
      it published, one sequence number lower, and the first one starts from the original. */
  lemma NoLostUpdate(f: Format, s: State, events: seq<Event>, i: nat)
    requires Init(s) && Cooperating(s) && Known(s, events) && Lawful(f)
    requires i < |RunFrom(f, s, events).log|
    ensures ContinuesChain(f, s.origin, RunFrom(f, s, events), i)
  {
    RunKeeps(f, s, events);
    OriginKept(f, s, events);
    InvContinuesChain(f, RunFrom(f, s, events), i);
  }

  lemma {:induction false} OriginKept(f: Format, s: State, events: seq<Event>)
    requires Known(s, events)
    ensures RunFrom(f, s, events).origin == s.origin
  {
    if events != [] {
      var n := |events| - 1;
      OriginKept(f, s, events[..n]);
      StepKeepsOrigin(f, RunFrom(f, s, events[..n]), events[n].id, events[n].io);
    }
  }

  lemma StepKeepsOrigin(f: Format, s: State, id: nat, io: Io)
    requires id in s.writers
    ensures Step(f, s, id, io).origin == s.origin
  {
  }

  /** Sequence numbers of the publications climb by one each. */
  lemma {:induction false} SequencesClimb(f: Format, s: State, events: seq<Event>, i: nat, j: nat)
    requires Init(s) && Cooperating(s) && Known(s, events) && Lawful(f)
    requires i <= j < |RunFrom(f, s, events).log|
    ensures var t := RunFrom(f, s, events);
            && t.log[i].writer in t.writers && t.log[j].writer in t.writers
            && RequestAt(t, j).recovery.head.sequence == RequestAt(t, i).recovery.head.sequence + (j - i)
    decreases j
  {
    NoLostUpdate(f, s, events, i);
    NoLostUpdate(f, s, events, j);
    if i < j {
      SequencesClimb(f, s, events, i, j - 1);
    }
  }

  /** A call that returns evidence has published its head, exactly once. */
  lemma EvidenceMeansPublished(f: Format, s: State, events: seq<Event>, id: nat)
    requires Init(s) && Cooperating(s) && Known(s, events) && id in s.writers
    requires RunFrom(f, s, events).writers[id].pc == Returned
    ensures var t := RunFrom(f, s, events);
            exists i :: 0 <= i < |t.log| && t.log[i].writer == id && Advances(f, t, t.log[i]) &&
                        forall j :: 0 <= j < |t.log| && t.log[j].writer == id ==> j == i
  {
    RunKeeps(f, s, events);
    var t := RunFrom(f, s, events);
    assert WriterFacts(f, t, id);
    var i :| 0 <= i < |t.log| && t.log[i].writer == id;
    assert Advances(f, t, t.log[i]);
    forall j | 0 <= j < |t.log| && t.log[j].writer == id ensures j == i {
    }
  }

  /** Two calls that both return evidence never vouch for the same sequence number, nor
      for the same predecessor. */
  lemma EvidenceNeverCollides(f: Format, s: State, events: seq<Event>, a: nat, b: nat)
    requires Init(s) && Cooperating(s) && Known(s, events) && Lawful(f) && a in s.writers && b in s.writers && a != b
    requires var t := RunFrom(f, s, events); t.writers[a].pc == Returned && t.writers[b].pc == Returned
    ensures var t := RunFrom(f, s, events);
            && t.writers[a].request.recovery.head.sequence != t.writers[b].request.recovery.head.sequence
            && t.writers[a].request.store.head != t.writers[b].request.store.head
  {
    EvidenceMeansPublished(f, s, events, a);
    EvidenceMeansPublished(f, s, events, b);
    var t := RunFrom(f, s, events);
    var i :| 0 <= i < |t.log| && t.log[i].writer == a && Advances(f, t, t.log[i]);
    var j :| 0 <= j < |t.log| && t.log[j].writer == b && Advances(f, t, t.log[j]);
    SequencesClimb(f, s, events, if i < j then i else j, if i < j then j else i);
    NoLostUpdate(f, s, events, i);
    NoLostUpdate(f, s, events, j);
  }

  /** Among cooperating writers the ownership check never meets a missing or foreign lock,
      and once the anchor is replaced no check fails: only a failing system call, a death,
      or the final existence check can still keep evidence from being returned. */
  lemma AfterReplacementOnlyIoFails(f: Format, s: State, events: seq<Event>, id: nat)
    requires Init(s) && Cooperating(s) && Known(s, events) && Lawful(f) && id in s.writers
    ensures var t := RunFrom(f, s, events);
            GoesOn(t.writers[id], Step(f, t, id, Fine).writers[id].pc)
  {
    RunKeeps(f, s, events);
    var t := RunFrom(f, s, events);
    assert WriterFacts(f, t, id);
    if AtSuccessor(t.writers[id].pc) {
      PublishedIsAdmitted(f, t, id);
      NextAfterReplacement(f, t, id);
    }
  }

  /** Where an undisturbed step leads once the anchor is replaced. */
  predicate GoesOn(w: Writer, next: Pc) {
    && (w.pc == Replaced ==> next == ReadBack)
    && (w.pc == ReadBack ==> next == Confirmed)
    && (w.pc == Confirmed ==> next == if w.gate == OwnershipBound then Rechecked else Released)
    && (w.pc == Rechecked ==> next == Released)
  }

  lemma NextAfterReplacement(f: Format, t: State, id: nat)
    requires id in t.writers && WriterFacts(f, t, id) && t.writers[id].gate != Bare
    requires AtSuccessor(t.writers[id].pc) && Admits(t.writers[id].request) && Lawful(f)
    ensures GoesOn(t.writers[id], Step(f, t, id, Fine).writers[id].pc)
  {
    var w := t.writers[id];
    if w.pc == ReadBack {
      assert ValidHead(w.request.recovery.head);
      LoadsWhatItExpects(f, Successor(f, w.request), w.request.recovery.head);
    }
  }

  lemma LoadsWhatItExpects(f: Format, b: Bytes, h: StoredHead)
    requires IsHex64(f.sha(b)) && f.parse(b) == Some(h)
    ensures Load(f, Some(b), f.sha(b)) == Some(h)
  {
    HexIsNormal(f.sha(b));
  }

  lemma PublishedIsAdmitted(f: Format, t: State, id: nat)
    requires Inv(f, t) && id in t.writers && HasPublished(t.writers[id].pc)
    ensures Admits(t.writers[id].request)
  {
    assert WriterFacts(f, t, id);
    var i :| 0 <= i < |t.log| && t.log[i].writer == id;
    assert Advances(f, t, t.log[i]);
  }
}
