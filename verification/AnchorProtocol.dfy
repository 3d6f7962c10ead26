/** Local recovery-anchor advancement as a state machine over file steps: any number of
    writers, each running the bare advance step or one of its two locked gates, each
    step possibly failing or the last one its process ever takes. */
module AnchorProtocol {
  import opened Wrappers
  import opened Text
  import opened Json
  import opened Utf8
  import opened HeadStore

  /** The head file format the protocol runs over: how bytes are parsed and printed, and
      their digest. `HeadFormat` below is the one the gates use; nothing that follows
      depends on it. */
  datatype Format = Format(
    parse: Bytes -> Option<StoredHead>,
    render: StoredHead -> Bytes,
    sha: Bytes -> Text)

  function HeadFormat(sha: Bytes -> Text): Format {
    Format(b => if ParseCanonical(b).Success? then Some(ParseCanonical(b).value) else None, CanonicalPayload, sha)
  }

  /** `load_recovery_expected_head(path, expected_payload_sha256=expected)`, if it returns. */
  function Load(f: Format, file: Option<Bytes>, expected: Text): Option<StoredHead> {
    if file.None? || f.parse(file.value).None? then None
    else if !IsHex64(CaseFold(Strip(expected))) || f.sha(file.value) != CaseFold(Strip(expected)) then None
    else f.parse(file.value)
  }

  /** Over the gates' own format this is the store's loader. */
  lemma LoadIsLoadFrom(sha: Bytes -> Text, file: Option<Bytes>, expected: Text)
    ensures Load(HeadFormat(sha), file, expected) ==
              var r := LoadFrom(sha, file, Some(expected)); if r.Success? then Some(r.value) else None
  {
  }

  /** `RecoveryStoredExpectedHeadEvidence`: what recovery verification says of the
      stored predecessor and of the head that is to replace it. */
  datatype RecoveryEvidence = RecoveryEvidence(
    head: StoredHead,
    predecessor: StoredHead,
    payloadSha: Text,
    payloadSize: int,
    compatibleState: bool,
    storedIdentityVerified: bool,
    predecessorMatchVerified: bool,
    recomputationVerified: bool,
    recoveryConsistencyVerified: bool,
    controlAllowed: bool)

  datatype Request = Request(store: StoreEvidence, recovery: RecoveryEvidence)

  /** Every check the advance step makes before it touches a file. */
  predicate Admits(r: Request) {
    && r.store.compatibleState && r.store.canonicalVerified && r.store.replaceUsed
    && r.store.readbackVerified && r.store.consistencyVerified && !r.store.controlAllowed
    && r.recovery.compatibleState && r.recovery.storedIdentityVerified && r.recovery.predecessorMatchVerified
    && r.recovery.recomputationVerified && r.recovery.recoveryConsistencyVerified && !r.recovery.controlAllowed
    && ValidHead(r.store.head) && IsHex64(r.store.payloadSha) && r.store.payloadSize >= 1
    && ValidHead(r.recovery.head)
    && r.recovery.predecessor == r.store.head
    && r.recovery.payloadSha == r.store.payloadSha
    && r.recovery.payloadSize == r.store.payloadSize
    && r.recovery.head.sequence == r.store.head.sequence + 1
  }

  /** The bytes the call wants to publish. */
  function Successor(f: Format, r: Request): Bytes {
    f.render(r.recovery.head)
  }

  datatype Gate = Bare | Serialized | OwnershipBound

  datatype LockText = Blank | PidLine(pid: nat) | OwnerToken(token: nat)

  datatype Lock = Absent | Present(text: LockText)

  /** Where a call stands: each constructor names the last step taken. */
  datatype Pc =
    | Start
    | Created
    | Marked
    | PredecessorRead
    | PredecessorLoaded
    | TempWritten
    | Replaced
    | ReadBack
    | Confirmed
    | Rechecked
    | Released
    | Unwinding
    | OwnLockSeen
    | Returned
    | Raised(holding: bool)
    | Crashed(holding: bool)

  datatype Writer = Writer(gate: Gate, pid: nat, token: nat, request: Request, pc: Pc)

  /** One replacement of the anchor: who, what was there, what is there now. */
  datatype Publication = Publication(writer: nat, before: Option<Bytes>, after: Bytes)

  datatype State = State(
    origin: Option<Bytes>,
    anchor: Option<Bytes>,
    lock: Lock,
    temps: map<nat, Bytes>,
    writers: map<nat, Writer>,
    log: seq<Publication>)

  /** How a step ends: it completes, the system call raises, or the process dies. */
  datatype Io = Fine | Fails | Dies

  function Marker(w: Writer): LockText {
    if w.gate == OwnershipBound then OwnerToken(w.token) else PidLine(w.pid)
  }

  /** Where an exception inside the protected block leads. */
  function Unwind(w: Writer): Pc {
    if w.gate == Bare then Raised(false) else Unwinding
  }

  predicate Finished(pc: Pc) {
    pc.Returned? || pc.Raised? || pc.Crashed?
  }

  /** Between the exclusive create and the unlink, or gone without unlinking. */
  predicate Holds(w: Writer) {
    w.gate != Bare &&
    match w.pc
    case Start | Released | Returned => false
    case Raised(holding) => holding
    case Crashed(holding) => holding
    case _ => true
  }

  function At(s: State, id: nat, pc: Pc): (r: State)
    requires id in s.writers
    ensures r.writers.Keys == s.writers.Keys
  {
    s.(writers := s.writers[id := s.writers[id].(pc := pc)])
  }

  function DropTemp(s: State, pid: nat): State {
    s.(temps := s.temps - {pid})
  }

  /** One step of writer `id`. */
  function Step(f: Format, s: State, id: nat, io: Io): (r: State)
    requires id in s.writers
    ensures r.writers.Keys == s.writers.Keys
  {
    var w := s.writers[id];
    if Finished(w.pc) then s
    else if io == Dies then At(s, id, Crashed(Holds(w)))
    else match w.pc
      case Start =>
        if w.gate == Bare then ReadPredecessor(f, s, id, io)
        else if io == Fails || s.lock.Present? then At(s, id, Raised(false))
        else At(s.(lock := Present(Blank)), id, Created)
      case Created =>
        if io == Fails then At(s, id, Unwinding)
        else At(s.(lock := if s.lock.Present? then Present(Marker(w)) else Absent), id, Marked)
      case Marked => ReadPredecessor(f, s, id, io)
      case PredecessorRead =>
        var loaded := Load(f, s.anchor, w.request.store.payloadSha);
        if io == Fails || loaded != Some(w.request.store.head) then At(s, id, Unwind(w))
        else At(s, id, PredecessorLoaded)
      case PredecessorLoaded =>
        if io == Fails then At(DropTemp(s, w.pid), id, Unwind(w))
        else At(s.(temps := s.temps[w.pid := Successor(f, w.request)]), id, TempWritten)
      case TempWritten =>
        if io == Fails || w.pid !in s.temps then At(DropTemp(s, w.pid), id, Unwind(w))
        else
          var after := s.temps[w.pid];
          At(DropTemp(s, w.pid).(anchor := Some(after), log := s.log + [Publication(id, s.anchor, after)]), id, Replaced)
      case Replaced =>
        if io == Fails || s.anchor != Some(Successor(f, w.request)) then At(s, id, Unwind(w)) else At(s, id, ReadBack)
      case ReadBack =>
        var loaded := Load(f, s.anchor, f.sha(Successor(f, w.request)));
        if io == Fails || loaded != Some(w.request.recovery.head) then At(s, id, Unwind(w))
        else At(s, id, Confirmed)
      case Confirmed => LeaveProtected(s, id, io)
      case Rechecked =>
        if io == Fails || s.lock.Absent? then At(s, id, Unwinding) else At(s.(lock := Absent), id, Released)
      case Released =>
        if io == Fails || s.lock.Present? then At(s, id, Raised(false)) else At(s, id, Returned)
      case Unwinding => Cleanup(s, id, io)
      case OwnLockSeen =>
        if io == Fails then At(s, id, Raised(true)) else At(s.(lock := Absent), id, Raised(false))
      case _ => s
  }

  /** The evidence checks, then the first read of the anchor. */
  function ReadPredecessor(f: Format, s: State, id: nat, io: Io): (r: State)
    requires id in s.writers
    ensures r.writers.Keys == s.writers.Keys
  {
    var w := s.writers[id];
    if !Admits(w.request) || io == Fails || s.anchor.None? then At(s, id, Unwind(w))
    else if |s.anchor.value| != w.request.store.payloadSize then At(s, id, Unwind(w))
    else if f.sha(s.anchor.value) != w.request.store.payloadSha then At(s, id, Unwind(w))
    else At(s, id, PredecessorRead)
  }

  /** The advance step has returned. The serialized gate unlinks whatever is there; the
      ownership-bound gate first re-reads the lock and refuses to unlink a foreign one. */
  function LeaveProtected(s: State, id: nat, io: Io): (r: State)
    requires id in s.writers
    ensures r.writers.Keys == s.writers.Keys
  {
    var w := s.writers[id];
    match w.gate
    case Bare => At(s, id, Returned)
    case Serialized =>
      if io == Fails then At(s, id, Raised(true)) else At(s.(lock := Absent), id, Released)
    case OwnershipBound =>
      if io == Fails then At(s, id, Unwinding)
      else if s.lock != Present(Marker(w)) then At(s, id, Raised(false))
      else At(s, id, Rechecked)
  }

  /** The `finally` block on the exceptional path. */
  function Cleanup(s: State, id: nat, io: Io): (r: State)
    requires id in s.writers
    ensures r.writers.Keys == s.writers.Keys
  {
    var w := s.writers[id];
    if w.gate == Serialized then
      if io == Fails then At(s, id, Raised(true)) else At(s.(lock := Absent), id, Raised(false))
    else if io == Fails then At(s, id, Raised(true))
    else if s.lock.Absent? then At(s, id, Raised(false))
    else if s.lock == Present(Marker(w)) then At(s, id, OwnLockSeen)
    else At(s, id, Raised(true))
  }

  // ---- runs ----

  datatype Event = Event(id: nat, io: Io)

  ghost predicate Init(s: State) {
    && s.anchor == s.origin && s.lock == Absent && s.temps == map[] && s.log == []
    && forall id :: id in s.writers ==> s.writers[id].pc == Start
  }

  /** Every writer goes through one of the two locked gates. */
  ghost predicate Cooperating(s: State) {
    forall id :: id in s.writers ==> s.writers[id].gate != Bare
  }

  predicate Known(s: State, events: seq<Event>) {
    forall i :: 0 <= i < |events| ==> events[i].id in s.writers
  }

  function RunFrom(f: Format, s: State, events: seq<Event>): (r: State)
    requires Known(s, events)
    ensures r.writers.Keys == s.writers.Keys
  {
    if events == [] then s
    else
      var n := |events| - 1;
      var before := RunFrom(f, s, events[..n]);
      Step(f, before, events[n].id, events[n].io)
  }
}
