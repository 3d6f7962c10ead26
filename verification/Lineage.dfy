/** The hash-chained recovery lineage and the gate that checks a receipt against a
    caller's expected head. The digest is a parameter; collision-freedom is only ever a
    hypothesis, about the payloads that occur. */
module Lineage {
  import opened Wrappers
  import opened Text
  import opened Json
  import opened JsonRoundTrip
  import opened Utf8

  /** The evidence states a receipt can carry; `Unknown` is any other string. */
  datatype StateLabel = LineageVerified | GenerationVerified | Unknown(name: Text)

  function LabelText(l: StateLabel): Text {
    match l
    case LineageVerified => Lit("LOCAL_DATA_PLANE_RECOVERY_LINEAGE_CONSISTENCY_VERIFIED")
    case GenerationVerified => Lit("LOCAL_DATA_PLANE_RECOVERY_GENERATION_SEMANTICS_VERIFIED")
    case Unknown(name) => name
  }

  /** `"0" * 64` */
  function Genesis(): Text {
    seq(64, i => '0' as int)
  }

  /** What the generation gate vouches for, as far as the lineage reads it. */
  datatype GenerationEvidence = GenerationEvidence(
    checkpointSha: Text,
    payloadSha: Text,
    bindingSha: Text,
    provenanceVerified: bool,
    freshBootstrapVerified: bool,
    state: StateLabel,
    controlAllowed: bool)

  /** `RecoveryLineageEvidence` */
  datatype Receipt = Receipt(
    sequence: int,
    checkpointSha: Text,
    payloadSha: Text,
    bindingSha: Text,
    predecessorSha: Text,
    lineageSha: Text,
    consistencyVerified: bool,
    generationState: StateLabel,
    state: StateLabel,
    controlAllowed: bool)

  datatype LineageError =
    | BadGenerationEvidence | RecomputationMismatch | BadPredecessor | BadPredecessorDigest | BadSequence
    | BadAnchor | BadLineageEvidence | AnchorMismatch | NotByOne | BrokenLink

  /** The seven hashed fields of a receipt, in the order `sort_keys` prints them. */
  function Payload(r: Receipt): Json {
    Obj([
      Member(Lit("checkpoint_sha256"), Str(r.checkpointSha)),
      Member(Lit("evidence_state"), Str(LabelText(r.state))),
      Member(Lit("p63_evidence_state"), Str(LabelText(r.generationState))),
      Member(Lit("p63_generation_binding_sha256"), Str(r.bindingSha)),
      Member(Lit("payload_sha256"), Str(r.payloadSha)),
      Member(Lit("predecessor_lineage_sha256"), Str(r.predecessorSha)),
      Member(Lit("sequence"), Int(r.sequence))])
  }

  function PayloadBytes(r: Receipt): Bytes {
    DumpsBytes(Payload(r))
  }

  /** `_canonical_sha` of a receipt's hashed fields. */
  type Signer = Receipt -> Text

  function Signing(sha: Bytes -> Text): Signer {
    r => sha(PayloadBytes(r))
  }

  /** The digest field itself is not hashed. */
  ghost predicate SkipsDigestField(sign: Signer) {
    forall r: Receipt, digest: Text :: sign(r.(lineageSha := digest)) == sign(r)
  }

  lemma SigningSkipsDigestField(sha: Bytes -> Text)
    ensures SkipsDigestField(Signing(sha))
  {
    forall r: Receipt, digest: Text ensures Signing(sha)(r.(lineageSha := digest)) == Signing(sha)(r) {
      assert Payload(r.(lineageSha := digest)) == Payload(r);
      assert PayloadBytes(r.(lineageSha := digest)) == PayloadBytes(r);
    }
  }

  /** `verify_recovery_lineage`; `recomputed` is what recomputing the generation gate
      yields, `None` when that raises. */
  function Verify(
    sign: Signer,
    recomputed: Option<GenerationEvidence>,
    evidence: GenerationEvidence,
    predecessor: Option<Receipt>,
    sequence: Option<int>): Result<Receipt, LineageError>
  {
    if evidence.state != GenerationVerified || !evidence.provenanceVerified
       || !evidence.freshBootstrapVerified || evidence.controlAllowed then Failure(BadGenerationEvidence)
    else if recomputed != Some(evidence) then Failure(RecomputationMismatch)
    else if predecessor.Some? && !Acceptable(predecessor.value) then Failure(BadPredecessor)
    else if predecessor.Some? && sign(predecessor.value) != predecessor.value.lineageSha then
      Failure(BadPredecessorDigest)
    else
      var expected := if predecessor.Some? then predecessor.value.sequence + 1 else 1;
      var link := if predecessor.Some? then predecessor.value.lineageSha else Genesis();
      if sequence.Some? && (sequence.value < 1 || sequence.value != expected) then Failure(BadSequence)
      else
        var unsigned := Receipt(expected, evidence.checkpointSha, evidence.payloadSha, evidence.bindingSha, link,
                                [], true, evidence.state, LineageVerified, false);
        Success(unsigned.(lineageSha := sign(unsigned)))
  }

  predicate Acceptable(predecessor: Receipt) {
    && predecessor.state == LineageVerified
    && predecessor.consistencyVerified
    && !predecessor.controlAllowed
    && predecessor.sequence >= 1
  }

  // ---- histories: repeated calls from genesis ----

  function PredecessorAt(rs: seq<Receipt>, i: nat): Option<Receipt>
    requires i <= |rs|
  {
    if i == 0 then None else Some(rs[i - 1])
  }

  /** `rs[i]` is what the i-th call returns when handed the receipt of the call before. */
  ghost predicate CallYields(sign: Signer, es: seq<GenerationEvidence>, rs: seq<Receipt>, i: nat)
    requires i < |rs| == |es|
  {
    Verify(sign, Some(es[i]), es[i], PredecessorAt(rs, i), None) == Success(rs[i])
  }

  ghost predicate IsHistory(sign: Signer, es: seq<GenerationEvidence>, rs: seq<Receipt>) {
    && |es| == |rs|
    && forall i :: 0 <= i < |rs| ==> CallYields(sign, es, rs, i)
  }

  /** The generation gate's digests are digests. */
  predicate CarriesDigests(e: GenerationEvidence) {
    IsHex64(e.checkpointSha) && IsHex64(e.payloadSha) && IsHex64(e.bindingSha)
  }

  /** What each receipt of a history says. */
  ghost predicate WellLinked(sign: Signer, es: seq<GenerationEvidence>, rs: seq<Receipt>, i: nat) {
    && i < |rs| == |es|
    && rs[i].sequence == i + 1
    && rs[i].predecessorSha == (if i == 0 then Genesis() else rs[i - 1].lineageSha)
    && rs[i].lineageSha == sign(rs[i])
    && rs[i].checkpointSha == es[i].checkpointSha
    && rs[i].payloadSha == es[i].payloadSha
    && rs[i].bindingSha == es[i].bindingSha
    && rs[i].generationState == GenerationVerified
    && rs[i].state == LineageVerified
    && rs[i].consistencyVerified && !rs[i].controlAllowed
  }

  /** Everything a call puts into its receipt. */
  lemma Receipts(sign: Signer, recomputed: Option<GenerationEvidence>, e: GenerationEvidence, predecessor: Option<Receipt>)
    requires SkipsDigestField(sign)
    ensures var res := Verify(sign, recomputed, e, predecessor, None);
            res.Success? ==>
              && var r := res.value;
              && r.sequence == (if predecessor.Some? then predecessor.value.sequence + 1 else 1)
              && r.predecessorSha == (if predecessor.Some? then predecessor.value.lineageSha else Genesis())
              && r.lineageSha == sign(r)
              && r.checkpointSha == e.checkpointSha && r.payloadSha == e.payloadSha && r.bindingSha == e.bindingSha
              && r.generationState == GenerationVerified && r.state == LineageVerified
              && r.consistencyVerified && !r.controlAllowed
  {
  }

  /** When a call succeeds: the evidence vouches, recomputation reproduces it, the
      predecessor is a receipt that carries its own digest, and a given sequence is the next. */
  lemma VerifiesIff(sign: Signer, recomputed: Option<GenerationEvidence>, e: GenerationEvidence,
                    predecessor: Option<Receipt>, sequence: Option<int>)
    ensures Verify(sign, recomputed, e, predecessor, sequence).Success? <==>
              && e.state == GenerationVerified && e.provenanceVerified && e.freshBootstrapVerified && !e.controlAllowed
              && recomputed == Some(e)
              && (predecessor.Some? ==>
                    && predecessor.value.state == LineageVerified && predecessor.value.consistencyVerified
                    && !predecessor.value.controlAllowed && predecessor.value.sequence >= 1
                    && predecessor.value.lineageSha == sign(predecessor.value))
              && (sequence.Some? ==> sequence.value == if predecessor.Some? then predecessor.value.sequence + 1 else 1)
  {
  }

  /** Sequence equals position, each link is the previous digest. */
  lemma {:induction false} HistoryWellLinked(sign: Signer, es: seq<GenerationEvidence>, rs: seq<Receipt>, i: nat)
    requires IsHistory(sign, es, rs) && i < |rs| && SkipsDigestField(sign)
    ensures WellLinked(sign, es, rs, i)
  {
    if i > 0 {
      HistoryWellLinked(sign, es, rs, i - 1);
    }
    assert CallYields(sign, es, rs, i);
    Receipts(sign, Some(es[i]), es[i], PredecessorAt(rs, i));
  }

  /** No call of a history is refused: the receipt just returned is always an acceptable predecessor. */
  lemma HistoryExtends(sign: Signer, es: seq<GenerationEvidence>, rs: seq<Receipt>, e: GenerationEvidence)
    requires IsHistory(sign, es, rs) && SkipsDigestField(sign)
    requires e.state == GenerationVerified && e.provenanceVerified && e.freshBootstrapVerified && !e.controlAllowed
    ensures Verify(sign, Some(e), e, PredecessorAt(rs, |rs|), None).Success?
    ensures IsHistory(sign, es + [e], rs + [Verify(sign, Some(e), e, PredecessorAt(rs, |rs|), None).value])
  {
    if rs != [] {
      HistoryWellLinked(sign, es, rs, |rs| - 1);
    }
    var longer := rs + [Verify(sign, Some(e), e, PredecessorAt(rs, |rs|), None).value];
    forall i | 0 <= i < |longer| ensures CallYields(sign, es + [e], longer, i) {
      assert PredecessorAt(longer, i) == PredecessorAt(rs, i);
      if i < |rs| {
        assert CallYields(sign, es, rs, i);
      }
    }
  }

  // ---- equal digests, equal histories ----

  function Payloads(rs: seq<Receipt>): set<Bytes> {
    set i | 0 <= i < |rs| :: PayloadBytes(rs[i])
  }

  ghost predicate CollisionFree(sha: Bytes -> Text, payloads: set<Bytes>) {
    forall x, y :: x in payloads && y in payloads && sha(x) == sha(y) ==> x == y
  }

  /** A verified receipt whose hashed strings are free of split surrogate pairs. */
  predicate WholeReceipt(r: Receipt) {
    && Whole(r.checkpointSha) && Whole(r.payloadSha) && Whole(r.bindingSha) && Whole(r.predecessorSha)
    && r.generationState == GenerationVerified && r.state == LineageVerified
  }

  lemma HistoryReceiptsWhole(sha: Bytes -> Text, es: seq<GenerationEvidence>, rs: seq<Receipt>, i: nat)
    requires IsHistory(Signing(sha), es, rs) && i < |rs| && forall e :: e in es ==> CarriesDigests(e)
    requires forall b :: IsHex64(sha(b))
    ensures WholeReceipt(rs[i])
  {
    SigningSkipsDigestField(sha);
    HistoryWellLinked(Signing(sha), es, rs, i);
    if i > 0 {
      HistoryWellLinked(Signing(sha), es, rs, i - 1);
      assert rs[i].predecessorSha == Signing(sha)(rs[i - 1]);
    }
    assert CarriesDigests(es[i]);
    HexIsWhole(rs[i].checkpointSha);
    HexIsWhole(rs[i].payloadSha);
    HexIsWhole(rs[i].bindingSha);
    HexIsWhole(rs[i].predecessorSha);
  }

  lemma PayloadWhole(r: Receipt)
    requires WholeReceipt(r)
    ensures WholeJson(Payload(r)) && Printable(Payload(r))
  {
    LitIsWhole("LOCAL_DATA_PLANE_RECOVERY_LINEAGE_CONSISTENCY_VERIFIED");
    LitIsWhole("LOCAL_DATA_PLANE_RECOVERY_GENERATION_SEMANTICS_VERIFIED");
    LitIsWhole("checkpoint_sha256");
    LitIsWhole("evidence_state");
    LitIsWhole("p63_evidence_state");
    LitIsWhole("p63_generation_binding_sha256");
    LitIsWhole("payload_sha256");
    LitIsWhole("predecessor_lineage_sha256");
    LitIsWhole("sequence");
  }

  /** The hashed bytes determine every hashed field. */
  lemma PayloadInjective(a: Receipt, b: Receipt)
    requires WholeReceipt(a) && WholeReceipt(b) && PayloadBytes(a) == PayloadBytes(b)
    ensures a.(lineageSha := b.lineageSha, consistencyVerified := b.consistencyVerified, controlAllowed := b.controlAllowed) == b
  {
    PayloadWhole(a);
    PayloadWhole(b);
    assert Dumps(Payload(a)) == Dumps(Payload(b));
    DumpsInjective(Payload(a), Payload(b));
    var ma, mb := Payload(a).members, Payload(b).members;
    assert ma[0] == mb[0] && ma[1] == mb[1] && ma[2] == mb[2] && ma[3] == mb[3];
    assert ma[4] == mb[4] && ma[5] == mb[5] && ma[6] == mb[6];
  }

  lemma EqualDigestsEqualReceipts(
    sha: Bytes -> Text,
    es: seq<GenerationEvidence>, rs: seq<Receipt>, i: nat,
    fs: seq<GenerationEvidence>, ts: seq<Receipt>, j: nat)
    requires IsHistory(Signing(sha), es, rs) && IsHistory(Signing(sha), fs, ts) && i < |rs| && j < |ts|
    requires forall e :: e in es || e in fs ==> CarriesDigests(e)
    requires forall b :: IsHex64(sha(b))
    requires CollisionFree(sha, Payloads(rs) + Payloads(ts))
    requires rs[i].lineageSha == ts[j].lineageSha
    ensures i == j && rs[i] == ts[j]
  {
    SigningSkipsDigestField(sha);
    HistoryWellLinked(Signing(sha), es, rs, i);
    HistoryWellLinked(Signing(sha), fs, ts, j);
    HistoryReceiptsWhole(sha, es, rs, i);
    HistoryReceiptsWhole(sha, fs, ts, j);
    var x, y := PayloadBytes(rs[i]), PayloadBytes(ts[j]);
    assert x in Payloads(rs) && y in Payloads(ts);
    assert sha(x) == rs[i].lineageSha && sha(y) == ts[j].lineageSha;
    PayloadInjective(rs[i], ts[j]);
  }

  lemma LinksAgree(sha: Bytes -> Text, es: seq<GenerationEvidence>, rs: seq<Receipt>,
                   fs: seq<GenerationEvidence>, ts: seq<Receipt>, i: nat)
    requires IsHistory(Signing(sha), es, rs) && IsHistory(Signing(sha), fs, ts)
    requires 0 < i < |rs| && i < |ts| && rs[i] == ts[i]
    ensures rs[i - 1].lineageSha == ts[i - 1].lineageSha
  {
    SigningSkipsDigestField(sha);
    HistoryWellLinked(Signing(sha), es, rs, i);
    HistoryWellLinked(Signing(sha), fs, ts, i);
  }

  lemma {:induction false} EqualUpTo(sha: Bytes -> Text, es: seq<GenerationEvidence>, rs: seq<Receipt>,
                                     fs: seq<GenerationEvidence>, ts: seq<Receipt>, i: nat)
    requires IsHistory(Signing(sha), es, rs) && IsHistory(Signing(sha), fs, ts) && i < |rs| && i < |ts|
    requires forall e :: e in es || e in fs ==> CarriesDigests(e)
    requires forall b :: IsHex64(sha(b))
    requires CollisionFree(sha, Payloads(rs) + Payloads(ts))
    requires rs[i].lineageSha == ts[i].lineageSha
    ensures forall k :: 0 <= k <= i ==> rs[k] == ts[k]
  {
    EqualDigestsEqualReceipts(sha, es, rs, i, fs, ts, i);
    if i > 0 {
      LinksAgree(sha, es, rs, fs, ts, i);
      EqualUpTo(sha, es, rs, fs, ts, i - 1);
    }
  }

  /** If no two payloads of the two histories collide, equal last digests mean equal
      histories, position by position. The hash need not avoid the genesis value: the
      sequence number is hashed, so histories of different lengths already differ. */
  lemma EqualDigestsEqualHistories(
    sha: Bytes -> Text,
    es: seq<GenerationEvidence>, rs: seq<Receipt>,
    fs: seq<GenerationEvidence>, ts: seq<Receipt>)
    requires IsHistory(Signing(sha), es, rs) && IsHistory(Signing(sha), fs, ts) && rs != [] && ts != []
    requires forall e :: e in es || e in fs ==> CarriesDigests(e)
    requires forall b :: IsHex64(sha(b))
    requires CollisionFree(sha, Payloads(rs) + Payloads(ts))
    requires rs[|rs| - 1].lineageSha == ts[|ts| - 1].lineageSha
    ensures rs == ts
  {
    EqualDigestsEqualReceipts(sha, es, rs, |rs| - 1, fs, ts, |ts| - 1);
    EqualUpTo(sha, es, rs, fs, ts, |rs| - 1);
  }

  /** Reusing an older checkpoint never reproduces an older receipt: within one history
      all digests differ. */
  lemma ReuseIsDistinct(sha: Bytes -> Text, es: seq<GenerationEvidence>, rs: seq<Receipt>, i: nat, j: nat)
    requires IsHistory(Signing(sha), es, rs) && i < j < |rs|
    requires forall e :: e in es ==> CarriesDigests(e)
    requires forall b :: IsHex64(sha(b))
    requires CollisionFree(sha, Payloads(rs))
    ensures rs[i].lineageSha != rs[j].lineageSha
  {
    if rs[i].lineageSha == rs[j].lineageSha {
      assert Payloads(rs) + Payloads(rs) == Payloads(rs);
      EqualDigestsEqualReceipts(sha, es, rs, i, es, rs, j);
    }
  }

  // ---- the expected-head gate ----

  datatype ExpectedHead = ExpectedHead(sequence: int, lineageSha: Text, anchorSequence: int, anchorSha: Text)

  /** `verify_recovery_expected_head` */
  function VerifyHead(
    sign: Signer,
    recomputed: Option<GenerationEvidence>,
    evidence: GenerationEvidence,
    receipt: Receipt,
    anchorSequence: int,
    anchorSha: Text,
    predecessor: Option<Receipt>): Result<ExpectedHead, LineageError>
  {
    if anchorSequence < 0 || !IsHex64(anchorSha) then Failure(BadAnchor)
    else if receipt.state != LineageVerified || !receipt.consistencyVerified || receipt.controlAllowed then
      Failure(BadLineageEvidence)
    else
      var requiredSequence := if predecessor.Some? then predecessor.value.sequence else 0;
      var requiredSha := if predecessor.Some? then predecessor.value.lineageSha else Genesis();
      if anchorSequence != requiredSequence || anchorSha != requiredSha then Failure(AnchorMismatch)
      else
        var again := Verify(sign, recomputed, evidence, predecessor, Some(receipt.sequence));
        if again.Failure? then Failure(again.error)
        else if again.value != receipt then Failure(RecomputationMismatch)
        else if receipt.sequence != anchorSequence + 1 then Failure(NotByOne)
        else if receipt.predecessorSha != anchorSha then Failure(BrokenLink)
        else Success(ExpectedHead(receipt.sequence, receipt.lineageSha, anchorSequence, anchorSha))
  }

  /** The gate accepts exactly when the anchor is well-formed and names the predecessor,
      and the receipt is the one recomputation yields; it then extends the anchor by one
      and links to it. Its two last checks never fire. */
  lemma GateAcceptsIff(
    sign: Signer,
    recomputed: Option<GenerationEvidence>,
    evidence: GenerationEvidence,
    receipt: Receipt,
    anchorSequence: int,
    anchorSha: Text,
    predecessor: Option<Receipt>)
    ensures var gate := VerifyHead(sign, recomputed, evidence, receipt, anchorSequence, anchorSha, predecessor);
            && (gate.Success? <==>
                  && anchorSequence >= 0 && IsHex64(anchorSha)
                  && (if predecessor.Some? then anchorSequence == predecessor.value.sequence && anchorSha == predecessor.value.lineageSha
                      else anchorSequence == 0 && anchorSha == Genesis())
                  && Verify(sign, recomputed, evidence, predecessor, None) == Success(receipt))
            && (gate.Success? ==>
                  receipt.sequence == anchorSequence + 1 && receipt.predecessorSha == anchorSha &&
                  gate.value == ExpectedHead(receipt.sequence, receipt.lineageSha, anchorSequence, anchorSha))
            && (gate.Failure? ==> gate.error != NotByOne && gate.error != BrokenLink)
  {
    SequenceArgument(sign, recomputed, evidence, predecessor, receipt);
  }

  /** The same without the call that recomputes: which anchors, evidence, predecessors and
      receipts the gate accepts, field by field. */
  lemma GateAcceptsExactly(
    sign: Signer,
    recomputed: Option<GenerationEvidence>,
    evidence: GenerationEvidence,
    receipt: Receipt,
    anchorSequence: int,
    anchorSha: Text,
    predecessor: Option<Receipt>)
    requires SkipsDigestField(sign)
    ensures VerifyHead(sign, recomputed, evidence, receipt, anchorSequence, anchorSha, predecessor).Success? <==>
              && anchorSequence >= 0 && |anchorSha| == 64
              && (forall i :: 0 <= i < 64 ==> 48 <= anchorSha[i] <= 57 || 97 <= anchorSha[i] <= 102)
              && recomputed == Some(evidence)
              && evidence.state == GenerationVerified && evidence.provenanceVerified
              && evidence.freshBootstrapVerified && !evidence.controlAllowed
              && (if predecessor.Some? then
                    && predecessor.value.state == LineageVerified && predecessor.value.consistencyVerified
                    && !predecessor.value.controlAllowed && predecessor.value.sequence >= 1
                    && predecessor.value.lineageSha == sign(predecessor.value)
                    && anchorSequence == predecessor.value.sequence && anchorSha == predecessor.value.lineageSha
                  else anchorSequence == 0 && forall i :: 0 <= i < 64 ==> anchorSha[i] == 48)
              && receipt.sequence == anchorSequence + 1 && receipt.predecessorSha == anchorSha
              && receipt.checkpointSha == evidence.checkpointSha && receipt.payloadSha == evidence.payloadSha
              && receipt.bindingSha == evidence.bindingSha
              && receipt.generationState == GenerationVerified && receipt.state == LineageVerified
              && receipt.consistencyVerified && !receipt.controlAllowed
              && receipt.lineageSha == sign(receipt)
  {
    GateAcceptsIff(sign, recomputed, evidence, receipt, anchorSequence, anchorSha, predecessor);
    VerifiesIff(sign, recomputed, evidence, predecessor, None);
    var res := Verify(sign, recomputed, evidence, predecessor, None);
    Receipts(sign, recomputed, evidence, predecessor);
    if |anchorSha| == 64 && forall i :: 0 <= i < 64 ==> anchorSha[i] == 48 {
      assert anchorSha == Genesis();
    }
    if res.Success? && SameButDigest(res.value, receipt) {
      DigestFollows(sign, res.value, receipt);
    }
  }

  predicate SameButDigest(a: Receipt, b: Receipt) {
    a.(lineageSha := b.lineageSha) == b
  }

  /** Two receipts that carry their own digests and agree in what is hashed are one. */
  lemma DigestFollows(sign: Signer, a: Receipt, b: Receipt)
    requires SkipsDigestField(sign) && SameButDigest(a, b) && a.lineageSha == sign(a)
    ensures b.lineageSha == sign(b) <==> a == b
  {
    assert sign(a.(lineageSha := b.lineageSha)) == sign(a);
  }

  /** Passing the receipt's own sequence changes nothing when the receipt is the result. */
  lemma SequenceArgument(
    sign: Signer, recomputed: Option<GenerationEvidence>, evidence: GenerationEvidence,
    predecessor: Option<Receipt>, receipt: Receipt)
    ensures Verify(sign, recomputed, evidence, predecessor, Some(receipt.sequence)) == Success(receipt) <==>
            Verify(sign, recomputed, evidence, predecessor, None) == Success(receipt)
    ensures var again := Verify(sign, recomputed, evidence, predecessor, Some(receipt.sequence));
            again.Success? ==> again.value.sequence == receipt.sequence
    ensures var r := Verify(sign, recomputed, evidence, predecessor, None);
            r.Success? ==>
              && r.value.sequence == (if predecessor.Some? then predecessor.value.sequence + 1 else 1)
              && r.value.predecessorSha == (if predecessor.Some? then predecessor.value.lineageSha else Genesis())
              && r.value.state == LineageVerified && r.value.consistencyVerified && !r.value.controlAllowed
  {
  }
}
