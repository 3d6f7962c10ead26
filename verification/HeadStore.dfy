/** The recovery head file: two fields in strict canonical JSON, published by
    replacement and validated again from the bytes read back. */
module HeadStore {
  import opened Wrappers
  import opened Text
  import opened Json
  import opened JsonRoundTrip
  import opened Utf8

  datatype StoredHead = StoredHead(sequence: int, lineage: Text)

  datatype HeadError =
    | NotUtf8 | NotJson | WrongKeys | BadSequence | BadLineage | NotCanonical
    | FileFailed | FileMissing | BadExpectedDigest | DigestMismatch
    | BadEvidence | ReadbackDiffers | ReadbackDrift

  const LINEAGE_KEY := "lineage_sha256"
  const SEQUENCE_KEY := "sequence"

  predicate ValidHead(h: StoredHead) {
    h.sequence >= 1 && IsHex64(h.lineage)
  }

  function HeadPayload(h: StoredHead): Json {
    Obj([Member(Lit(LINEAGE_KEY), Str(h.lineage)), Member(Lit(SEQUENCE_KEY), Int(h.sequence))])
  }

  /** `_canonical_payload` */
  function CanonicalPayload(h: StoredHead): Bytes {
    DumpsBytes(HeadPayload(h))
  }

  /** `_parse_canonical_payload` */
  function ParseCanonical(payload: Bytes): Result<StoredHead, HeadError> {
    var decoded := Decode(payload);
    if decoded.None? then Failure(NotUtf8)
    else
      var raw := Loads(decoded.value);
      if raw.None? then Failure(NotJson)
      else if !raw.value.Obj? || Keys(raw.value.members) != {Lit(SEQUENCE_KEY), Lit(LINEAGE_KEY)} then Failure(WrongKeys)
      else
        var sequence := Lookup(raw.value.members, Lit(SEQUENCE_KEY));
        var lineage := Lookup(raw.value.members, Lit(LINEAGE_KEY));
        if sequence.None? || !sequence.value.Int? || sequence.value.n < 1 then Failure(BadSequence)
        else if lineage.None? || !lineage.value.Str? || !IsHex64(lineage.value.s) then Failure(BadLineage)
        else
          var head := StoredHead(sequence.value.n, lineage.value.s);
          if payload != CanonicalPayload(head) then Failure(NotCanonical) else Success(head)
  }

  lemma KeysDiffer()
    ensures Lit(LINEAGE_KEY) != Lit(SEQUENCE_KEY)
  {
    assert |Lit(LINEAGE_KEY)| != |Lit(SEQUENCE_KEY)|;
  }

  lemma HeadPayloadIsWhole(h: StoredHead)
    requires IsHex64(h.lineage)
    ensures WholeJson(HeadPayload(h)) && Printable(HeadPayload(h))
  {
    HexIsWhole(h.lineage);
    LitIsWhole(LINEAGE_KEY);
    LitIsWhole(SEQUENCE_KEY);
  }

  /** The members stand in the order `sort_keys` puts them in. */
  lemma HeadPayloadIsSorted(h: StoredHead)
    ensures KeysSorted(HeadPayload(h))
  {
    assert Lit(LINEAGE_KEY)[0] < Lit(SEQUENCE_KEY)[0];
  }

  /** Parsing the printed bytes gives the head back. */
  lemma HeadRoundTrip(h: StoredHead)
    requires ValidHead(h)
    ensures ParseCanonical(CanonicalPayload(h)) == Success(h)
  {
    var v := HeadPayload(h);
    HeadPayloadIsWhole(h);
    RoundTrip(v);
    WholeIsUnchanged(v);
    KeysDiffer();
    var ms := v.members;
    assert ms[..1] == [ms[0]];
    assert Keys(ms) == {ms[0].key, ms[1].key};
    assert Lookup(ms, Lit(SEQUENCE_KEY)) == Some(Int(h.sequence));
    assert Lookup(ms, Lit(LINEAGE_KEY)) == Some(Str(h.lineage));
  }

  /** Exactly the canonical prints of valid heads are accepted, each as its own head. */
  lemma AcceptedIffCanonical(payload: Bytes, h: StoredHead)
    ensures ParseCanonical(payload) == Success(h) <==> ValidHead(h) && payload == CanonicalPayload(h)
  {
    if ValidHead(h) && payload == CanonicalPayload(h) {
      HeadRoundTrip(h);
    }
  }

  /** Hence no two valid heads share a file content. */
  lemma CanonicalInjective(a: StoredHead, b: StoredHead)
    requires ValidHead(a) && ValidHead(b) && CanonicalPayload(a) == CanonicalPayload(b)
    ensures a == b
  {
    HeadRoundTrip(a);
    HeadRoundTrip(b);
  }

  // ---- the layout of the file, character for character ----

  predicate IsPlain(c: CodePoint) {
    32 <= c < 127 && c != QUOTE && c != BACKSLASH
  }

  lemma {:induction false} PlainPrintsItself(t: Text, tail: Text)
    requires forall i :: 0 <= i < |t| ==> IsPlain(t[i])
    ensures EmitChars(t, tail) == t + tail
  {
    if t != [] {
      PlainPrintsItself(t[1..], tail);
      assert t + tail == [t[0]] + (t[1..] + tail);
    } else {
      assert t + tail == tail;
    }
  }

  /** The decimal digits of a positive number, most significant first. */
  function Decimal(n: nat): Text {
    if n < 10 then [48 + n] else Decimal(n / 10) + [48 + n % 10]
  }

  lemma {:induction false} NatPrintsDecimal(n: nat, tail: Text)
    ensures EmitNat(n, tail) == Decimal(n) + tail
  {
    if n >= 10 {
      NatPrintsDecimal(n / 10, [48 + n % 10] + tail);
      assert Decimal(n) + tail == Decimal(n / 10) + ([48 + n % 10] + tail);
    }
  }

  lemma PlainString(t: Text, tail: Text)
    requires forall i :: 0 <= i < |t| ==> IsPlain(t[i])
    ensures EmitString(t, tail) == [QUOTE] + t + [QUOTE] + tail
  {
    PlainPrintsItself(t, [QUOTE] + tail);
    assert [QUOTE] + (t + ([QUOTE] + tail)) == [QUOTE] + t + [QUOTE] + tail;
  }

  function SequencePart(n: nat): Text {
    [QUOTE] + Lit(SEQUENCE_KEY) + [QUOTE] + ([COLON] + (Decimal(n) + [CLOSE_BRACE]))
  }

  function LineagePart(lineage: Text, more: Text): Text {
    [QUOTE] + Lit(LINEAGE_KEY) + [QUOTE] + ([COLON] + ([QUOTE] + lineage + [QUOTE] + ([COMMA] + more)))
  }

  lemma SequenceMember(n: nat)
    ensures EmitMembers([Member(Lit(SEQUENCE_KEY), Int(n))], [CLOSE_BRACE]) == SequencePart(n)
  {
    NatPrintsDecimal(n, [CLOSE_BRACE]);
    PlainString(Lit(SEQUENCE_KEY), [COLON] + (Decimal(n) + [CLOSE_BRACE]));
  }

  lemma LineageMember(h: StoredHead)
    requires ValidHead(h)
    ensures EmitMembers(HeadPayload(h).members, [CLOSE_BRACE]) == LineagePart(h.lineage, SequencePart(h.sequence))
  {
    var ms := HeadPayload(h).members;
    assert ms[1..] == [Member(Lit(SEQUENCE_KEY), Int(h.sequence))];
    SequenceMember(h.sequence);
    var more := SequencePart(h.sequence);
    PlainString(h.lineage, [COMMA] + more);
    PlainString(Lit(LINEAGE_KEY), [COLON] + ([QUOTE] + h.lineage + [QUOTE] + ([COMMA] + more)));
  }

  /** `{"lineage_sha256":"<64 hex digits>","sequence":<decimal>}` and nothing else. */
  lemma PayloadLayout(h: StoredHead)
    requires ValidHead(h)
    ensures Dumps(HeadPayload(h)) ==
              Lit("{\"lineage_sha256\":\"") + h.lineage + Lit("\",\"sequence\":") + Decimal(h.sequence) + Lit("}")
  {
    LineageMember(h);
    assert [CLOSE_BRACE] + [] == [CLOSE_BRACE];
    LayoutLiterals();
    LayoutAssociates(h.lineage, Decimal(h.sequence));
  }

  lemma LayoutLiterals()
    ensures Lit("{\"lineage_sha256\":\"") == [OPEN_BRACE] + [QUOTE] + Lit(LINEAGE_KEY) + [QUOTE] + [COLON] + [QUOTE]
    ensures Lit("\",\"sequence\":") == [QUOTE] + [COMMA] + [QUOTE] + Lit(SEQUENCE_KEY) + [QUOTE] + [COLON]
    ensures Lit("}") == [CLOSE_BRACE]
  {
  }

  lemma LayoutAssociates(lineage: Text, digits: Text)
    ensures [OPEN_BRACE] + ([QUOTE] + Lit(LINEAGE_KEY) + [QUOTE] + ([COLON] + ([QUOTE] + lineage + [QUOTE] + ([COMMA] +
              ([QUOTE] + Lit(SEQUENCE_KEY) + [QUOTE] + ([COLON] + (digits + [CLOSE_BRACE]))))))) ==
            ([OPEN_BRACE] + [QUOTE] + Lit(LINEAGE_KEY) + [QUOTE] + [COLON] + [QUOTE]) + lineage +
            ([QUOTE] + [COMMA] + [QUOTE] + Lit(SEQUENCE_KEY) + [QUOTE] + [COLON]) + digits + [CLOSE_BRACE]
  {
  }

  // ---- publish and load ----

  /** What the expected-head gate hands over. */
  datatype HeadEvidence = HeadEvidence(
    head: StoredHead,
    compatibleState: bool,
    recomputationVerified: bool,
    extensionVerified: bool,
    controlAllowed: bool)

  /** `RecoveryExpectedHeadStoreEvidence` */
  datatype StoreEvidence = StoreEvidence(
    head: StoredHead,
    payloadSha: Text,
    payloadSize: int,
    compatibleState: bool,
    canonicalVerified: bool,
    replaceUsed: bool,
    readbackVerified: bool,
    consistencyVerified: bool,
    controlAllowed: bool)

  /** `load_recovery_expected_head` on a file content; the hash is a parameter. */
  function LoadFrom(sha: Bytes -> Text, file: Option<Bytes>, expected: Option<Text>): Result<StoredHead, HeadError> {
    if file.None? then Failure(FileMissing)
    else
      var head := ParseCanonical(file.value);
      if head.Failure? || expected.None? then head
      else
        var wanted := CaseFold(Strip(expected.value));
        if !IsHex64(wanted) then Failure(BadExpectedDigest)
        else if sha(file.value) != wanted then Failure(DigestMismatch)
        else head
  }

  /** `_head_from_p65` */
  function HeadFrom(e: HeadEvidence): Option<StoredHead> {
    if e.compatibleState && e.recomputationVerified && e.extensionVerified && !e.controlAllowed && ValidHead(e.head)
    then Some(e.head) else None
  }

  /** A load returns a head exactly if the file is the canonical print of that valid head
      and has the expected digest, read without outer white space and case-folded. */
  lemma LoadedIffCanonical(sha: Bytes -> Text, file: Option<Bytes>, expected: Option<Text>, h: StoredHead)
    ensures LoadFrom(sha, file, expected) == Success(h) <==>
              && ValidHead(h)
              && file == Some(CanonicalPayload(h))
              && (expected.Some? ==> IsHex64(CaseFold(Strip(expected.value))) &&
                                     sha(CanonicalPayload(h)) == CaseFold(Strip(expected.value)))
  {
    if file.Some? {
      AcceptedIffCanonical(file.value, h);
    }
  }

  /** Which system call of a publication fails, if any. */
  datatype Trouble = NoTrouble | WriteFails | ReadbackFails

  class AnchorFile {
    var content: Option<Bytes>

    constructor ()
      ensures content == None
    {
      content := None;
    }

    /** `publish_recovery_expected_head`: it succeeds on every acceptable head unless a
        system call fails, whatever the file held, and then a load under the returned digest
        yields that head. A failed write leaves the file as it was; after a failed readback
        the head is there although the call raised. */
    method Publish(sha: Bytes -> Text, e: HeadEvidence, trouble: Trouble) returns (res: Result<StoreEvidence, HeadError>)
      requires forall b :: IsHex64(sha(b))
      modifies this
      ensures var fit := && e.compatibleState && e.recomputationVerified && e.extensionVerified && !e.controlAllowed
                         && e.head.sequence >= 1 && IsHex64(e.head.lineage);
              && (res.Success? <==> fit && trouble == NoTrouble)
              && content == if fit && trouble != WriteFails then Some(CanonicalPayload(e.head)) else old(content)
      ensures res.Success? ==>
                && res.value == StoreEvidence(e.head, sha(CanonicalPayload(e.head)), |CanonicalPayload(e.head)|,
                                              true, true, true, true, true, false)
                && LoadFrom(sha, content, Some(res.value.payloadSha)) == Success(e.head)
    {
      var head := HeadFrom(e);
      if head.None? {
        return Failure(BadEvidence);
      }
      var payload := CanonicalPayload(head.value);
      if trouble == WriteFails {
        return Failure(FileFailed);
      }
      content := Some(payload);
      if trouble == ReadbackFails {
        return Failure(FileFailed);
      }
      var readback := content.value;
      if readback != payload {
        return Failure(ReadbackDiffers);
      }
      HeadRoundTrip(head.value);
      var parsed := ParseCanonical(readback);
      if parsed != Success(head.value) {
        return Failure(ReadbackDrift);
      }
      HexIsNormal(sha(readback));
      return Success(StoreEvidence(head.value, sha(readback), |readback|, true, true, true, true, true, false));
    }

    /** `load_recovery_expected_head`: it returns exactly the valid head whose canonical
        print the file is, if the print has the expected digest. */
    method Load(sha: Bytes -> Text, expected: Option<Text>) returns (res: Result<StoredHead, HeadError>)
      ensures res == LoadFrom(sha, content, expected)
      ensures forall h :: res == Success(h) <==>
                && h.sequence >= 1 && IsHex64(h.lineage)
                && content == Some(CanonicalPayload(h))
                && (expected.Some? ==> IsHex64(CaseFold(Strip(expected.value))) &&
                                       sha(CanonicalPayload(h)) == CaseFold(Strip(expected.value)))
    {
      forall h {
        LoadedIffCanonical(sha, content, expected, h);
      }
      if content.None? {
        return Failure(FileMissing);
      }
      var head := ParseCanonical(content.value);
      if head.Failure? || expected.None? {
        return head;
      }
      var wanted := CaseFold(Strip(expected.value));
      if !IsHex64(wanted) {
        return Failure(BadExpectedDigest);
      }
      if sha(content.value) != wanted {
        return Failure(DigestMismatch);
      }
      return head;
    }
  }
}
