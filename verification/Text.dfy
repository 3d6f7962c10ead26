/** Python strings as sequences of code points (surrogates included), their order,
    `strip`, and the hexadecimal digests written in them. */
module Text {
  import opened Wrappers

  type CodePoint = c: int | 0 <= c < 0x11_0000
  type Text = seq<CodePoint>
  type Byte = b: int | 0 <= b < 0x100
  type Bytes = seq<Byte>

  /** A Dafny literal as a Python string. */
  function Lit(s: string): (t: Text)
    ensures |t| == |s| && forall i :: 0 <= i < |s| ==> t[i] == s[i] as int
  {
    seq(|s|, i requires 0 <= i < |s| => s[i] as int)
  }

  // ---- order: Python compares strings code point by code point ----

  predicate Less(a: Text, b: Text) {
    b != [] && (a == [] || a[0] < b[0] || (a[0] == b[0] && Less(a[1..], b[1..])))
  }

  lemma {:induction false} LessTrichotomy(a: Text, b: Text)
    ensures Less(a, b) || Less(b, a) || a == b
    ensures !(Less(a, b) && Less(b, a))
    ensures !Less(a, a)
  {
    if a != [] {
      LessTrichotomy(a[1..], a[1..]);
      if b != [] {
        LessTrichotomy(a[1..], b[1..]);
        assert a == [a[0]] + a[1..] && b == [b[0]] + b[1..];
      }
    }
  }

  lemma {:induction false} LessTransitive(a: Text, b: Text, c: Text)
    requires Less(a, b) && Less(b, c)
    ensures Less(a, c)
  {
    if a != [] && a[0] == b[0] == c[0] {
      LessTransitive(a[1..], b[1..], c[1..]);
    }
  }

  /** `k` is the first place where the texts differ; there `a` has ended or has the lesser code point. */
  ghost predicate SplitsAt(a: Text, b: Text, k: nat) {
    k <= |a| && k < |b| && a[..k] == b[..k] && (k == |a| || a[k] < b[k])
  }

  lemma {:induction false} LessIff(a: Text, b: Text)
    ensures Less(a, b) <==> exists k: nat :: SplitsAt(a, b, k)
  {
    if a != [] && b != [] {
      LessIff(a[1..], b[1..]);
      if a[0] == b[0] {
        if k: nat :| SplitsAt(a[1..], b[1..], k) {
          assert a[..k + 1] == [a[0]] + a[1..][..k] && b[..k + 1] == [b[0]] + b[1..][..k];
          assert SplitsAt(a, b, k + 1);
        }
        if k: nat :| SplitsAt(a, b, k) {
          SplitsLater(a, b, k);
        }
      } else if a[0] < b[0] {
        assert SplitsAt(a, b, 0);
      } else if k: nat :| SplitsAt(a, b, k) {
        if k > 0 { assert a[..k][0] == b[..k][0]; }
      }
    } else if b != [] {
      assert SplitsAt(a, b, 0);
    }
  }

  lemma SplitsLater(a: Text, b: Text, k: nat)
    requires a != [] && b != [] && a[0] == b[0] && SplitsAt(a, b, k)
    ensures k > 0 && SplitsAt(a[1..], b[1..], k - 1)
  {
    assert a[1..][..k - 1] == a[..k][1..] && b[1..][..k - 1] == b[..k][1..];
  }

  predicate Sorted(ids: seq<Text>) {
    forall i, j :: 0 <= i < j < |ids| ==> Less(ids[i], ids[j])
  }

  /** Every non-empty finite set of texts has a least element. */
  lemma {:induction false} LeastExists(s: set<Text>) returns (least: Text)
    requires s != {}
    ensures least in s && forall t :: t in s && t != least ==> Less(least, t)
  {
    var x :| x in s;
    if s == {x} {
      return x;
    }
    var rest := s - {x};
    assert rest != {} by { assert s == rest + {x}; }
    var y := LeastExists(rest);
    LessTrichotomy(x, y);
    if Less(x, y) {
      forall t | t in s && t != x ensures Less(x, t) {
        if t != y { LessTransitive(x, y, t); }
      }
      return x;
    }
    return y;
  }

  /** `sorted(ids)` of a set of distinct strings. */
  ghost function SortedIds(s: set<Text>): (ids: seq<Text>)
    ensures forall t :: t in ids <==> t in s
    ensures |ids| == |s|
    ensures Sorted(ids)
  {
    if s == {} then []
    else
      assert exists t :: IsLeast(t, s) by { var l := LeastExists(s); assert IsLeast(l, s); }
      var least :| IsLeast(least, s);
      [least] + SortedIds(s - {least})
  }

  ghost predicate IsLeast(least: Text, s: set<Text>) {
    least in s && forall t :: t in s && t != least ==> Less(least, t)
  }

  /** A strictly sorted list is determined by its members. */
  lemma {:induction false} SortedUnique(a: seq<Text>, b: seq<Text>)
    requires Sorted(a) && Sorted(b) && forall t :: t in a <==> t in b
    ensures a == b
  {
    assert a != [] ==> a[0] in b;
    assert b != [] ==> b[0] in a;
    if a != [] && b != [] {
      LessTrichotomy(a[0], b[0]);
      assert a[0] == b[0];
      forall t ensures t in a[1..] <==> t in b[1..] {
        LessTrichotomy(a[0], a[0]);
        if t in a[1..] { assert t in a && t != a[0]; }
        if t in b[1..] { assert t in b && t != b[0]; }
      }
      SortedUnique(a[1..], b[1..]);
      assert a == [a[0]] + a[1..] && b == [b[0]] + b[1..];
    }
  }

  /** `sorted(...)`, by insertion. */
  method SortIds(s: set<Text>) returns (ids: seq<Text>)
    ensures ids == SortedIds(s)
  {
    ids := [];
    var todo := s;
    while todo != {}
      invariant todo <= s && Sorted(ids)
      invariant forall t :: t in ids <==> t in s && t !in todo
      decreases |todo|
    {
      var x :| x in todo;
      ids := InsertSorted(ids, x);
      todo := todo - {x};
    }
    SortedUnique(ids, SortedIds(s));
  }

  method InsertSorted(ids: seq<Text>, x: Text) returns (r: seq<Text>)
    requires Sorted(ids) && x !in ids
    ensures Sorted(r)
    ensures forall t :: t in r <==> t == x || t in ids
  {
    var at := 0;
    while at < |ids| && Less(ids[at], x)
      invariant at <= |ids|
      invariant forall i :: 0 <= i < at ==> Less(ids[i], x)
    {
      at := at + 1;
    }
    forall i | at <= i < |ids| ensures Less(x, ids[i]) {
      assert ids[at] in ids;
      LessTrichotomy(x, ids[at]);
      if at < i { LessTransitive(x, ids[at], ids[i]); }
    }
    r := ids[..at] + [x] + ids[at..];
    assert ids == ids[..at] + ids[at..];
    assert forall t :: t in ids <==> t in ids[..at] || t in ids[at..];
  }

  // ---- str.strip ----

  predicate IsSpace(c: CodePoint) {
    || 0x09 <= c <= 0x0D || 0x1C <= c <= 0x20 || c == 0x85 || c == 0xA0 || c == 0x1680
    || 0x2000 <= c <= 0x200A || c == 0x2028 || c == 0x2029 || c == 0x202F || c == 0x205F || c == 0x3000
  }

  function StripLeft(s: Text): (t: Text)
    ensures t != [] ==> !IsSpace(t[0])
    ensures |t| <= |s|
  {
    if s != [] && IsSpace(s[0]) then StripLeft(s[1..]) else s
  }

  function StripRight(s: Text): (t: Text)
    ensures t != [] ==> !IsSpace(t[|t| - 1])
    ensures t <= s
  {
    if s != [] && IsSpace(s[|s| - 1]) then StripRight(s[..|s| - 1]) else s
  }

  function Strip(s: Text): Text {
    StripRight(StripLeft(s))
  }

  predicate Stripped(s: Text) {
    s != [] ==> !IsSpace(s[0]) && !IsSpace(s[|s| - 1])
  }

  lemma StripIsStripped(s: Text)
    ensures Stripped(Strip(s))
    ensures Stripped(s) ==> Strip(s) == s
  {
    var left := StripLeft(s);
    assert Strip(s) != [] ==> Strip(s)[0] == left[0];
  }

  lemma {:induction false} StripLeftIs(s: Text) returns (i: nat)
    ensures i <= |s| && StripLeft(s) == s[i..] && forall k :: 0 <= k < i ==> IsSpace(s[k])
  {
    i := 0;
    if s != [] && IsSpace(s[0]) {
      i := StripLeftIs(s[1..]);
      i := i + 1;
    }
  }

  lemma {:induction false} StripRightIs(s: Text) returns (j: nat)
    ensures j <= |s| && StripRight(s) == s[..j] && forall k :: j <= k < |s| ==> IsSpace(s[k])
  {
    j := |s|;
    if s != [] && IsSpace(s[|s| - 1]) {
      j := StripRightIs(s[..|s| - 1]);
    }
  }

  /** Stripping cuts off white space on both sides and nothing else. */
  lemma StripCuts(s: Text) returns (i: nat, j: nat)
    ensures i <= j <= |s| && Strip(s) == s[i..j] && Stripped(s[i..j])
    ensures forall k :: 0 <= k < i || j <= k < |s| ==> IsSpace(s[k])
  {
    i := StripLeftIs(s);
    var n := StripRightIs(s[i..]);
    j := i + n;
    StripIsStripped(s);
    forall k | j <= k < |s| ensures IsSpace(s[k]) {
      assert s[i..][k - i] == s[k];
    }
  }

  lemma BlankIff(s: Text)
    ensures Strip(s) == [] <==> forall k :: 0 <= k < |s| ==> IsSpace(s[k])
  {
    var i, j := StripCuts(s);
  }

  /** `_text`: a non-blank string, stripped. */
  function NonBlank(s: Text): Option<Text> {
    if Strip(s) == [] then None else Some(Strip(s))
  }

  // ---- digests ----

  predicate IsHexDigit(c: CodePoint) {
    '0' as int <= c <= '9' as int || 'a' as int <= c <= 'f' as int
  }

  predicate IsHex64(s: Text) {
    |s| == 64 && forall i :: 0 <= i < |s| ==> IsHexDigit(s[i])
  }

  /** `str.lower` as far as a hexadecimal check can see it: no other character folds to
      a hexadecimal digit. */
  function Lower(s: Text): (t: Text)
    ensures |t| == |s|
    ensures forall i :: 0 <= i < |s| ==> t[i] == LowerChar(s[i])
  {
    seq(|s|, i requires 0 <= i < |s| => LowerChar(s[i]))
  }

  function LowerChar(c: CodePoint): CodePoint {
    if 'A' as int <= c <= 'Z' as int then c + 32 else c
  }

  /** `str.casefold`, likewise; the ligature U+FB00 folds to "ff". */
  function CaseFold(s: Text): Text {
    if s == [] then []
    else (if s[0] == 0xFB00 then ['f' as int, 'f' as int] else [LowerChar(s[0])]) + CaseFold(s[1..])
  }

  lemma {:induction false} CaseFoldOfHex(s: Text)
    requires forall i :: 0 <= i < |s| ==> IsHexDigit(s[i])
    ensures CaseFold(s) == s
  {
    if s != [] {
      CaseFoldOfHex(s[1..]);
      assert s == [s[0]] + s[1..];
    }
  }

  /** `_hex` of the recovery gates: strip, fold, and require 64 hexadecimal digits. */
  function FoldedDigest(s: Text): Option<Text> {
    if Strip(s) != [] && IsHex64(CaseFold(Strip(s))) then Some(CaseFold(Strip(s))) else None
  }

  lemma {:induction false} CaseFoldAt(s: Text)
    requires 0xFB00 !in s
    ensures |CaseFold(s)| == |s| && forall i :: 0 <= i < |s| ==> CaseFold(s)[i] == LowerChar(s[i])
  {
    if s != [] {
      CaseFoldAt(s[1..]);
    }
  }

  /** Up to white space around it the text spells the digest `d`, in either case. */
  ghost predicate Spells(s: Text, d: Text) {
    && |Strip(s)| == 64 && |d| == 64
    && forall i :: 0 <= i < 64 ==>
         && (48 <= d[i] <= 57 || 97 <= d[i] <= 102)
         && (Strip(s)[i] == d[i] || (d[i] >= 97 && Strip(s)[i] == d[i] - 32))
  }

  /** What passes as a digest; a text with the ligature can pass in the recovery gates alone. */
  lemma DigestIff(s: Text, d: Text)
    ensures 0xFB00 !in Strip(s) ==> (FoldedDigest(s) == Some(d) <==> Spells(s, d))
    ensures LoweredDigest(s) == Some(d) <==> Spells(s, d)
  {
    if LoweredDigest(s) == Some(d) {
      assert forall i :: 0 <= i < 64 ==> d[i] == LowerChar(Strip(s)[i]) && IsHexDigit(d[i]);
    }
    if Spells(s, d) {
      assert Lower(Strip(s)) == d;
    }
    if 0xFB00 !in Strip(s) {
      CaseFoldAt(Strip(s));
      assert CaseFold(Strip(s)) == Lower(Strip(s));
    }
  }

  /** A digest in normal form is accepted as it stands. */
  lemma HexIsNormal(s: Text)
    requires IsHex64(s)
    ensures Strip(s) == s && NonBlank(s) == Some(s) && FoldedDigest(s) == Some(s)
    ensures Lower(s) == s
  {
    assert IsHexDigit(s[0]) && IsHexDigit(s[63]);
    StripIsStripped(s);
    CaseFoldOfHex(s);
  }

  /** `_validate_sha256` of the router: strip, lower, and require 64 hexadecimal digits. */
  function LoweredDigest(s: Text): Option<Text> {
    if IsHex64(Lower(Strip(s))) then Some(Lower(Strip(s))) else None
  }
}
