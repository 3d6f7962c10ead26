/** `loads(dumps(v))` is `v`, up to the one thing the escapes cannot carry: a high
    surrogate code point next to a low one comes back as a single character. */
module JsonRoundTrip {
  import opened Wrappers
  import opened Text
  import opened Json

  // ---- what a string looks like after a round trip ----

  predicate SplitPairAt(t: Text, i: int) {
    0 <= i < |t| - 1 && IsHigh(t[i]) && IsLow(t[i + 1])
  }

  /** No two neighbouring code points form a surrogate pair. */
  predicate Whole(t: Text) {
    forall i :: 0 <= i < |t| - 1 ==> !SplitPairAt(t, i)
  }

  function Merge(t: Text): (m: Text)
    ensures |m| <= |t|
  {
    if t == [] then []
    else if |t| >= 2 && IsHigh(t[0]) && IsLow(t[1]) then [Join(t[0], t[1])] + Merge(t[2..])
    else [t[0]] + Merge(t[1..])
  }

  lemma {:induction false} MergeIffWhole(t: Text)
    ensures Merge(t) == t <==> Whole(t)
  {
    if |t| >= 2 && IsHigh(t[0]) && IsLow(t[1]) {
      assert SplitPairAt(t, 0);
      assert |Merge(t)| < |t|;
    } else if t != [] {
      MergeIffWhole(t[1..]);
      assert t == [t[0]] + t[1..];
      assert Merge(t) == t <==> Merge(t[1..]) == t[1..] by {
        assert Merge(t)[1..] == Merge(t[1..]);
      }
      assert forall i :: 0 <= i < |t| - 2 ==> (SplitPairAt(t[1..], i) <==> SplitPairAt(t, i + 1));
      if Whole(t[1..]) {
        forall i | 0 <= i < |t| - 1 ensures !SplitPairAt(t, i) {
          if i > 0 { assert !SplitPairAt(t[1..], i - 1); }
        }
      }
      if Whole(t) {
        forall i | 0 <= i < |t[1..]| - 1 ensures !SplitPairAt(t[1..], i) {
          assert !SplitPairAt(t, i + 1);
        }
      }
    }
  }

  lemma HexIsWhole(s: Text)
    requires forall i :: 0 <= i < |s| ==> IsHexDigit(s[i])
    ensures Whole(s)
  {
  }

  /** A literal holds no surrogates: Dafny characters are scalar values. */
  lemma LitIsWhole(s: string)
    ensures Whole(Lit(s))
  {
    var t := Lit(s);
    forall i | 0 <= i < |t| - 1 ensures !SplitPairAt(t, i) {
      var c := s[i];
      assert t[i] == c as int;
    }
  }

  function MergeAll(v: Json): Json
    decreases v, 0
  {
    match v
    case Str(s) => Str(Merge(s))
    case Arr(items) => Arr(MergeItems(items))
    case Obj(members) => Obj(MergeMembers(members))
    case _ => v
  }

  function MergeItems(items: seq<Json>): (r: seq<Json>)
    ensures |r| == |items|
    decreases items, 1
  {
    if items == [] then [] else [MergeAll(items[0])] + MergeItems(items[1..])
  }

  function MergeMembers(members: seq<Member>): (r: seq<Member>)
    ensures |r| == |members|
    decreases members, 1
  {
    if members == [] then []
    else [Member(Merge(members[0].key), MergeAll(members[0].value))] + MergeMembers(members[1..])
  }

  predicate Printable(v: Json)
    decreases v, 0
  {
    match v
    case Float => false
    case Arr(items) => forall i :: 0 <= i < |items| ==> Printable(items[i])
    case Obj(members) => forall i :: 0 <= i < |members| ==> Printable(members[i].value)
    case _ => true
  }

  // ---- characters ----

  lemma HexRoundTrip(d: int)
    requires 0 <= d < 16
    ensures HexValue(HexDigit(d)) == Some(d)
  {
  }

  lemma UnitRoundTrip(u: int, tail: Text)
    requires 0 <= u < 0x1_0000
    ensures ParseUnit(EmitUnit(u, tail)) == Some(u)
    ensures EmitUnit(u, tail)[6..] == tail
  {
    var a, b, c, d := u / 0x1000, u / 0x100 % 16, u / 0x10 % 16, u % 16;
    FourDigits(u);
    HexRoundTrip(a);
    HexRoundTrip(b);
    HexRoundTrip(c);
    HexRoundTrip(d);
    assert EmitUnit(u, tail) == [BACKSLASH, LETTER_U, HexDigit(a), HexDigit(b), HexDigit(c), HexDigit(d)] + tail;
  }

  lemma FourDigits(u: int)
    requires 0 <= u < 0x1_0000
    ensures 0 <= u / 0x1000 < 16
    ensures u == u / 0x1000 * 0x1000 + u / 0x100 % 16 * 0x100 + u / 0x10 % 16 * 0x10 + u % 16
  {
  }

  lemma JoinsBack(c: CodePoint)
    requires c >= 0x1_0000
    ensures IsHigh(HighUnit(c)) && IsLow(LowUnit(c)) && Join(HighUnit(c), LowUnit(c)) == c
  {
  }

  /** A unit parsed at the head of an emitted body is low only if the body starts with a low surrogate. */
  lemma NextUnit(t: Text, tail: Text)
    requires t == [] || !IsLow(t[0])
    ensures var next := ParseUnit(EmitChars(t, [QUOTE] + tail)); next.Some? ==> !IsLow(next.value)
  {
    if t != [] {
      var more := EmitChars(t[1..], [QUOTE] + tail);
      var c := t[0];
      if ShortEscape(c).None? && !(32 <= c < 127) {
        if c < 0x1_0000 {
          UnitRoundTrip(c, more);
        } else {
          JoinsBack(c);
          UnitRoundTrip(HighUnit(c), EmitUnit(LowUnit(c), more));
        }
      }
    }
  }

  lemma {:induction false} CharsRoundTrip(t: Text, tail: Text)
    ensures ParseChars(EmitChars(t, [QUOTE] + tail)) == Some((Merge(t), tail))
  {
    if t == [] {
      assert ([QUOTE] + tail)[1..] == tail;
    } else {
      var c := t[0];
      var more := EmitChars(t[1..], [QUOTE] + tail);
      var s := EmitChars(t, [QUOTE] + tail);
      if |t| >= 2 && IsHigh(c) && IsLow(t[1]) {
        CharsRoundTrip(t[2..], tail);
        SplitPairParses(t, tail);
      } else {
        CharsRoundTrip(t[1..], tail);
        CharParses(t, tail);
      }
    }
  }

  lemma SplitPairParses(t: Text, tail: Text)
    requires |t| >= 2 && IsHigh(t[0]) && IsLow(t[1])
    ensures ParseChar(EmitChars(t, [QUOTE] + tail)) == Some((Join(t[0], t[1]), EmitChars(t[2..], [QUOTE] + tail)))
    ensures EmitChars(t, [QUOTE] + tail)[0] == BACKSLASH
  {
    var after := EmitChars(t[2..], [QUOTE] + tail);
    assert t[1..][1..] == t[2..];
    var second := EmitUnit(t[1], after);
    assert EmitChars(t, [QUOTE] + tail) == EmitUnit(t[0], second);
    UnitRoundTrip(t[1], after);
    UnitRoundTrip(t[0], second);
    assert EmitUnit(t[0], second)[12..] == second[6..];
  }

  lemma CharParses(t: Text, tail: Text)
    requires t != [] && !(|t| >= 2 && IsHigh(t[0]) && IsLow(t[1]))
    ensures var s := EmitChars(t, [QUOTE] + tail);
            && s != [] && s[0] != QUOTE
            && ParseChar(s) == Some((t[0], EmitChars(t[1..], [QUOTE] + tail)))
  {
    var more := EmitChars(t[1..], [QUOTE] + tail);
    if IsHigh(t[0]) {
      NextUnit(t[1..], tail);
    }
    OneCharParses(t[0], more);
  }

  lemma OneCharParses(c: CodePoint, more: Text)
    requires IsHigh(c) && ParseUnit(more).Some? ==> !IsLow(ParseUnit(more).value)
    ensures var s := EmitChar(c, more);
            && s != [] && s[0] != QUOTE
            && ParseChar(s) == Some((c, more))
  {
    var s := EmitChar(c, more);
    if ShortEscape(c).Some? {
      assert s[2..] == more;
    } else if 32 <= c < 127 {
      assert s[1..] == more;
    } else if c < 0x1_0000 {
      UnitRoundTrip(c, more);
    } else {
      AstralParses(c, more);
    }
  }

  lemma AstralParses(c: CodePoint, more: Text)
    requires c >= 0x1_0000
    ensures ParseChar(EmitUnit(HighUnit(c), EmitUnit(LowUnit(c), more))) == Some((c, more))
  {
    var second := EmitUnit(LowUnit(c), more);
    var s := EmitUnit(HighUnit(c), second);
    JoinsBack(c);
    UnitRoundTrip(HighUnit(c), second);
    UnitRoundTrip(LowUnit(c), more);
    assert s[12..] == s[6..][6..];
  }

  // ---- numbers ----

  /** What may follow a number without becoming part of it. */
  predicate EndsNumber(s: Text) {
    s == [] || (!IsDigit(s[0]) && s[0] != 46 && s[0] != 101 && s[0] != 69)
  }

  lemma {:induction false} DigitsRoundTrip(n: nat, s: Text)
    ensures ParseDigits(EmitNat(n, s), 0) == ParseDigits(s, n)
    ensures StartsDigit(EmitNat(n, s))
    ensures n > 0 ==> EmitNat(n, s)[0] != 48
    ensures n == 0 ==> EmitNat(n, s) == [48] + s
  {
    if n < 10 {
      assert ([48 + n] + s)[1..] == s;
    } else {
      DigitsRoundTrip(n / 10, [48 + n % 10] + s);
      assert ([48 + n % 10] + s)[1..] == s;
    }
  }

  lemma NatParses(n: nat, tail: Text)
    requires EndsNumber(tail)
    ensures var s := EmitNat(n, tail);
            && StartsDigit(s)
            && (if s[0] == 48 then (0, s[1..]) else ParseDigits(s[1..], s[0] - 48)) == (n, tail)
  {
    DigitsRoundTrip(n, tail);
    var s := EmitNat(n, tail);
    assert ParseDigits(s, 0) == ParseDigits(s[1..], s[0] - 48);
  }

  lemma IntRoundTrip(n: int, tail: Text)
    requires EndsNumber(tail)
    ensures ParseNumber(EmitInt(n, tail)) == Some((Int(n), tail))
    ensures EmitInt(n, tail) != [] && (EmitInt(n, tail)[0] == MINUS || IsDigit(EmitInt(n, tail)[0]))
  {
    if n < 0 {
      NatParses(-n, tail);
      assert EmitInt(n, tail)[1..] == EmitNat(-n, tail);
    } else {
      NatParses(n, tail);
    }
  }

  // ---- values ----

  lemma SkipsNothing(s: Text)
    requires s != [] && s[0] != 32 && s[0] != 9 && s[0] != 10 && s[0] != 13
    ensures SkipWs(s) == s
  {
  }

  /** An emitted value starts with none of the characters that decide before it is parsed. */
  lemma EmitStarts(v: Json, tail: Text)
    requires Printable(v)
    ensures var s := Emit(v, tail);
            && s != []
            && s[0] != 32 && s[0] != 9 && s[0] != 10 && s[0] != 13
            && s[0] != CLOSE_BRACKET && s[0] != CLOSE_BRACE
  {
    if v.Int? {
      DigitsRoundTrip(if v.n < 0 then -v.n else v.n, tail);
    }
  }

  lemma {:induction false} ValueRoundTrip(v: Json, tail: Text)
    requires Printable(v) && EndsNumber(tail)
    ensures ParseValue(Emit(v, tail)) == Some((MergeAll(v), tail))
    decreases v, 0
  {
    var s := Emit(v, tail);
    match v
    case Null => assert s[..4] == [110, 117, 108, 108] && s[4..] == tail;
    case Bool(b) =>
      if b {
        assert s[..4] == [116, 114, 117, 101] && s[4..] == tail;
      } else {
        assert s[..5] == [102, 97, 108, 115, 101] && s[5..] == tail;
      }
    case Int(n) => IntRoundTrip(n, tail);
    case Str(t) =>
      CharsRoundTrip(t, tail);
      assert s[1..] == EmitChars(t, [QUOTE] + tail);
    case Arr(items) =>
      if items == [] {
        assert s[1..] == [CLOSE_BRACKET] + tail;
        SkipsNothing(s[1..]);
        assert s[1..][1..] == tail;
      } else {
        assert s[1..] == EmitItems(items, [CLOSE_BRACKET] + tail);
        ItemsRoundTrip(items, tail);
      }
    case Obj(members) =>
      if members == [] {
        assert s[1..] == [CLOSE_BRACE] + tail;
        SkipsNothing(s[1..]);
        assert s[1..][1..] == tail;
      } else {
        assert s[1..] == EmitMembers(members, [CLOSE_BRACE] + tail);
        MembersRoundTrip(members, tail);
      }
  }

  lemma {:induction false} ItemsRoundTrip(items: seq<Json>, tail: Text)
    requires items != [] && forall i :: 0 <= i < |items| ==> Printable(items[i])
    ensures ParseItems(EmitItems(items, [CLOSE_BRACKET] + tail)) == Some((MergeItems(items), tail))
    ensures var s := EmitItems(items, [CLOSE_BRACKET] + tail); s != [] && SkipWs(s) == s && s[0] != CLOSE_BRACKET
    decreases items, 1
  {
    var s := EmitItems(items, [CLOSE_BRACKET] + tail);
    var after := if |items| == 1 then [CLOSE_BRACKET] + tail
                 else [COMMA] + EmitItems(items[1..], [CLOSE_BRACKET] + tail);
    EmitStarts(items[0], after);
    ValueRoundTrip(items[0], after);
    SkipsNothing(after);
    if |items| == 1 {
      assert after[1..] == tail;
      assert MergeItems(items) == [MergeAll(items[0])];
    } else {
      assert after[1..] == EmitItems(items[1..], [CLOSE_BRACKET] + tail);
      ItemsRoundTrip(items[1..], tail);
    }
  }

  lemma {:induction false} MemberStep(m: Member, after: Text)
    requires Printable(m.value) && EndsNumber(after)
    ensures var colon := [COLON] + Emit(m.value, after);
            && ParseChars(EmitString(m.key, colon)[1..]) == Some((Merge(m.key), colon))
            && SkipWs(colon) == colon
            && ParseValue(SkipWs(colon[1..])) == Some((MergeAll(m.value), after))
    ensures var s := EmitString(m.key, [COLON] + Emit(m.value, after)); s[0] == QUOTE && SkipWs(s) == s
    decreases m, 0
  {
    var value := Emit(m.value, after);
    var colon := [COLON] + value;
    assert EmitString(m.key, colon)[1..] == EmitChars(m.key, [QUOTE] + colon);
    CharsRoundTrip(m.key, colon);
    EmitStarts(m.value, after);
    ValueRoundTrip(m.value, after);
    assert colon[1..] == value;
  }

  lemma {:induction false} MembersRoundTrip(members: seq<Member>, tail: Text)
    requires members != [] && forall i :: 0 <= i < |members| ==> Printable(members[i].value)
    ensures ParseMembers(EmitMembers(members, [CLOSE_BRACE] + tail)) == Some((MergeMembers(members), tail))
    ensures var s := EmitMembers(members, [CLOSE_BRACE] + tail); s != [] && SkipWs(s) == s && s[0] != CLOSE_BRACE
    decreases members, 1
  {
    var after := if |members| == 1 then [CLOSE_BRACE] + tail
                 else [COMMA] + EmitMembers(members[1..], [CLOSE_BRACE] + tail);
    MemberStep(members[0], after);
    SkipsNothing(after);
    if |members| == 1 {
      assert after[1..] == tail;
      assert MergeMembers(members) == [Member(Merge(members[0].key), MergeAll(members[0].value))];
    } else {
      assert after[1..] == EmitMembers(members[1..], [CLOSE_BRACE] + tail);
      MembersRoundTrip(members[1..], tail);
    }
  }

  /** Decoding what was printed gives the value back, its split surrogate pairs joined. */
  lemma RoundTrip(v: Json)
    requires Printable(v)
    ensures Loads(Dumps(v)) == Some(MergeAll(v))
  {
    ValueRoundTrip(v, []);
    EmitStarts(v, []);
    SkipsNothing(Dumps(v));
  }

  // ---- consequences ----

  /** Joining a split pair does not show in what is printed. */
  lemma {:induction false} MergedCharsPrintAlike(t: Text, tail: Text)
    ensures EmitChars(Merge(t), tail) == EmitChars(t, tail)
  {
    if |t| >= 2 && IsHigh(t[0]) && IsLow(t[1]) {
      var c := Join(t[0], t[1]);
      MergedCharsPrintAlike(t[2..], tail);
      assert Merge(t)[1..] == Merge(t[2..]) && t[1..][1..] == t[2..];
      assert HighUnit(c) == t[0] && LowUnit(c) == t[1];
    } else if t != [] {
      MergedCharsPrintAlike(t[1..], tail);
      assert Merge(t)[1..] == Merge(t[1..]);
    }
  }

  /** The same for whole documents: the print does not tell a split pair from a joined one. */
  lemma {:induction false} MergedPrintsAlike(v: Json, tail: Text)
    ensures Emit(MergeAll(v), tail) == Emit(v, tail)
    decreases v, 0
  {
    match v
    case Str(s) => MergedCharsPrintAlike(s, [QUOTE] + tail);
    case Arr(items) => if items != [] { MergedItemsPrintAlike(items, [CLOSE_BRACKET] + tail); }
    case Obj(members) => if members != [] { MergedMembersPrintAlike(members, [CLOSE_BRACE] + tail); }
    case _ =>
  }

  lemma {:induction false} MergedItemsPrintAlike(items: seq<Json>, tail: Text)
    requires items != []
    ensures EmitItems(MergeItems(items), tail) == EmitItems(items, tail)
    decreases items, 1
  {
    if |items| == 1 {
      MergedPrintsAlike(items[0], tail);
    } else {
      MergedItemsPrintAlike(items[1..], tail);
      assert MergeItems(items)[1..] == MergeItems(items[1..]);
      MergedPrintsAlike(items[0], [COMMA] + EmitItems(items[1..], tail));
    }
  }

  lemma {:induction false} MergedMembersPrintAlike(members: seq<Member>, tail: Text)
    requires members != []
    ensures EmitMembers(MergeMembers(members), tail) == EmitMembers(members, tail)
    decreases members, 1
  {
    var m := members[0];
    var after := if |members| == 1 then tail else [COMMA] + EmitMembers(members[1..], tail);
    if |members| > 1 {
      MergedMembersPrintAlike(members[1..], tail);
      assert MergeMembers(members)[1..] == MergeMembers(members[1..]);
    }
    MergedPrintsAlike(m.value, after);
    MergedCharsPrintAlike(m.key, [QUOTE] + ([COLON] + Emit(m.value, after)));
  }

  /** Every string in the document is free of split surrogate pairs. */
  predicate WholeJson(v: Json)
    decreases v, 0
  {
    match v
    case Str(s) => Whole(s)
    case Arr(items) => forall i :: 0 <= i < |items| ==> WholeJson(items[i])
    case Obj(members) => forall i :: 0 <= i < |members| ==> Whole(members[i].key) && WholeJson(members[i].value)
    case _ => true
  }

  lemma {:induction false} WholeIsUnchanged(v: Json)
    requires WholeJson(v)
    ensures MergeAll(v) == v
    decreases v, 0
  {
    match v
    case Str(s) => MergeIffWhole(s);
    case Arr(items) => WholeItemsUnchanged(items);
    case Obj(members) => WholeMembersUnchanged(members);
    case _ =>
  }

  lemma {:induction false} WholeItemsUnchanged(items: seq<Json>)
    requires forall i :: 0 <= i < |items| ==> WholeJson(items[i])
    ensures MergeItems(items) == items
    decreases items, 1
  {
    if items != [] {
      WholeIsUnchanged(items[0]);
      WholeItemsUnchanged(items[1..]);
    }
  }

  lemma {:induction false} WholeMembersUnchanged(members: seq<Member>)
    requires forall i :: 0 <= i < |members| ==> Whole(members[i].key) && WholeJson(members[i].value)
    ensures MergeMembers(members) == members
    decreases members, 1
  {
    if members != [] {
      MergeIffWhole(members[0].key);
      WholeIsUnchanged(members[0].value);
      WholeMembersUnchanged(members[1..]);
    }
  }

  /** Two printable documents have the same print exactly if joining their split pairs
      makes them one document. */
  lemma PrintAlikeIff(a: Json, b: Json)
    requires Printable(a) && Printable(b)
    ensures Dumps(a) == Dumps(b) <==> MergeAll(a) == MergeAll(b)
  {
    RoundTrip(a);
    RoundTrip(b);
    MergedPrintsAlike(a, []);
    MergedPrintsAlike(b, []);
  }

  /** Two printable documents with the same print differ at most in split surrogate
      pairs; without such pairs they are one document. */
  lemma DumpsInjective(a: Json, b: Json)
    requires Printable(a) && Printable(b) && Dumps(a) == Dumps(b)
    ensures MergeAll(a) == MergeAll(b)
    ensures WholeJson(a) && WholeJson(b) ==> a == b
  {
    RoundTrip(a);
    RoundTrip(b);
    if WholeJson(a) && WholeJson(b) {
      WholeIsUnchanged(a);
      WholeIsUnchanged(b);
    }
  }
}
