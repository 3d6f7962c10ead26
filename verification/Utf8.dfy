/** `bytes.decode("utf-8")`, and the byte form of what `dumps` prints. */
module Utf8 {
  import opened Wrappers
  import opened Text
  import opened Json

  predicate IsAscii(t: Text) {
    forall i :: 0 <= i < |t| ==> t[i] < 128
  }

  predicate IsTail(b: Byte) {
    0x80 <= b < 0xC0
  }

  function Bits(b: Byte): (n: int)
    requires IsTail(b)
    ensures 0 <= n < 0x40
  {
    var n: int := b;
    n - 0x80
  }

  /** The first encoded character and how many bytes it takes: strict UTF-8, no
      overlong forms, no surrogates, nothing above U+10FFFF. */
  function DecodeOne(b: Bytes): (r: Option<(CodePoint, nat)>)
    requires b != []
    ensures r.Some? ==> 1 <= r.value.1 <= |b|
  {
    var lead: int := b[0];
    if lead < 0x80 then Some((lead, 1))
    else if 0xC2 <= lead < 0xE0 && |b| >= 2 && IsTail(b[1]) then
      Some(((lead - 0xC0) * 0x40 + Bits(b[1]), 2))
    else if 0xE0 <= lead < 0xF0 && |b| >= 3 && IsTail(b[1]) && IsTail(b[2]) then
      var c := (lead - 0xE0) * 0x1000 + Bits(b[1]) * 0x40 + Bits(b[2]);
      if c < 0x800 || 0xD800 <= c < 0xE000 then None else Some((c, 3))
    else if 0xF0 <= lead < 0xF5 && |b| >= 4 && IsTail(b[1]) && IsTail(b[2]) && IsTail(b[3]) then
      var c := (lead - 0xF0) * 0x4_0000 + Bits(b[1]) * 0x1000 + Bits(b[2]) * 0x40 + Bits(b[3]);
      if c < 0x1_0000 || c >= 0x11_0000 then None else Some((c, 4))
    else None
  }

  function Decode(b: Bytes): Option<Text> {
    if b == [] then Some([])
    else
      var first := DecodeOne(b);
      if first.None? then None
      else
        var rest := Decode(b[first.value.1..]);
        if rest.None? then None else Some([first.value.0] + rest.value)
  }

  lemma {:induction false} DecodeAscii(t: Text, b: Bytes)
    requires IsAscii(t) && |b| == |t| && forall i :: 0 <= i < |t| ==> b[i] == t[i]
    ensures Decode(b) == Some(t)
  {
    if t != [] {
      DecodeAscii(t[1..], b[1..]);
      assert t == [t[0]] + t[1..];
    }
  }

  // ---- dumps prints ASCII ----

  lemma {:induction false} CharsAscii(t: Text, tail: Text)
    requires IsAscii(tail)
    ensures IsAscii(EmitChars(t, tail))
  {
    if t != [] {
      CharsAscii(t[1..], tail);
    }
  }

  lemma {:induction false} NatAscii(n: nat, tail: Text)
    requires IsAscii(tail)
    ensures IsAscii(EmitNat(n, tail))
  {
    if n >= 10 {
      NatAscii(n / 10, [48 + n % 10] + tail);
    }
  }

  lemma {:induction false} EmitAscii(v: Json, tail: Text)
    requires IsAscii(tail)
    ensures IsAscii(Emit(v, tail))
    decreases v, 0
  {
    match v
    case Null =>
    case Bool(b) =>
    case Int(n) => NatAscii(if n < 0 then -n else n, tail);
    case Float =>
    case Str(s) => CharsAscii(s, [QUOTE] + tail);
    case Arr(items) =>
      if items != [] { ItemsAscii(items, [CLOSE_BRACKET] + tail); }
    case Obj(members) =>
      if members != [] { MembersAscii(members, [CLOSE_BRACE] + tail); }
  }

  lemma {:induction false} ItemsAscii(items: seq<Json>, tail: Text)
    requires items != [] && IsAscii(tail)
    ensures IsAscii(EmitItems(items, tail))
    decreases items, 1
  {
    if |items| > 1 {
      ItemsAscii(items[1..], tail);
      EmitAscii(items[0], [COMMA] + EmitItems(items[1..], tail));
    } else {
      EmitAscii(items[0], tail);
    }
  }

  lemma {:induction false} MembersAscii(members: seq<Member>, tail: Text)
    requires members != [] && IsAscii(tail)
    ensures IsAscii(EmitMembers(members, tail))
    decreases members, 1
  {
    var m := members[0];
    var after := if |members| > 1 then [COMMA] + EmitMembers(members[1..], tail) else tail;
    if |members| > 1 {
      MembersAscii(members[1..], tail);
    }
    EmitAscii(m.value, after);
    CharsAscii(m.key, [QUOTE] + ([COLON] + Emit(m.value, after)));
  }

  function AsBytes(t: Text): (b: Bytes)
    requires IsAscii(t)
    ensures |b| == |t| && forall i :: 0 <= i < |t| ==> b[i] == t[i]
  {
    seq(|t|, i requires 0 <= i < |t| => t[i])
  }

  /** `json.dumps(v, ...).encode("utf-8")`. */
  function DumpsBytes(v: Json): (b: Bytes)
    ensures Decode(b) == Some(Dumps(v))
  {
    EmitAscii(v, []);
    DecodeAscii(Dumps(v), AsBytes(Dumps(v)));
    AsBytes(Dumps(v))
  }
}
