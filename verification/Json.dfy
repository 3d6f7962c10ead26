/** The two ends of Python's `json` that the recovery gates rely on:
    `dumps(sort_keys=True, separators=(",", ":"), ensure_ascii=True)` and `loads`
    (objects, numbers and strings as in sections 4, 6 and 7 of RFC 8259), and the
    theorem that the second undoes the first. */
module Json {
  import opened Wrappers
  import opened Text

  /** A decoded document. Every number with a fraction or an exponent, and the
      non-standard NaN and Infinity, is `Float`: no gate ever accepts one. */
  datatype Json =
    | Null
    | Bool(b: bool)
    | Int(n: int)
    | Float
    | Str(s: Text)
    | Arr(items: seq<Json>)
    | Obj(members: seq<Member>)

  datatype Member = Member(key: Text, value: Json)

  const QUOTE: CodePoint := 34
  const BACKSLASH: CodePoint := 92
  const COMMA: CodePoint := 44
  const COLON: CodePoint := 58
  const OPEN_BRACKET: CodePoint := 91
  const CLOSE_BRACKET: CodePoint := 93
  const OPEN_BRACE: CodePoint := 123
  const CLOSE_BRACE: CodePoint := 125
  const MINUS: CodePoint := 45
  const LETTER_U: CodePoint := 117

  // ---- dumps: each function writes its value in front of what follows ----

  function HexDigit(d: int): (c: CodePoint)
    requires 0 <= d < 16
    ensures c < 128
  {
    if d < 10 then 48 + d else 87 + d
  }

  /** `\uXXXX` */
  function EmitUnit(u: int, tail: Text): Text
    requires 0 <= u < 0x1_0000
  {
    [BACKSLASH, LETTER_U, HexDigit(u / 0x1000), HexDigit(u / 0x100 % 16), HexDigit(u / 0x10 % 16), HexDigit(u % 16)] + tail
  }

  /** The short escape of a character, if it has one. */
  function ShortEscape(c: CodePoint): Option<CodePoint> {
    if c == 34 then Some(34)
    else if c == 92 then Some(92)
    else if c == 8 then Some(98)
    else if c == 9 then Some(116)
    else if c == 10 then Some(110)
    else if c == 12 then Some(102)
    else if c == 13 then Some(114)
    else None
  }

  function HighUnit(c: CodePoint): int {
    0xD800 + (c - 0x1_0000) / 0x400
  }

  function LowUnit(c: CodePoint): int {
    0xDC00 + (c - 0x1_0000) % 0x400
  }

  function EmitChar(c: CodePoint, tail: Text): Text {
    if ShortEscape(c).Some? then [BACKSLASH, ShortEscape(c).value] + tail
    else if 32 <= c < 127 then [c] + tail
    else if c < 0x1_0000 then EmitUnit(c, tail)
    else EmitUnit(HighUnit(c), EmitUnit(LowUnit(c), tail))
  }

  function EmitChars(t: Text, tail: Text): Text {
    if t == [] then tail else EmitChar(t[0], EmitChars(t[1..], tail))
  }

  function EmitString(t: Text, tail: Text): Text {
    [QUOTE] + EmitChars(t, [QUOTE] + tail)
  }

  function EmitNat(n: nat, tail: Text): Text {
    if n < 10 then [48 + n] + tail else EmitNat(n / 10, [48 + n % 10] + tail)
  }

  function EmitInt(n: int, tail: Text): Text {
    if n < 0 then [MINUS] + EmitNat(-n, tail) else EmitNat(n, tail)
  }

  function Emit(v: Json, tail: Text): Text
    decreases v, 0
  {
    match v
    case Null => [110, 117, 108, 108] + tail
    case Bool(b) => (if b then [116, 114, 117, 101] else [102, 97, 108, 115, 101]) + tail
    case Int(n) => EmitInt(n, tail)
    case Float => tail
    case Str(s) => EmitString(s, tail)
    case Arr(items) =>
      if items == [] then [OPEN_BRACKET, CLOSE_BRACKET] + tail
      else [OPEN_BRACKET] + EmitItems(items, [CLOSE_BRACKET] + tail)
    case Obj(members) =>
      if members == [] then [OPEN_BRACE, CLOSE_BRACE] + tail
      else [OPEN_BRACE] + EmitMembers(members, [CLOSE_BRACE] + tail)
  }

  function EmitItems(items: seq<Json>, tail: Text): Text
    requires items != []
    decreases items, 1
  {
    if |items| == 1 then Emit(items[0], tail)
    else Emit(items[0], [COMMA] + EmitItems(items[1..], tail))
  }

  function EmitMembers(members: seq<Member>, tail: Text): Text
    requires members != []
    decreases members, 1
  {
    var m := members[0];
    if |members| == 1 then EmitString(m.key, [COLON] + Emit(m.value, tail))
    else EmitString(m.key, [COLON] + Emit(m.value, [COMMA] + EmitMembers(members[1..], tail)))
  }

  /** `json.dumps(v, ...)`. */
  function Dumps(v: Json): Text {
    Emit(v, [])
  }

  // ---- loads ----

  type Rest<T> = Option<(T, Text)>

  function SkipWs(s: Text): (r: Text)
    ensures |r| <= |s|
  {
    if s != [] && (s[0] == 32 || s[0] == 9 || s[0] == 10 || s[0] == 13) then SkipWs(s[1..]) else s
  }

  predicate IsDigit(c: CodePoint) {
    48 <= c <= 57
  }

  predicate StartsDigit(s: Text) {
    s != [] && IsDigit(s[0])
  }

  predicate StartsWith(s: Text, word: seq<CodePoint>) {
    |word| <= |s| && s[..|word|] == word
  }

  function HexValue(c: CodePoint): Option<int> {
    if 48 <= c <= 57 then Some(c - 48)
    else if 97 <= c <= 102 then Some(c - 87)
    else if 65 <= c <= 70 then Some(c - 55)
    else None
  }

  /** The four digits behind `\u`. */
  function ParseUnit(s: Text): (u: Option<int>)
    ensures u.Some? ==> 0 <= u.value < 0x1_0000 && |s| >= 6
  {
    if |s| < 6 || s[0] != BACKSLASH || s[1] != LETTER_U then None
    else
      var a, b, c, d := HexValue(s[2]), HexValue(s[3]), HexValue(s[4]), HexValue(s[5]);
      if a.None? || b.None? || c.None? || d.None? then None
      else Some(a.value * 0x1000 + b.value * 0x100 + c.value * 0x10 + d.value)
  }

  predicate IsHigh(c: int) {
    0xD800 <= c < 0xDC00
  }

  predicate IsLow(c: int) {
    0xDC00 <= c < 0xE000
  }

  function Join(high: int, low: int): CodePoint
    requires IsHigh(high) && IsLow(low)
  {
    0x1_0000 + (high - 0xD800) * 0x400 + (low - 0xDC00)
  }

  function Unescape(c: CodePoint): Option<CodePoint> {
    if c == 34 || c == 92 || c == 47 then Some(c)
    else if c == 98 then Some(8)
    else if c == 102 then Some(12)
    else if c == 110 then Some(10)
    else if c == 114 then Some(13)
    else if c == 116 then Some(9)
    else None
  }

  /** One character of a string body; a high surrogate escape takes a following low one with it. */
  function ParseChar(s: Text): (r: Rest<CodePoint>)
    ensures r.Some? ==> |r.value.1| < |s|
  {
    if s == [] || s[0] < 32 then None
    else if s[0] != BACKSLASH then Some((s[0], s[1..]))
    else if |s| >= 2 && Unescape(s[1]).Some? then Some((Unescape(s[1]).value, s[2..]))
    else
      var u := ParseUnit(s);
      if u.None? then None
      else
        var next := ParseUnit(s[6..]);
        if IsHigh(u.value) && next.Some? && IsLow(next.value) then Some((Join(u.value, next.value), s[12..]))
        else Some((u.value, s[6..]))
  }

  /** A string body up to its closing quote. */
  function ParseChars(s: Text): (r: Rest<Text>)
    ensures r.Some? ==> |r.value.1| < |s|
  {
    if s == [] then None
    else if s[0] == QUOTE then Some(([], s[1..]))
    else
      var c := ParseChar(s);
      if c.None? then None
      else
        var more := ParseChars(c.value.1);
        if more.None? then None else Some(([c.value.0] + more.value.0, more.value.1))
  }

  function ParseDigits(s: Text, sofar: nat): (r: (nat, Text))
    ensures |r.1| <= |s|
  {
    if StartsDigit(s) then ParseDigits(s[1..], sofar * 10 + (s[0] - 48)) else (sofar, s)
  }

  /** The fraction and exponent of a number, and whether there was one. */
  function ParseFraction(s: Text): (r: (bool, Text))
    ensures |r.1| <= |s|
  {
    if |s| >= 2 && s[0] == 46 && IsDigit(s[1]) then (true, ParseDigits(s[1..], 0).1) else (false, s)
  }

  function ParseExponent(s: Text): (r: (bool, Text))
    ensures |r.1| <= |s|
  {
    if s == [] || (s[0] != 101 && s[0] != 69) then (false, s)
    else
      var digits := if |s| >= 2 && (s[1] == 43 || s[1] == 45) then s[2..] else s[1..];
      if StartsDigit(digits) then (true, ParseDigits(digits, 0).1) else (false, s)
  }

  function ParseNumber(s: Text): (r: Rest<Json>)
    ensures r.Some? ==> |r.value.1| < |s|
  {
    var negative := s != [] && s[0] == MINUS;
    var body := if negative then s[1..] else s;
    if StartsWith(body, [73, 110, 102, 105, 110, 105, 116, 121]) then Some((Float, body[8..]))
    else if !StartsDigit(body) then None
    else
      var whole := if body[0] == 48 then (0, body[1..]) else ParseDigits(body[1..], body[0] - 48);
      var fraction := ParseFraction(whole.1);
      var exponent := ParseExponent(fraction.1);
      var n: int := whole.0;
      if fraction.0 || exponent.0 then Some((Float, exponent.1))
      else Some((Int(if negative then -n else n), exponent.1))
  }

  function ParseValue(s: Text): (r: Rest<Json>)
    ensures r.Some? ==> |r.value.1| < |s|
    decreases |s|, 0
  {
    if s == [] then None
    else if s[0] == QUOTE then
      var t := ParseChars(s[1..]);
      if t.None? then None else Some((Str(t.value.0), t.value.1))
    else if s[0] == OPEN_BRACKET then
      var inner := SkipWs(s[1..]);
      if inner != [] && inner[0] == CLOSE_BRACKET then Some((Arr([]), inner[1..]))
      else
        var items := ParseItems(s[1..]);
        if items.None? then None else Some((Arr(items.value.0), items.value.1))
    else if s[0] == OPEN_BRACE then
      var inner := SkipWs(s[1..]);
      if inner != [] && inner[0] == CLOSE_BRACE then Some((Obj([]), inner[1..]))
      else
        var members := ParseMembers(s[1..]);
        if members.None? then None else Some((Obj(members.value.0), members.value.1))
    else if StartsWith(s, [110, 117, 108, 108]) then Some((Null, s[4..]))
    else if StartsWith(s, [116, 114, 117, 101]) then Some((Bool(true), s[4..]))
    else if StartsWith(s, [102, 97, 108, 115, 101]) then Some((Bool(false), s[5..]))
    else if StartsWith(s, [78, 97, 78]) then Some((Float, s[3..]))
    else ParseNumber(s)
  }

  /** Items and the closing bracket; at least one item is expected. */
  function ParseItems(s: Text): (r: Rest<seq<Json>>)
    ensures r.Some? ==> |r.value.1| < |s|
    decreases |s|, 1
  {
    var v := ParseValue(SkipWs(s));
    if v.None? then None
    else
      var after := SkipWs(v.value.1);
      if after == [] then None
      else if after[0] == CLOSE_BRACKET then Some(([v.value.0], after[1..]))
      else if after[0] != COMMA then None
      else
        var more := ParseItems(after[1..]);
        if more.None? then None else Some(([v.value.0] + more.value.0, more.value.1))
  }

  /** Members and the closing brace; at least one member is expected. */
  function ParseMembers(s: Text): (r: Rest<seq<Member>>)
    ensures r.Some? ==> |r.value.1| < |s|
    decreases |s|, 1
  {
    var start := SkipWs(s);
    if start == [] || start[0] != QUOTE then None
    else
      var key := ParseChars(start[1..]);
      if key.None? then None
      else
        var colon := SkipWs(key.value.1);
        if colon == [] || colon[0] != COLON then None
        else
          var v := ParseValue(SkipWs(colon[1..]));
          if v.None? then None
          else
            var m := Member(key.value.0, v.value.0);
            var after := SkipWs(v.value.1);
            if after == [] then None
            else if after[0] == CLOSE_BRACE then Some(([m], after[1..]))
            else if after[0] != COMMA then None
            else
              var more := ParseMembers(after[1..]);
              if more.None? then None else Some(([m] + more.value.0, more.value.1))
  }

  /** `json.loads` of a decoded text. */
  function Loads(s: Text): Option<Json> {
    var v := ParseValue(SkipWs(s));
    if v.Some? && SkipWs(v.value.1) == [] then Some(v.value.0) else None
  }

  // ---- a decoded object as a Python dict: the last of two equal keys wins ----

  function Keys(members: seq<Member>): set<Text> {
    set i | 0 <= i < |members| :: members[i].key
  }

  function Lookup(members: seq<Member>, key: Text): Option<Json> {
    if members == [] then None
    else if members[|members| - 1].key == key then Some(members[|members| - 1].value)
    else Lookup(members[..|members| - 1], key)
  }

  /** Keys in strictly ascending order, all the way down: a dict as `sort_keys` prints it. */
  ghost predicate KeysSorted(v: Json)
    decreases v, 0
  {
    match v
    case Arr(items) => forall i :: 0 <= i < |items| ==> KeysSorted(items[i])
    case Obj(members) =>
      && (forall i, j :: 0 <= i < j < |members| ==> Less(members[i].key, members[j].key))
      && (forall i :: 0 <= i < |members| ==> KeysSorted(members[i].value))
    case _ => true
  }
}
