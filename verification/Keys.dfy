/** Typed field values of a generated record and the C++ `operator<` that the
    ordered primitives compare them with. */
module Keys {
  import Text

  datatype FieldType = IntType | RealType | BoolType | TextType

  datatype Value = IntV(i: int) | RealV(r: real) | BoolV(b: bool) | TextV(s: Text.Text)

  predicate HasType(v: Value, t: FieldType) {
    match v
    case IntV(_) => t == IntType
    case RealV(_) => t == RealType
    case BoolV(_) => t == BoolType
    case TextV(_) => t == TextType
  }

  /** `operator<` within one type; strings compare lexicographically, a proper prefix first. A column holds one type only; across types the
      order is that of the constructors, so that it is total. */
  predicate Less(a: Value, b: Value) {
    match (a, b)
    case (IntV(x), IntV(y)) => x < y
    case (RealV(x), RealV(y)) => x < y
    case (BoolV(x), BoolV(y)) => !x && y
    case (TextV(x), TextV(y)) => Text.Less(x, y)
    case _ => Rank(a) < Rank(b)
  }

  function Rank(v: Value): nat {
    match v
    case IntV(_) => 0
    case RealV(_) => 1
    case BoolV(_) => 2
    case TextV(_) => 3
  }

  /** `Less` is a strict total order: what `std::lower_bound` asks of it. */
  lemma LessTrichotomy(a: Value, b: Value)
    ensures Less(a, b) || Less(b, a) || a == b
    ensures !(Less(a, b) && Less(b, a))
    ensures !Less(a, a)
  {
    if a.TextV? && b.TextV? {
      Text.LessTrichotomy(a.s, b.s);
    }
    if a.TextV? {
      Text.LessTrichotomy(a.s, a.s);
    }
  }

  /** What it means within each type. */
  lemma LessWithinType(a: Value, b: Value)
    ensures a.IntV? && b.IntV? ==> (Less(a, b) <==> a.i < b.i)
    ensures a.RealV? && b.RealV? ==> (Less(a, b) <==> a.r < b.r)
    ensures a.BoolV? && b.BoolV? ==> (Less(a, b) <==> !a.b && b.b)
    ensures a.TextV? && b.TextV? ==> (Less(a, b) <==> exists k: nat :: Text.SplitsAt(a.s, b.s, k))
  {
    if a.TextV? && b.TextV? {
      Text.LessIff(a.s, b.s);
    }
  }

  lemma LessTransitive(a: Value, b: Value, c: Value)
    requires Less(a, b) && Less(b, c)
    ensures Less(a, c)
  {
    if a.TextV? && b.TextV? && c.TextV? {
      Text.LessTransitive(a.s, b.s, c.s);
    }
  }

  /** A composite key `std::pair<key_type, std::size_t>`. */
  datatype Composite = Composite(key: Value, slot: nat)

  /** `operator<` of `std::pair`. */
  predicate CompositeLess(a: Composite, b: Composite) {
    Less(a.key, b.key) || (!Less(b.key, a.key) && a.slot < b.slot)
  }

  lemma CompositeTrichotomy(a: Composite, b: Composite)
    ensures CompositeLess(a, b) || CompositeLess(b, a) || a == b
    ensures !(CompositeLess(a, b) && CompositeLess(b, a))
    ensures !CompositeLess(a, a)
  {
    LessTrichotomy(a.key, b.key);
    LessTrichotomy(a.key, a.key);
  }

  lemma CompositeTransitive(a: Composite, b: Composite, c: Composite)
    requires CompositeLess(a, b) && CompositeLess(b, c)
    ensures CompositeLess(a, c)
  {
    LessTrichotomy(a.key, b.key);
    LessTrichotomy(b.key, c.key);
    LessTrichotomy(a.key, c.key);
    if Less(a.key, b.key) && Less(b.key, c.key) {
      LessTransitive(a.key, b.key, c.key);
    }
  }
}
