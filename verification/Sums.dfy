/** Sums over finite sets of keys, independent of the order they are taken in. */
module Sums {
  type Weight<!K> = K -> real

  ghost function SumOver<K>(f: Weight<K>, s: set<K>): real
    decreases |s|
  {
    if s == {} then 0.0
    else
      var x :| x in s;
      f(x) + SumOver(f, s - {x})
  }

  /** Any element can be taken out first. */
  lemma {:induction false} SumRemove<K>(f: Weight<K>, s: set<K>, y: K)
    requires y in s
    ensures SumOver(f, s) == f(y) + SumOver(f, s - {y})
    decreases |s|
  {
    var x :| x in s && SumOver(f, s) == f(x) + SumOver(f, s - {x});
    if x != y {
      SumRemove(f, s - {x}, y);
      SumRemove(f, s - {y}, x);
      assert s - {x} - {y} == s - {y} - {x};
    }
  }

  lemma {:induction false} SumSame<K>(f: Weight<K>, g: Weight<K>, s: set<K>)
    requires forall x :: x in s ==> f(x) == g(x)
    ensures SumOver(f, s) == SumOver(g, s)
    decreases |s|
  {
    if s != {} {
      var x :| x in s;
      SumRemove(f, s, x);
      SumRemove(g, s, x);
      SumSame(f, g, s - {x});
    }
  }

  lemma {:induction false} SumAdds<K>(f: Weight<K>, g: Weight<K>, h: Weight<K>, s: set<K>)
    requires forall x :: x in s ==> h(x) == f(x) + g(x)
    ensures SumOver(h, s) == SumOver(f, s) + SumOver(g, s)
    decreases |s|
  {
    if s != {} {
      var x :| x in s;
      SumRemove(f, s, x);
      SumRemove(g, s, x);
      SumRemove(h, s, x);
      SumAdds(f, g, h, s - {x});
    }
  }

  ghost predicate SplitsAt(h: real -> real, x: real, y: real) {
    h(x + y) == h(x) + h(y)
  }

  ghost predicate Additive(h: real -> real) {
    h(0.0) == 0.0 && forall x, y :: SplitsAt(h, x, y)
  }

  /** An additive function can be applied before or after summing. */
  lemma {:induction false} SumMaps<K>(f: Weight<K>, g: Weight<K>, h: real -> real, s: set<K>)
    requires Additive(h)
    requires forall x :: x in s ==> g(x) == h(f(x))
    ensures SumOver(g, s) == h(SumOver(f, s))
    decreases |s|
  {
    if s != {} {
      var x :| x in s;
      SumRemove(f, s, x);
      SumRemove(g, s, x);
      SumMaps(f, g, h, s - {x});
      assert SplitsAt(h, f(x), SumOver(f, s - {x}));
    }
  }

  lemma {:induction false} SumMonotone<K>(f: Weight<K>, g: Weight<K>, s: set<K>)
    requires forall x :: x in s ==> f(x) <= g(x)
    ensures SumOver(f, s) <= SumOver(g, s)
    decreases |s|
  {
    if s != {} {
      var x :| x in s;
      SumRemove(f, s, x);
      SumRemove(g, s, x);
      SumMonotone(f, g, s - {x});
    }
  }

  /** Keys of weight zero can be left out. */
  lemma {:induction false} SumExtends<K>(f: Weight<K>, s: set<K>, t: set<K>)
    requires s <= t && forall x :: x in t - s ==> f(x) == 0.0
    ensures SumOver(f, s) == SumOver(f, t)
    decreases |t|
  {
    if exists x :: x in t && x !in s {
      var x :| x in t && x !in s;
      SumRemove(f, t, x);
      SumExtends(f, s, t - {x});
    } else {
      assert s == t;
    }
  }

  /** A sum of non-negative weights is zero only if every weight is. */
  lemma {:induction false} SumZeroIff<K>(f: Weight<K>, s: set<K>)
    requires forall x :: x in s ==> f(x) >= 0.0
    ensures SumOver(f, s) >= 0.0
    ensures SumOver(f, s) == 0.0 <==> forall x :: x in s ==> f(x) == 0.0
    decreases |s|
  {
    if s != {} {
      var x :| x in s;
      SumRemove(f, s, x);
      SumZeroIff(f, s - {x});
    }
  }
}
