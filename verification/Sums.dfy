/** Sums over finite sets. A Go map is ranged over in arbitrary order; a sum over
    the set of its keys or values is what every such order computes. */
module Sums {
  ghost function SetSum<T(!new)>(s: set<T>, f: T -> int): int
  {
    if s == {} then 0
    else var x :| x in s; f(x) + SetSum(s - {x}, f)
  }

  /** The sum does not depend on which element is taken out first. */
  lemma {:induction false} SumInsert<T(!new)>(s: set<T>, x: T, f: T -> int)
    requires x !in s
    ensures SetSum(s + {x}, f) == f(x) + SetSum(s, f)
    decreases |s|
  {
    var t := s + {x};
    var y :| y in t && SetSum(t, f) == f(y) + SetSum(t - {y}, f);
    if y == x {
      assert t - {x} == s;
    } else {
      var u := s - {y};
      assert t - {y} == u + {x} && s == u + {y};
      SumInsert(u, x, f);
      SumInsert(u, y, f);
    }
  }

  lemma {:induction false} SumRemove<T(!new)>(s: set<T>, x: T, f: T -> int)
    requires x in s
    ensures SetSum(s, f) == f(x) + SetSum(s - {x}, f)
  {
    assert s - {x} + {x} == s;
    SumInsert(s - {x}, x, f);
  }

  lemma {:induction false} SumCongruence<T(!new)>(s: set<T>, f: T -> int, g: T -> int)
    requires forall x :: x in s ==> f(x) == g(x)
    ensures SetSum(s, f) == SetSum(s, g)
  {
    if s != {} {
      var x :| x in s;
      SumRemove(s, x, f);
      SumRemove(s, x, g);
      SumCongruence(s - {x}, f, g);
    }
  }

  /** Terms outside a subset contribute their own sum. */
  lemma {:induction false} SumUnion<T(!new)>(s: set<T>, t: set<T>, f: T -> int)
    requires s !! t
    ensures SetSum(s + t, f) == SetSum(s, f) + SetSum(t, f)
  {
    if t == {} {
      assert s + t == s;
    } else {
      var x :| x in t;
      assert s + t == (s + (t - {x})) + {x};
      SumInsert(s + (t - {x}), x, f);
      SumRemove(t, x, f);
      SumUnion(s, t - {x}, f);
    }
  }

  lemma {:induction false} SumAdds<T(!new)>(s: set<T>, f: T -> int, g: T -> int, h: T -> int)
    requires forall x :: x in s ==> h(x) == f(x) + g(x)
    ensures SetSum(s, h) == SetSum(s, f) + SetSum(s, g)
  {
    if s != {} {
      var x :| x in s;
      SumRemove(s, x, f);
      SumRemove(s, x, g);
      SumRemove(s, x, h);
      SumAdds(s - {x}, f, g, h);
    }
  }

  lemma {:induction false} SumZero<T(!new)>(s: set<T>, f: T -> int)
    requires forall x :: x in s ==> f(x) == 0
    ensures SetSum(s, f) == 0
  {
    if s != {} {
      var x :| x in s;
      SumRemove(s, x, f);
      SumZero(s - {x}, f);
    }
  }

  lemma {:induction false} SumAtMost<T(!new)>(s: set<T>, f: T -> int, hi: int)
    requires forall x :: x in s ==> f(x) <= hi
    ensures SetSum(s, f) <= |s| * hi
  {
    if s != {} {
      var x :| x in s;
      SumRemove(s, x, f);
      SumAtMost(s - {x}, f, hi);
      OneMore(|s - {x}|, hi);
    }
  }

  lemma OneMore(n: int, k: int)
    ensures (n + 1) * k == n * k + k
  {
  }

  lemma {:induction false} SumMonotone<T(!new)>(s: set<T>, f: T -> int, g: T -> int)
    requires forall x :: x in s ==> f(x) <= g(x)
    ensures SetSum(s, f) <= SetSum(s, g)
  {
    if s != {} {
      var x :| x in s;
      SumRemove(s, x, f);
      SumRemove(s, x, g);
      SumMonotone(s - {x}, f, g);
    }
  }

  /** Summing over the image of an injection. */
  lemma {:induction false} SumImage<T(!new), U(!new)>(s: set<T>, t: set<U>, g: T -> U, f: U -> int, h: T -> int)
    requires t == set x | x in s :: g(x)
    requires forall x, y :: x in s && y in s && g(x) == g(y) ==> x == y
    requires forall x :: x in s ==> h(x) == f(g(x))
    ensures SetSum(t, f) == SetSum(s, h)
  {
    if s != {} {
      var x :| x in s;
      var rest := set y | y in s - {x} :: g(y);
      SumImage(s - {x}, rest, g, f, h);
      assert t == rest + {g(x)};
      SumInsert(rest, g(x), f);
      SumRemove(s, x, h);
    }
  }
}
