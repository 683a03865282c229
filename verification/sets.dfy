/** Cardinality facts about finite sets that the proofs rely on. */
module Sets {

  /** A subset is no larger than its superset. */
  lemma {:induction false} SubsetCard<T>(a: set<T>, b: set<T>)
    requires a <= b
    ensures |a| <= |b|
    decreases a
  {
    if a != {} {
      var x :| x in a;
      SubsetCard(a - {x}, b - {x});
    }
  }

  /** A set holding three distinct elements has at least three. */
  lemma TripleCard<T>(a: T, b: T, c: T, s: set<T>)
    requires a != b && b != c && a != c
    requires a in s && b in s && c in s
    ensures |s| >= 3
  {
    assert |{a, b, c}| == 3;
    SubsetCard({a, b, c}, s);
  }

  /** A union is no larger than its two parts together. */
  lemma UnionCard<T>(a: set<T>, b: set<T>)
    ensures |a + b| <= |a| + |b|
  {
  }

  /** A subset of one element and two sets of bounded size is bounded. */
  lemma WithinPointAndTwo<T>(g: set<T>, x: T, a: set<T>, b: set<T>, m: int, n: int)
    requires g <= {x} + a + b && |a| <= m && |b| <= n
    ensures |g| <= 1 + m + n
  {
    SubsetCard(g, {x} + a + b);
    UnionCard({x}, a);
    UnionCard({x} + a, b);
  }

  /** A set made of one element and another set is at most one larger. */
  lemma AddOneCard<T>(x: T, a: set<T>, c: set<T>)
    requires c == {x} + a
    ensures |c| <= |a| + 1
  {
    UnionCard({x}, a);
  }

  /** Two pairs of sets joined to one element, in either order. */
  lemma SwapPairs<T>(x: T, a: set<T>, b: set<T>, c: set<T>, d: set<T>)
    ensures {x} + a + b + c + d == {x} + c + d + a + b
  {
  }

  /** An image of a set is no larger than the set. */
  lemma {:induction false} ImageCard<T, U>(s: set<T>, f: T -> U)
    ensures |set x | x in s :: f(x)| <= |s|
    decreases s
  {
    if s != {} {
      var x :| x in s;
      ImageCard(s - {x}, f);
      assert (set y | y in s :: f(y)) == (set y | y in s - {x} :: f(y)) + {f(x)};
    }
  }

  /** Taking one element out of the part of `all` still to visit moves it to
      the visited part. */
  lemma MoveOne<T>(all: set<T>, rest: set<T>, x: T)
    requires rest <= all && x in rest
    ensures rest - {x} <= all
    ensures (all - rest) + {x} == all - (rest - {x})
  {
  }

  /** Two sets with nothing in common have as many elements together as
      apart. */
  lemma DisjointUnionCard<T>(a: set<T>, b: set<T>)
    requires a * b == {}
    ensures |a + b| == |a| + |b|
  {
  }
}
