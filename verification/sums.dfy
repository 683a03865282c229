/** Sums of real numbers over a finite set of integer keys and over a
    sequence, with the facts the weighting proofs rely on. */
module Sums {

  /** A set with no member is empty. */
  lemma EmptyOrMember(s: set<int>)
    ensures s == {} || exists k :: k in s
  {
    if forall k :: k !in s {
      assert s == {};
    }
  }

  /** A fixed element of a non-empty set. */
  ghost function Pick(s: set<int>): int
    requires s != {}
  {
    EmptyOrMember(s);
    var k :| k in s; k
  }

  /** The sum of `m[k]` over the keys `k` in `s`. */
  ghost function MapSum(s: set<int>, m: map<int, real>): real
    requires s <= m.Keys
    decreases s
  {
    if s == {} then 0.0 else m[Pick(s)] + MapSum(s - {Pick(s)}, m)
  }

  /** Any key can be taken out of the sum first. */
  lemma {:induction false} MapSumRemove(s: set<int>, m: map<int, real>, y: int)
    requires s <= m.Keys && y in s
    ensures MapSum(s, m) == m[y] + MapSum(s - {y}, m)
    decreases s
  {
    var x := Pick(s);
    if x != y {
      MapSumRemove(s - {x}, m, y);
      MapSumRemove(s - {y}, m, x);
      assert s - {x} - {y} == s - {y} - {x};
    }
  }

  /** Only the entries at the keys summed over matter. */
  lemma {:induction false} MapSumAgree(s: set<int>, m: map<int, real>, n: map<int, real>)
    requires s <= m.Keys && s <= n.Keys
    requires forall k | k in s :: m[k] == n[k]
    ensures MapSum(s, m) == MapSum(s, n)
    decreases s
  {
    if s != {} {
      MapSumAgree(s - {Pick(s)}, m, n);
    }
  }

  /** A common factor comes out of the sum. */
  lemma {:induction false} MapSumScale(s: set<int>, m: map<int, real>, n: map<int, real>, c: real)
    requires s <= m.Keys && s <= n.Keys
    requires forall k | k in s :: n[k] == m[k] * c
    ensures MapSum(s, n) == MapSum(s, m) * c
    decreases s
  {
    if s != {} {
      MapSumScale(s - {Pick(s)}, m, n, c);
    }
  }

  /** A common divisor comes out of the sum. */
  lemma {:induction false} MapSumDivide(s: set<int>, m: map<int, real>, n: map<int, real>, d: real)
    requires s <= m.Keys && s <= n.Keys && d != 0.0
    requires forall k | k in s :: n[k] == m[k] / d
    ensures MapSum(s, n) == MapSum(s, m) / d
    decreases s
  {
    if s != {} {
      var p := Pick(s);
      MapSumDivide(s - {p}, m, n, d);
      DivideSum(m[p], MapSum(s - {p}, m), d);
    }
  }

  lemma DivideSum(a: real, b: real, d: real)
    requires d != 0.0
    ensures a / d + b / d == (a + b) / d
  {
  }

  /** Summing one value over every key multiplies it by their number. */
  lemma {:induction false} MapSumConst(s: set<int>, m: map<int, real>, c: real)
    requires s <= m.Keys
    requires forall k | k in s :: m[k] == c
    ensures MapSum(s, m) == (|s| as real) * c
    decreases s
  {
    if s != {} {
      MapSumConst(s - {Pick(s)}, m, c);
    }
  }

  /** Summing termwise smaller values gives a smaller sum. */
  lemma {:induction false} MapSumMonotone(s: set<int>, m: map<int, real>, n: map<int, real>)
    requires s <= m.Keys && s <= n.Keys
    requires forall k | k in s :: m[k] <= n[k]
    ensures MapSum(s, m) <= MapSum(s, n)
    decreases s
  {
    if s != {} {
      MapSumMonotone(s - {Pick(s)}, m, n);
    }
  }

  /** A sum of positive terms bounds each of them from above. */
  lemma {:induction false} MapSumMember(s: set<int>, m: map<int, real>, y: int)
    requires s <= m.Keys && y in s
    requires forall k | k in s :: m[k] > 0.0
    ensures MapSum(s, m) >= m[y]
    ensures MapSum(s - {y}, m) >= 0.0
  {
    MapSumRemove(s, m, y);
    MapSumNonNegative(s - {y}, m);
  }

  lemma {:induction false} MapSumNonNegative(s: set<int>, m: map<int, real>)
    requires s <= m.Keys
    requires forall k | k in s :: m[k] > 0.0
    ensures MapSum(s, m) >= 0.0
    ensures s != {} ==> MapSum(s, m) > 0.0
    decreases s
  {
    if s != {} {
      MapSumNonNegative(s - {Pick(s)}, m);
    }
  }

  /** The sum of a sequence, from the front. */
  function SeqSum(xs: seq<real>): real {
    if xs == [] then 0.0 else xs[0] + SeqSum(xs[1..])
  }

  /** Adding at the back extends the sum. */
  lemma {:induction false} SeqSumSnoc(xs: seq<real>, x: real)
    ensures SeqSum(xs + [x]) == SeqSum(xs) + x
  {
    if xs != [] {
      assert (xs + [x])[1..] == xs[1..] + [x];
      SeqSumSnoc(xs[1..], x);
    }
  }

  /** Values between `lo` and `hi` sum to between `|xs|` times each. */
  lemma {:induction false} SeqSumBounds(xs: seq<real>, lo: real, hi: real)
    requires forall i | 0 <= i < |xs| :: lo <= xs[i] <= hi
    ensures (|xs| as real) * lo <= SeqSum(xs) <= (|xs| as real) * hi
  {
    if xs != [] {
      SeqSumBounds(xs[1..], lo, hi);
    }
  }

  /** A sequence of equal values sums to their number times the value. */
  lemma {:induction false} SeqSumConst(xs: seq<real>, c: real)
    requires forall i | 0 <= i < |xs| :: xs[i] == c
    ensures SeqSum(xs) == (|xs| as real) * c
  {
    if xs != [] {
      SeqSumConst(xs[1..], c);
    }
  }
}
