/**
 Jaccard similarity of token sets, as computed twice in the code base: `compat.jaccard_similarity`
 calls two empty sets equal, the consolidation and dream engines call them unrelated.
 */
module Jaccard {
  import opened Finite

  /** compat: 1.0 for two empty sets. */
  function Similarity<T>(a: set<T>, b: set<T>): real {
    if a == {} && b == {} then 1.0 else |a * b| as real / Size(a, b) as real
  }

  /** consolidation and dream engine: 0.0 as soon as one set is empty. */
  function StrictSimilarity<T>(a: set<T>, b: set<T>): real {
    if a == {} || b == {} then 0.0 else |a * b| as real / Size(a, b) as real
  }

  /** The size of the union, which is positive unless both sets are empty. */
  function Size<T>(a: set<T>, b: set<T>): (n: nat)
    ensures a != {} || b != {} ==> n > 0
  {
    assert a != {} ==> a + b != {};
    assert b != {} ==> a + b != {};
    |a + b|
  }

  /** compat.jaccard_similarity, which walks the smaller set. */
  method ComputeSimilarity<T(==)>(a: set<T>, b: set<T>) returns (r: real)
    ensures r == Similarity(a, b)
  {
    if a == {} && b == {} {
      return 1.0;
    }
    UnionSize(a, b);
    if a == {} || b == {} {
      assert a * b == {};
      return 0.0;
    }
    var smaller, larger := if |a| <= |b| then a else b, if |a| <= |b| then b else a;
    assert smaller * larger == a * b;
    var shared := CountShared(smaller, larger);
    r := shared as real / (|a| + |b| - shared) as real;
  }

  method CountShared<T(==)>(smaller: set<T>, larger: set<T>) returns (shared: nat)
    ensures shared == |smaller * larger|
  {
    var rest := smaller;
    shared := 0;
    while rest != {}
      invariant rest <= smaller && shared == |(smaller - rest) * larger|
      decreases rest
    {
      var token :| token in rest;
      ghost var seen := smaller - rest;
      assert smaller - (rest - {token}) == seen + {token};
      if token in larger {
        shared := shared + 1;
        assert (seen + {token}) * larger == seen * larger + {token};
      } else {
        assert (seen + {token}) * larger == seen * larger;
      }
      rest := rest - {token};
    }
    assert smaller - rest == smaller;
  }

  lemma UnionSize<T>(a: set<T>, b: set<T>)
    ensures |a + b| == |a| + |b| - |a * b|
  {
  }

  // ----- distance -----

  function Distance<T>(a: set<T>, b: set<T>): real {
    1.0 - Similarity(a, b)
  }

  /** |a - b| + |b - a| */
  function Difference<T>(a: set<T>, b: set<T>): nat {
    |a - b| + |b - a|
  }

  lemma Sizes<T>(a: set<T>, b: set<T>)
    ensures |a - b| == |a| - |a * b|
    ensures |b - a| == |b| - |a * b|
    ensures 2 * |a + b| == |a| + |b| + Difference(a, b)
    ensures |a * b| == |a + b| - Difference(a, b)
  {
    assert a == (a - b) + (a * b);
    assert b == (b - a) + (a * b);
    UnionSize(a, b);
  }

  lemma DivUnique(p: real, q: real, x: real)
    requires q != 0.0 && x * q == p
    ensures p / q == x
  {
  }

  lemma DoubleShare(u: real, d: real)
    requires 0.0 < u
    ensures 1.0 - (u - d) / u == 2.0 * d / (2.0 * u)
  {
    var x := d / u;
    assert x * u == d;
    assert (1.0 - x) * u == u - d;
    DivUnique(u - d, u, 1.0 - x);
    assert x * (2.0 * u) == 2.0 * d;
    DivUnique(2.0 * d, 2.0 * u, x);
  }

  /** The distance is the share of the symmetric difference in the union. */
  lemma DistanceIsDifference<T>(a: set<T>, b: set<T>)
    requires a != {} || b != {}
    ensures |a| + |b| + Difference(a, b) > 0
    ensures Distance(a, b) == 2.0 * Difference(a, b) as real / (|a| + |b| + Difference(a, b)) as real
  {
    Sizes(a, b);
    DoubleShare(Size(a, b) as real, Difference(a, b) as real);
  }

  lemma DifferenceTriangle<T>(a: set<T>, b: set<T>, c: set<T>)
    ensures Difference(a, c) <= Difference(a, b) + Difference(b, c)
  {
    SubsetSize(a - c, (a - b) + (b - c));
    SubsetSize(c - a, (c - b) + (b - a));
    UnionSize(a - b, b - c);
    UnionSize(c - b, b - a);
  }

  lemma SizeByDifference<T>(b: set<T>, c: set<T>)
    ensures |b| <= |c| + Difference(b, c)
  {
    SubsetSize(b, c + (b - c));
    UnionSize(c, b - c);
  }

  // ----- the triangle inequality -----

  /** t / (k + t) grows with t. */
  lemma ShareMonotone(k: real, s: real, t: real)
    requires 0.0 <= k && 0.0 <= s <= t && 0.0 < k + s
    ensures s / (k + s) <= t / (k + t)
  {
    assert s * (k + t) <= t * (k + s);
    CrossMultiply(s, k + s, t, k + t);
  }

  lemma CrossMultiply(p: real, q: real, r: real, s: real)
    requires 0.0 < q && 0.0 < s && p * s <= r * q
    ensures p / q <= r / s
  {
    var x, y := p / q, r / s;
    assert x * q == p && y * s == r;
    assert x * (q * s) == p * s && y * (q * s) == r * q;
    CancelFactor(x, y, q * s);
  }

  lemma CancelFactor(x: real, y: real, k: real)
    requires 0.0 < k && x * k <= y * k
    ensures x <= y
  {
  }

  /** A larger denominator makes a smaller share. */
  lemma ShareShrinks(t: real, m: real, n: real)
    requires 0.0 <= t && 0.0 < m <= n
    ensures t / n <= t / m
  {
    CrossMultiply(t, n, t, m);
  }

  lemma SplitShare(x: real, y: real, n: real)
    requires 0.0 < n
    ensures (x + y) / n == x / n + y / n
  {
  }

  /** With sizes a, b, c and symmetric differences x, y, z of the pairs ab, bc, ac. */
  lemma ShareTriangle(a: real, b: real, c: real, x: real, y: real, z: real)
    requires 0.0 <= a && 0.0 <= b && 0.0 <= c && 0.0 <= x && 0.0 <= y && 0.0 <= z
    requires 0.0 < a + c + z && 0.0 < a + b + x && 0.0 < b + c + y
    requires z <= x + y && b <= c + y && b <= a + x
    ensures 2.0 * z / (a + c + z) <= 2.0 * x / (a + b + x) + 2.0 * y / (b + c + y)
  {
    var n := a + c + x + y;
    ShareMonotone(a + c, z, x + y);
    SplitShare(x, y, n);
    ShareShrinks(x, a + b + x, n);
    ShareShrinks(y, b + c + y, n);
    Double(z, a + c + z);
    Double(x, a + b + x);
    Double(y, b + c + y);
  }

  lemma Double(t: real, n: real)
    requires 0.0 < n
    ensures 2.0 * t / n == 2.0 * (t / n)
  {
  }

  /** Jaccard distance satisfies the triangle inequality on all finite sets. */
  lemma Triangle<T>(a: set<T>, b: set<T>, c: set<T>)
    ensures Distance(a, c) <= Distance(a, b) + Distance(b, c)
  {
    Range(a, b);
    Range(b, c);
    Range(a, c);
    if a == {} && c == {} {
    } else if a == {} && b == {} {
    } else if b == {} && c == {} {
    } else {
      DistanceIsDifference(a, b);
      DistanceIsDifference(b, c);
      DistanceIsDifference(a, c);
      DifferenceTriangle(a, b, c);
      SizeByDifference(b, c);
      SizeByDifference(b, a);
      ShareTriangle(|a| as real, |b| as real, |c| as real,
                    Difference(a, b) as real, Difference(b, c) as real, Difference(a, c) as real);
    }
  }

  lemma UnitShare(p: real, q: real)
    requires 0.0 <= p <= q && 0.0 < q
    ensures 0.0 <= p / q <= 1.0
    ensures p / q == 1.0 <==> p == q
  {
    CrossMultiply(0.0, 1.0, p, q);
    CrossMultiply(p, q, 1.0, 1.0);
    if p == q {
      DivUnique(p, q, 1.0);
    }
  }

  lemma FullOverlap<T>(a: set<T>, b: set<T>)
    ensures |a * b| == |a + b| <==> a == b
  {
    assert a + b == (a * b) + ((a + b) - (a * b));
    if |a * b| == |a + b| {
      assert (a + b) - (a * b) == {};
      assert forall x :: x in a + b ==> x in a * b;
      assert a == b;
    }
  }

  /** Similarity is symmetric, in [0, 1], and 1 exactly on equal sets. */
  lemma Range<T>(a: set<T>, b: set<T>)
    ensures 0.0 <= Similarity(a, b) <= 1.0
    ensures Similarity(a, b) == Similarity(b, a)
    ensures Similarity(a, b) == 1.0 <==> a == b
  {
    assert a * b == b * a && a + b == b + a;
    if a != {} || b != {} {
      SubsetSize(a * b, a + b);
      FullOverlap(a, b);
      UnitShare(|a * b| as real, Size(a, b) as real);
    }
  }

  /** The two variants agree except on two empty sets. */
  lemma VariantsAgreeIff<T>(a: set<T>, b: set<T>)
    ensures StrictSimilarity(a, b) == Similarity(a, b) <==> a != {} || b != {}
  {
    if (a == {}) != (b == {}) {
      assert a * b == {};
    }
  }

  /** The strict variant keeps symmetry, range and the triangle inequality of its distance; it is 1
      exactly on equal sets that are not empty. */
  lemma StrictTriangle<T>(a: set<T>, b: set<T>, c: set<T>)
    ensures 1.0 - StrictSimilarity(a, c) <= (1.0 - StrictSimilarity(a, b)) + (1.0 - StrictSimilarity(b, c))
    ensures 0.0 <= StrictSimilarity(a, b) <= 1.0
    ensures StrictSimilarity(a, b) == StrictSimilarity(b, a)
    ensures StrictSimilarity(a, b) == 1.0 <==> a == b != {}
  {
    Range(a, b);
    Range(b, c);
    Range(a, c);
    VariantsAgreeIff(a, b);
    VariantsAgreeIff(b, c);
    VariantsAgreeIff(a, c);
    Triangle(a, b, c);
  }

  // ----- thresholds -----

  /** The sets have elements, and of all these at least the share t in common. */
  ghost predicate Shares<T>(t: real, a: set<T>, b: set<T>) {
    a != {} && b != {} && |a * b| as real >= t * |a + b| as real
  }

  lemma QuotientAtLeast(p: real, q: real, t: real)
    requires q > 0.0
    ensures p / q >= t <==> p >= t * q
  {
    var x := p / q;
    assert x * q == p;
    if x >= t {
      assert x * q >= t * q;
    } else {
      assert x * q < t * q;
    }
  }

  /** For a positive threshold, being similar enough is sharing that much; below that, everything is. */
  lemma SimilarEnoughIff<T>(t: real, a: set<T>, b: set<T>)
    ensures StrictSimilarity(a, b) >= t <==> t <= 0.0 || Shares(t, a, b)
  {
    StrictTriangle(a, b, a);
    if a != {} && b != {} {
      QuotientAtLeast(|a * b| as real, Size(a, b) as real, t);
    }
  }
}
