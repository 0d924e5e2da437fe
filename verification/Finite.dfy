/** Small facts about finite sets and sequences that several modules need. */
module Finite {

  /** xs[:n] */
  function First<T>(xs: seq<T>, n: nat): (r: seq<T>)
    ensures r <= xs && |r| == if n < |xs| then n else |xs|
  {
    if |xs| <= n then xs else xs[..n]
  }

  lemma SubsetSize<T>(a: set<T>, b: set<T>)
    requires a <= b
    ensures |a| <= |b|
  {
    if a != {} {
      var x :| x in a;
      SubsetSize(a - {x}, b - {x});
    }
  }

  /** A number above all of s: there is always a fresh token and a fresh caller. */
  ghost function FreshNat(s: set<nat>): (n: nat)
    ensures forall x :: x in s ==> x < n
  {
    if s == {} then 0
    else
      var x :| x in s;
      var n := FreshNat(s - {x});
      assert forall y :: y in s ==> y == x || y in s - {x};
      if x < n then n else x + 1
  }
}
