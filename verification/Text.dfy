/** Strings as Python and SQLite compare them: by code point, first difference decides. */
module Text {

  predicate Less(a: string, b: string) {
    if b == "" then false
    else if a == "" then true
    else a[0] < b[0] || (a[0] == b[0] && Less(a[1..], b[1..]))
  }

  predicate AtMost(a: string, b: string) {
    a == b || Less(a, b)
  }

  lemma Trichotomy(a: string, b: string)
    ensures a == b || Less(a, b) || Less(b, a)
    ensures !(Less(a, b) && Less(b, a))
    ensures Less(a, b) ==> a != b
  {
    if a != "" && b != "" {
      Trichotomy(a[1..], b[1..]);
      if a[0] == b[0] && a[1..] == b[1..] {
        assert a == [a[0]] + a[1..];
        assert b == [b[0]] + b[1..];
      }
    }
  }

  lemma Transitive(a: string, b: string, c: string)
    requires Less(a, b) && Less(b, c)
    ensures Less(a, c)
  {
    if a != "" && b != "" && c != "" && a[0] == b[0] == c[0] {
      Transitive(a[1..], b[1..], c[1..]);
    }
  }

  /** A shared prefix does not matter. */
  lemma SharedPrefix(p: string, a: string, b: string)
    ensures Less(p + a, p + b) <==> Less(a, b)
  {
    if p == "" {
      assert p + a == a && p + b == b;
    } else {
      assert (p + a)[1..] == p[1..] + a;
      assert (p + b)[1..] == p[1..] + b;
      SharedPrefix(p[1..], a, b);
    }
  }

  /** Two different prefixes of one length decide the comparison alone. */
  lemma PrefixDecides(p: string, q: string, a: string, b: string)
    requires |p| == |q| && p != q
    ensures Less(p + a, q + b) <==> Less(p, q)
  {
    assert (p + a)[1..] == p[1..] + a;
    assert (q + b)[1..] == q[1..] + b;
    assert p == [p[0]] + p[1..] && q == [q[0]] + q[1..];
    if p[0] == q[0] {
      PrefixDecides(p[1..], q[1..], a, b);
    }
  }

  /** s[:n] */
  function Take(s: string, n: nat): (r: string)
    ensures r <= s && |r| == if n < |s| then n else |s|
  {
    if |s| <= n then s else s[..n]
  }

  /** Truncation keeps the order (though it may identify strings). */
  lemma TakeMonotone(a: string, b: string, n: nat)
    requires AtMost(a, b)
    ensures AtMost(Take(a, n), Take(b, n))
  {
    if n != 0 && a != "" && b != "" && a != b {
      var x, y := Take(a, n), Take(b, n);
      assert x[1..] == Take(a[1..], n - 1);
      assert y[1..] == Take(b[1..], n - 1);
      if a[0] == b[0] {
        TakeMonotone(a[1..], b[1..], n - 1);
        assert x == [x[0]] + x[1..];
        assert y == [y[0]] + y[1..];
      }
    }
  }

  // ----- sorted(set) -----

  ghost predicate Ascending(xs: seq<string>) {
    forall i, j :: 0 <= i < j < |xs| ==> Less(xs[i], xs[j])
  }

  function Elements<T>(xs: seq<T>): set<T> {
    set x | x in xs
  }

  ghost predicate Unrepeated<T>(xs: seq<T>) {
    forall i, j :: 0 <= i < j < |xs| ==> xs[i] != xs[j]
  }

  lemma UnrepeatedSnoc<T>(xs: seq<T>, x: T)
    ensures Unrepeated(xs + [x]) <==> Unrepeated(xs) && x !in Elements(xs)
  {
    var ys := xs + [x];
    if Unrepeated(ys) {
      assert forall i :: 0 <= i < |xs| ==> xs[i] == ys[i] && ys[i] != ys[|xs|];
      assert forall i, j :: 0 <= i < j < |xs| ==> ys[i] != ys[j];
    }
  }

  lemma ElementsSnoc<T>(xs: seq<T>, x: T)
    ensures Elements(xs + [x]) == Elements(xs) + {x}
  {
  }

  predicate IsLeast(m: string, s: set<string>) {
    m in s && forall x :: x in s && x != m ==> Less(m, x)
  }

  lemma LeastExists(s: set<string>)
    requires s != {}
    ensures exists m :: IsLeast(m, s)
  {
    var x :| x in s;
    if s == {x} {
      assert IsLeast(x, s);
    } else {
      var rest := s - {x};
      assert s == rest + {x};
      LeastExists(rest);
      var m :| IsLeast(m, rest);
      Trichotomy(m, x);
      if Less(m, x) {
        assert IsLeast(m, s);
      } else {
        forall y | y in s && y != x ensures Less(x, y) {
          if y != m { Transitive(x, m, y); }
        }
        assert IsLeast(x, s);
      }
    }
  }

  lemma LeastUnique(m: string, n: string, s: set<string>)
    requires IsLeast(m, s) && IsLeast(n, s)
    ensures m == n
  {
    Trichotomy(m, n);
  }

  function Least(s: set<string>): (m: string)
    requires s != {}
    ensures IsLeast(m, s)
  {
    LeastExists(s);
    assert forall m, n :: IsLeast(m, s) && IsLeast(n, s) ==> m == n by {
      forall m, n | IsLeast(m, s) && IsLeast(n, s) ensures m == n {
        LeastUnique(m, n, s);
      }
    }
    var m :| m in s && IsLeast(m, s);
    m
  }

  /** Python's sorted() of a set of strings. */
  function Sorted(s: set<string>): (xs: seq<string>)
    ensures Elements(xs) == s
    ensures |xs| == |s|
    ensures Ascending(xs)
  {
    if s == {} then []
    else
      var m := Least(s);
      var rest := Sorted(s - {m});
      LeastFirst(m, rest, s);
      [m] + rest
  }

  /** xs is the ascending listing of s; AscendingUnique says there is only one. */
  ghost predicate IsListing(xs: seq<string>, s: set<string>) {
    Elements(xs) == s && Ascending(xs)
  }

  method SortSet(s: set<string>) returns (xs: seq<string>)
    ensures IsListing(xs, s)
    ensures Elements(xs) == s
    ensures |xs| == |s|
  {
    xs := Sorted(s);
  }

  lemma LeastFirst(m: string, rest: seq<string>, s: set<string>)
    requires IsLeast(m, s) && Elements(rest) == s - {m} && Ascending(rest)
    ensures Elements([m] + rest) == s
    ensures Ascending([m] + rest)
  {
    forall x ensures x in Elements([m] + rest) <==> x in s {
      assert x in [m] + rest <==> x == m || x in rest;
      assert x in rest <==> x in Elements(rest);
    }
    forall i, j | 0 <= i < j < |[m] + rest| ensures Less(([m] + rest)[i], ([m] + rest)[j]) {
      assert rest[j - 1] in Elements(rest);
    }
  }

  /** One set has one ascending listing. */
  lemma AscendingUnique(xs: seq<string>, ys: seq<string>)
    requires Ascending(xs) && Ascending(ys) && Elements(xs) == Elements(ys)
    ensures xs == ys
  {
    assert xs != [] ==> xs[0] in Elements(xs);
    assert ys != [] ==> ys[0] in Elements(ys);
    if xs != [] {
      assert ys != [];
      assert xs[0] == ys[0] by {
        var i :| 0 <= i < |ys| && ys[i] == xs[0];
        var j :| 0 <= j < |xs| && xs[j] == ys[0];
        Trichotomy(xs[0], ys[0]);
      }
      forall x ensures x in Elements(xs[1..]) <==> x in Elements(ys[1..]) {
        TailElements(xs, x);
        TailElements(ys, x);
      }
      AscendingUnique(xs[1..], ys[1..]);
      assert xs == [xs[0]] + xs[1..];
      assert ys == [ys[0]] + ys[1..];
    }
  }

  lemma TailElements(xs: seq<string>, x: string)
    requires Ascending(xs) && xs != []
    ensures x in Elements(xs[1..]) <==> x in Elements(xs) && x != xs[0]
  {
    if x in xs[1..] {
      var i :| 0 <= i < |xs[1..]| && xs[1..][i] == x;
      assert xs[i + 1] == x;
      Trichotomy(xs[0], x);
    }
    if x in xs && x != xs[0] {
      var i :| 0 <= i < |xs| && xs[i] == x;
      assert xs[1..][i - 1] == x;
    }
  }

  // ----- decimal numerals -----

  function Digit(d: nat): char
    requires d < 10
  {
    ['0', '1', '2', '3', '4', '5', '6', '7', '8', '9'][d]
  }

  /** str(n) for n >= 0. */
  function Decimal(n: nat): (s: string)
    ensures s != "" && forall i :: 0 <= i < |s| ==> '0' <= s[i] <= '9'
  {
    if n < 10 then [Digit(n)] else Decimal(n / 10) + [Digit(n % 10)]
  }

  function DigitsValue(s: string): nat
    requires forall i :: 0 <= i < |s| ==> '0' <= s[i] <= '9'
  {
    if s == "" then 0
    else 10 * DigitsValue(s[..|s| - 1]) + ((s[|s| - 1] as int) - ('0' as int))
  }

  lemma {:induction false} DecimalValue(n: nat)
    ensures DigitsValue(Decimal(n)) == n
  {
    var s := Decimal(n);
    if n < 10 {
      assert s[..0] == "";
    } else {
      assert s[..|s| - 1] == Decimal(n / 10);
      DecimalValue(n / 10);
    }
  }

  /** The last w digits of n, zero-padded: the %0wd fields of a timestamp. */
  function Padded(n: nat, w: nat): (s: string)
    ensures |s| == w
    ensures forall i :: 0 <= i < |s| ==> '0' <= s[i] <= '9'
  {
    if w == 0 then "" else Padded(n / 10, w - 1) + [Digit(n % 10)]
  }

  function Pow10(w: nat): nat {
    if w == 0 then 1 else 10 * Pow10(w - 1)
  }

  /** Equal-width fields compare as the numbers they print. */
  lemma {:induction false} PaddedOrder(m: nat, n: nat, w: nat)
    requires m < Pow10(w) && n < Pow10(w)
    ensures m < n <==> Less(Padded(m, w), Padded(n, w))
    ensures m == n <==> Padded(m, w) == Padded(n, w)
  {
    if w != 0 {
      var i, j, c, d := m / 10, n / 10, m % 10, n % 10;
      var p, q := Padded(i, w - 1), Padded(j, w - 1);
      PaddedOrder(i, j, w - 1);
      AppendDigit(p, q, c, d);
    }
  }

  lemma AppendDigit(p: string, q: string, c: nat, d: nat)
    requires |p| == |q| && c < 10 && d < 10
    ensures Less(p + [Digit(c)], q + [Digit(d)]) <==> Less(p, q) || (p == q && c < d)
    ensures p + [Digit(c)] == q + [Digit(d)] <==> p == q && c == d
  {
    var x, y := p + [Digit(c)], q + [Digit(d)];
    assert x[..|p|] == p && y[..|q|] == q && x[|p|] == Digit(c) && y[|q|] == Digit(d);
    Trichotomy(p, q);
    if p == q {
      SharedPrefix(p, [Digit(c)], [Digit(d)]);
    } else {
      PrefixDecides(p, q, [Digit(c)], [Digit(d)]);
    }
  }
}
