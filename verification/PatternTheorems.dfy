/**
 Pattern detection as a whole: the size filter, the final sort, and what the result means. It is
 the list of all large enough components, and the order of the rows read does not show in it.
 */
module PatternTheorems {
  import opened Finite
  import opened Text
  import opened Jaccard
  import opened Patterns
  import Proposals

  /** The part of a reported cluster that decides its place in the result. */
  datatype Pattern = Pattern(size: nat, memoryIds: seq<Id>)

  function PatternOf(group: seq<Id>): Pattern {
    Pattern(|group|, First(group, Proposals.MAX_SOURCE_IDS))
  }

  function BoundedCluster(n: int): nat {
    if n < 2 then 2 else if n > 50 then 50 else n
  }

  function BoundedThreshold(t: real): real {
    if t < 0.0 then 0.0 else if t > 1.0 then 1.0 else t
  }

  // ----- the sort key: larger first, then by the id lists -----

  predicate ListLess(a: seq<Id>, b: seq<Id>) {
    if b == [] then false
    else if a == [] then true
    else Less(a[0], b[0]) || (a[0] == b[0] && ListLess(a[1..], b[1..]))
  }

  lemma {:induction false} ListTrichotomy(a: seq<Id>, b: seq<Id>)
    ensures a == b || ListLess(a, b) || ListLess(b, a)
    ensures !(ListLess(a, b) && ListLess(b, a))
    ensures ListLess(a, b) ==> a != b
  {
    if a != [] && b != [] {
      Trichotomy(a[0], b[0]);
      ListTrichotomy(a[1..], b[1..]);
      assert a == [a[0]] + a[1..];
      assert b == [b[0]] + b[1..];
    }
  }

  lemma {:induction false} ListTransitive(a: seq<Id>, b: seq<Id>, c: seq<Id>)
    requires ListLess(a, b) && ListLess(b, c)
    ensures ListLess(a, c)
  {
    if a != [] {
      if Less(a[0], b[0]) && Less(b[0], c[0]) {
        Transitive(a[0], b[0], c[0]);
      }
      if a[0] == b[0] == c[0] {
        Trichotomy(a[0], a[0]);
        ListTransitive(a[1..], b[1..], c[1..]);
      }
    }
  }

  predicate Before(a: Pattern, b: Pattern) {
    a.size > b.size || (a.size == b.size && ListLess(a.memoryIds, b.memoryIds))
  }

  /** Before is a strict total order. */
  lemma BeforeIsTotal(a: Pattern, b: Pattern)
    ensures a == b || Before(a, b) || Before(b, a)
    ensures !(Before(a, b) && Before(b, a))
    ensures Before(a, b) ==> a != b
  {
    ListTrichotomy(a.memoryIds, b.memoryIds);
  }

  lemma BeforeIsTransitive(a: Pattern, b: Pattern, c: Pattern)
    requires Before(a, b) && Before(b, c)
    ensures Before(a, c)
  {
    if a.size == b.size == c.size {
      ListTransitive(a.memoryIds, b.memoryIds, c.memoryIds);
    }
  }

  ghost predicate InOrder(ps: seq<Pattern>) {
    forall i, j :: 0 <= i < j < |ps| ==> Before(ps[i], ps[j])
  }

  function Insert(p: Pattern, ps: seq<Pattern>): seq<Pattern> {
    if ps == [] || Before(p, ps[0]) then [p] + ps else [ps[0]] + Insert(p, ps[1..])
  }

  lemma {:induction false} InsertKeepsOrder(p: Pattern, ps: seq<Pattern>)
    requires InOrder(ps) && p !in ps
    ensures InOrder(Insert(p, ps))
    ensures Elements(Insert(p, ps)) == Elements(ps) + {p}
  {
    if ps == [] {
    } else if Before(p, ps[0]) {
      forall j | 0 < j < |ps| ensures Before(p, ps[j]) {
        BeforeIsTransitive(p, ps[0], ps[j]);
      }
      ElementsCons(p, ps);
    } else {
      var rest := Insert(p, ps[1..]);
      InsertKeepsOrder(p, ps[1..]);
      BeforeIsTotal(p, ps[0]);
      assert ps == [ps[0]] + ps[1..];
      ElementsCons(ps[0], ps[1..]);
      ElementsCons(ps[0], rest);
      forall j | 0 <= j < |rest| ensures Before(ps[0], rest[j]) {
        assert rest[j] in Elements(rest);
      }
    }
  }

  lemma ElementsCons<T>(x: T, xs: seq<T>)
    ensures Elements([x] + xs) == {x} + Elements(xs)
  {
  }

  /** The final sort, by a key no two clusters share. */
  method SortPatterns(ps: seq<Pattern>) returns (qs: seq<Pattern>)
    requires Unrepeated(ps)
    ensures InOrder(qs) && Elements(qs) == Elements(ps)
  {
    qs := [];
    for i := 0 to |ps|
      invariant InOrder(qs) && Elements(qs) == Elements(ps[..i])
    {
      assert ps[..i + 1] == ps[..i] + [ps[i]];
      ElementsSnoc(ps[..i], ps[i]);
      assert ps[i] !in Elements(qs);
      InsertKeepsOrder(ps[i], qs);
      qs := Insert(ps[i], qs);
    }
    assert ps[..|ps|] == ps;
  }

  lemma {:induction false} InOrderIsUnique(ps: seq<Pattern>, qs: seq<Pattern>)
    requires InOrder(ps) && InOrder(qs) && Elements(ps) == Elements(qs)
    ensures ps == qs
  {
    assert ps != [] ==> ps[0] in Elements(ps);
    assert qs != [] ==> qs[0] in Elements(qs);
    if ps != [] {
      HeadsAgree(ps, qs);
      TailSet(ps);
      TailSet(qs);
      InOrderIsUnique(ps[1..], qs[1..]);
      assert ps == [ps[0]] + ps[1..];
      assert qs == [qs[0]] + qs[1..];
    }
  }

  lemma HeadsAgree(ps: seq<Pattern>, qs: seq<Pattern>)
    requires InOrder(ps) && InOrder(qs) && Elements(ps) == Elements(qs) && ps != [] && qs != []
    ensures ps[0] == qs[0]
  {
    assert ps[0] in Elements(qs) && qs[0] in Elements(ps);
    var i :| 0 <= i < |qs| && qs[i] == ps[0];
    var j :| 0 <= j < |ps| && ps[j] == qs[0];
    BeforeIsTotal(ps[0], qs[0]);
  }

  lemma TailSet(ps: seq<Pattern>)
    requires InOrder(ps) && ps != []
    ensures InOrder(ps[1..]) && Elements(ps[1..]) == Elements(ps) - {ps[0]}
  {
    assert ps == [ps[0]] + ps[1..];
    ElementsCons(ps[0], ps[1..]);
    forall j | 0 < j < |ps| ensures ps[j] != ps[0] {
      BeforeIsTotal(ps[0], ps[j]);
    }
  }

  // ----- the whole of pattern detection -----

  ghost predicate Reported(adj: Adjacency, least: nat, p: Pattern) {
    exists group :: IsComponent(adj, group) && |group| >= least && p == PatternOf(group)
  }

  /** The result lists, in order, exactly the patterns of the components that are large enough. */
  ghost predicate ArePatterns(adj: Adjacency, least: nat, ps: seq<Pattern>) {
    InOrder(ps) && forall p :: p in ps <==> Reported(adj, least, p)
  }

  /** The graph of a list of rows, as a value. */
  ghost function GraphOf(items: seq<Item>, near: Relation): Adjacency {
    map u | u in IdsOf(items) :: set v | v in IdsOf(items) && Linked(items, near, u, v)
  }

  lemma GraphOfExact(items: seq<Item>, near: Relation)
    ensures IsGraphOf(GraphOf(items, near), items, near)
  {
    forall u, v | Linked(items, near, u, v) ensures v in IdsOf(items) {
      var i, j :| 0 <= i < j < |items| && Joins(items[i], items[j], near, u, v);
      assert items[i].id in IdsOf(items) && items[j].id in IdsOf(items);
    }
  }

  lemma GraphIsUnique(adj: Adjacency, items: seq<Item>, near: Relation)
    requires IsGraphOf(adj, items, near)
    ensures adj == GraphOf(items, near)
  {
    GraphOfExact(items, near);
    forall u | u in adj ensures adj[u] == GraphOf(items, near)[u] {
    }
  }

  ghost function ReportedSet(adj: Adjacency, least: nat): set<Pattern> {
    set u | u in adj && |Component(adj, u)| >= least :: PatternOf(Sorted(Component(adj, u)))
  }

  lemma ReportedSetExact(adj: Adjacency, least: nat, p: Pattern)
    ensures p in ReportedSet(adj, least) <==> Reported(adj, least, p)
  {
    if u :| u in adj && |Component(adj, u)| >= least && p == PatternOf(Sorted(Component(adj, u))) {
      assert IsListing(Sorted(Component(adj, u)), Component(adj, u));
      assert IsComponent(adj, Sorted(Component(adj, u)));
    }
    if group :| IsComponent(adj, group) && |group| >= least && p == PatternOf(group) {
      var u :| u in adj && IsListing(group, Component(adj, u));
      AscendingUnique(group, Sorted(Component(adj, u)));
    }
  }

  lemma {:induction false} ListingExists(s: set<Pattern>) returns (ps: seq<Pattern>)
    ensures InOrder(ps) && Elements(ps) == s
    decreases |s|
  {
    if s == {} {
      ps := [];
    } else {
      var p :| p in s;
      var rest := ListingExists(s - {p});
      assert p !in Elements(rest);
      InsertKeepsOrder(p, rest);
      ps := Insert(p, rest);
    }
  }

  lemma PatternsExist(adj: Adjacency, least: nat)
    ensures exists ps :: ArePatterns(adj, least, ps)
  {
    var ps := ListingExists(ReportedSet(adj, least));
    forall p ensures p in ps <==> Reported(adj, least, p) {
      ReportedSetExact(adj, least, p);
      assert p in ps <==> p in Elements(ps);
    }
    assert ArePatterns(adj, least, ps);
  }

  lemma PatternsAreUnique(adj: Adjacency, least: nat, ps: seq<Pattern>, qs: seq<Pattern>)
    requires ArePatterns(adj, least, ps) && ArePatterns(adj, least, qs)
    ensures ps == qs
  {
    assert forall p :: p in Elements(ps) <==> p in Elements(qs);
    InOrderIsUnique(ps, qs);
  }

  /** The patterns of a list of rows. */
  ghost function PatternsOf(items: seq<Item>, minClusterSize: int, threshold: real): (ps: seq<Pattern>)
    ensures ArePatterns(GraphOf(items, Similar(BoundedThreshold(threshold))), BoundedCluster(minClusterSize), ps)
  {
    var adj := GraphOf(items, Similar(BoundedThreshold(threshold)));
    PatternsExist(adj, BoundedCluster(minClusterSize));
    var ps :| ArePatterns(adj, BoundedCluster(minClusterSize), ps);
    ps
  }

  // ----- the same, told in rows and words -----

  /** The two contents have words, and of all these at least the share t, cut down to [0, 1], in
      common; if nothing is asked, empty contents are alike too. */
  ghost predicate Alike(t: real, a: Item, b: Item) {
    t <= 0.0 || Shares(if t < 1.0 then t else 1.0, a.tokens, b.tokens)
  }

  /** The ids of p lead from u to v, each with a row alike to one of the next. */
  ghost predicate IsChain(items: seq<Item>, t: real, p: seq<Id>, u: Id, v: Id) {
    && |p| > 0 && p[0] == u && p[|p| - 1] == v && (forall i :: 0 <= i < |p| ==> IsId(items, p[i]))
    && forall i :: 0 <= i < |p| - 1 ==> HaveAlike(items, t, p[i], p[i + 1])
  }

  ghost predicate IsId(items: seq<Item>, u: Id) {
    exists a :: a in items && a.id == u
  }

  ghost predicate HaveAlike(items: seq<Item>, t: real, u: Id, v: Id) {
    exists a, b :: a in items && b in items && a.id == u && b.id == v && Alike(t, a, b)
  }

  ghost predicate Chained(items: seq<Item>, t: real, u: Id, v: Id) {
    exists p :: IsChain(items, t, p, u, v)
  }

  /** The ids of a cluster, in ascending order: everything that a chain joins to some id. */
  ghost predicate IsCluster(items: seq<Item>, t: real, group: seq<Id>) {
    exists u :: IsId(items, u) && Ascending(group) && forall v :: v in group <==> Chained(items, t, u, v)
  }

  /** Size and first ids of a cluster with at least so many ids: 2 at least, 50 at most. */
  ghost predicate Describes(items: seq<Item>, minClusterSize: int, t: real, p: Pattern) {
    exists group :: IsCluster(items, t, group) && |group| >= 2 && (|group| >= minClusterSize || |group| >= 50)
      && p.size == |group| && p.memoryIds == First(group, 64)
  }

  /** Of two lists, the one with the smaller id where they first differ, or the shorter one. */
  ghost predicate ListedFirst(a: seq<Id>, b: seq<Id>) {
    exists k :: 0 <= k <= |a| && k < |b| && a[..k] == b[..k] && (k < |a| ==> Less(a[k], b[k]))
  }

  lemma {:induction false} ListLessIff(a: seq<Id>, b: seq<Id>)
    ensures ListLess(a, b) <==> ListedFirst(a, b)
  {
    if a != [] && b != [] {
      Trichotomy(a[0], b[0]);
      ListLessIff(a[1..], b[1..]);
      if a[0] == b[0] {
        FirstAgrees(a, b);
      } else {
        assert a[..0] == b[..0];
        forall k | 0 < k <= |a| && k < |b| ensures a[..k] != b[..k] {
          assert a[..k][0] != b[..k][0];
        }
      }
    } else if b != [] {
      assert a[..0] == b[..0];
    }
  }

  lemma FirstAgrees(a: seq<Id>, b: seq<Id>)
    requires a != [] && b != [] && a[0] == b[0]
    ensures ListedFirst(a, b) <==> ListedFirst(a[1..], b[1..])
  {
    if k :| 0 <= k <= |a| && k < |b| && a[..k] == b[..k] && (k < |a| ==> Less(a[k], b[k])) {
      Trichotomy(a[0], b[0]);
      assert k > 0;
      assert a[1..][..k - 1] == a[..k][1..] && b[1..][..k - 1] == b[..k][1..];
    }
    if k :| 0 <= k <= |a[1..]| && k < |b[1..]| && a[1..][..k] == b[1..][..k] && (k < |a[1..]| ==> Less(a[1..][k], b[1..][k])) {
      assert a[..k + 1] == [a[0]] + a[1..][..k] && b[..k + 1] == [b[0]] + b[1..][..k];
    }
  }

  /** Larger clusters come first, and of equal ones the one whose id list does. */
  ghost predicate LargestFirst(ps: seq<Pattern>) {
    forall i, j :: 0 <= i < j < |ps| ==>
      ps[i].size > ps[j].size || (ps[i].size == ps[j].size && ListedFirst(ps[i].memoryIds, ps[j].memoryIds))
  }

  lemma InOrderIff(ps: seq<Pattern>)
    ensures InOrder(ps) <==> LargestFirst(ps)
  {
    forall i, j | 0 <= i < j < |ps|
      ensures ListLess(ps[i].memoryIds, ps[j].memoryIds) <==> ListedFirst(ps[i].memoryIds, ps[j].memoryIds)
    {
      ListLessIff(ps[i].memoryIds, ps[j].memoryIds);
    }
  }

  lemma AlikeIff(t: real, a: Item, b: Item)
    ensures Similar(BoundedThreshold(t))(a, b) <==> Alike(t, a, b)
  {
    SimilarEnoughIff(BoundedThreshold(t), a.tokens, b.tokens);
  }

  lemma LinkedIff(items: seq<Item>, t: real, u: Id, v: Id)
    requires u != v
    ensures Linked(items, Similar(BoundedThreshold(t)), u, v) <==> HaveAlike(items, t, u, v)
  {
    var near := Similar(BoundedThreshold(t));
    SimilarIsSymmetric(BoundedThreshold(t));
    LinkIsOrderFree(items, near, u, v);
    forall a, b ensures near(a, b) <==> Alike(t, a, b) {
      AlikeIff(t, a, b);
    }
  }

  lemma IdsExact(items: seq<Item>, u: Id)
    ensures u in IdsOf(items) <==> IsId(items, u)
  {
    if a :| a in items && a.id == u {
      var i :| 0 <= i < |items| && items[i] == a;
    }
    if i :| 0 <= i < |items| && items[i].id == u {
      assert items[i] in items;
    }
  }

  lemma {:induction false} ChainConnects(items: seq<Item>, t: real, adj: Adjacency, p: seq<Id>, u: Id, v: Id)
    requires IsGraphOf(adj, items, Similar(BoundedThreshold(t))) && IsChain(items, t, p, u, v)
    ensures u in adj && v in adj && Connected(adj, u, v)
  {
    IdsExact(items, u);
    IdsExact(items, v);
    if |p| == 1 {
      ConnectedRefl(adj, u);
    } else {
      var n := |p| - 1;
      var w := p[n - 1];
      assert IsChain(items, t, p[..n], u, w) by {
        forall i | 0 <= i < n - 1 ensures HaveAlike(items, t, p[..n][i], p[..n][i + 1]) {
          assert HaveAlike(items, t, p[i], p[i + 1]);
        }
      }
      ChainConnects(items, t, adj, p[..n], u, w);
      assert HaveAlike(items, t, p[n - 1], p[n - 1 + 1]);
      if w != v {
        LinkedIff(items, t, w, v);
        ConnectedStep(adj, u, w, v);
      }
    }
  }

  /** A path without its loops is a chain. */
  lemma {:induction false} PathChains(items: seq<Item>, t: real, adj: Adjacency, p: seq<Id>, u: Id, v: Id)
    requires IsGraphOf(adj, items, Similar(BoundedThreshold(t))) && IsPath(adj, p, u, v)
    ensures Chained(items, t, u, v)
  {
    forall i | 0 <= i < |p| ensures IsId(items, p[i]) {
      IdsExact(items, p[i]);
    }
    if |p| == 1 {
      assert IsChain(items, t, p, u, v);
    } else {
      var n := |p| - 1;
      var w := p[n - 1];
      assert IsPath(adj, p[..n], u, w);
      PathChains(items, t, adj, p[..n], u, w);
      if w != v {
        assert p[n - 1 + 1] in adj[p[n - 1]];
        LinkedIff(items, t, w, v);
        var q :| IsChain(items, t, q, u, w);
        ChainGrows(items, t, q, u, w, v);
      }
    }
  }

  lemma ChainGrows(items: seq<Item>, t: real, q: seq<Id>, u: Id, w: Id, v: Id)
    requires IsChain(items, t, q, u, w) && IsId(items, v) && HaveAlike(items, t, w, v)
    ensures Chained(items, t, u, v)
  {
    var r := q + [v];
    forall i | 0 <= i < |r| - 1 ensures HaveAlike(items, t, r[i], r[i + 1]) {
      if i < |q| - 1 {
        assert HaveAlike(items, t, q[i], q[i + 1]);
      }
    }
    assert IsChain(items, t, r, u, v);
  }

  lemma ConnectedIffChained(items: seq<Item>, t: real, adj: Adjacency, u: Id, v: Id)
    requires IsGraphOf(adj, items, Similar(BoundedThreshold(t)))
    ensures (u in adj && v in adj && Connected(adj, u, v)) <==> Chained(items, t, u, v)
  {
    if p :| IsPath(adj, p, u, v) {
      PathChains(items, t, adj, p, u, v);
    }
    if p :| IsChain(items, t, p, u, v) {
      ChainConnects(items, t, adj, p, u, v);
    }
  }

  lemma ClusterIffComponent(items: seq<Item>, t: real, adj: Adjacency, group: seq<Id>)
    requires IsGraphOf(adj, items, Similar(BoundedThreshold(t)))
    ensures IsCluster(items, t, group) <==> IsComponent(adj, group)
  {
    forall u, v ensures (u in adj && v in adj && Connected(adj, u, v)) <==> Chained(items, t, u, v) {
      ConnectedIffChained(items, t, adj, u, v);
    }
    forall u ensures u in adj <==> IsId(items, u) {
      IdsExact(items, u);
    }
    assert forall v :: v in Elements(group) <==> v in group;
    if u :| IsId(items, u) && Ascending(group) && forall v :: v in group <==> Chained(items, t, u, v) {
      assert Elements(group) == Component(adj, u);
      assert IsListing(group, Component(adj, u));
    }
    if u :| u in adj && IsListing(group, Component(adj, u)) {
      assert forall v :: v in group <==> Chained(items, t, u, v);
    }
  }

  /** What is reported, in terms of rows and words only: exactly the clusters of ids that chains of
      alike rows join, if they are large enough. */
  lemma PatternsAreClusters(items: seq<Item>, minClusterSize: int, threshold: real, p: Pattern)
    ensures p in PatternsOf(items, minClusterSize, threshold) <==> Describes(items, minClusterSize, threshold, p)
  {
    var near := Similar(BoundedThreshold(threshold));
    var adj, least := GraphOf(items, near), BoundedCluster(minClusterSize);
    GraphOfExact(items, near);
    forall group ensures IsCluster(items, threshold, group) <==> IsComponent(adj, group) {
      ClusterIffComponent(items, threshold, adj, group);
    }
    assert p in PatternsOf(items, minClusterSize, threshold) <==> Reported(adj, least, p);
  }

  method DetectPatterns(items: seq<Item>, minClusterSize: int, threshold: real) returns (clusters: seq<Pattern>)
    ensures clusters == PatternsOf(items, minClusterSize, threshold) && LargestFirst(clusters)
    ensures forall p :: p in clusters <==> Describes(items, minClusterSize, threshold, p)
  {
    var least, near := BoundedCluster(minClusterSize), Similar(BoundedThreshold(threshold));
    var adj := BuildGraph(items, near);
    GraphIsUndirected(adj, items, near);
    var groups := ConnectedComponents(adj);
    var found: seq<Pattern> := [];
    for i := 0 to |groups|
      invariant ReportedFrom(groups[..i], least, found)
      invariant Unrepeated(found)
    {
      assert groups[..i + 1] == groups[..i] + [groups[i]];
      if |groups[i]| >= least {
        NewPattern(groups, i, least, found);
        UnrepeatedSnoc(found, PatternOf(groups[i]));
        found := found + [PatternOf(groups[i])];
      }
    }
    assert groups[..|groups|] == groups;
    clusters := SortPatterns(found);
    AllReported(adj, groups, least, found, clusters);
    GraphIsUnique(adj, items, near);
    PatternsAreUnique(adj, least, clusters, PatternsOf(items, minClusterSize, threshold));
    InOrderIff(clusters);
    forall p ensures p in clusters <==> Describes(items, minClusterSize, threshold, p) {
      PatternsAreClusters(items, minClusterSize, threshold, p);
    }
  }

  ghost predicate ReportedFrom(groups: seq<seq<Id>>, least: nat, found: seq<Pattern>) {
    forall p :: p in found <==> exists group :: group in groups && |group| >= least && p == PatternOf(group)
  }

  /** Components are disjoint, so a later one brings a new pattern. */
  lemma NewPattern(groups: seq<seq<Id>>, i: nat, least: nat, found: seq<Pattern>)
    requires Apart(groups) && i < |groups| && ReportedFrom(groups[..i], least, found)
    requires least >= 2 && |groups[i]| >= least
    ensures PatternOf(groups[i]) !in found
    ensures ReportedFrom(groups[..i] + [groups[i]], least, found + [PatternOf(groups[i])])
  {
    forall group | group in groups[..i] && |group| >= least ensures PatternOf(group) != PatternOf(groups[i]) {
      var k :| 0 <= k < i && groups[k] == group;
      assert groups[k][0] in Elements(groups[k]);
      assert groups[i][0] in Elements(groups[i]);
    }
  }

  lemma AllReported(adj: Adjacency, groups: seq<seq<Id>>, least: nat, found: seq<Pattern>, clusters: seq<Pattern>)
    requires Undirected(adj) && AreComponents(adj, groups) && ReportedFrom(groups, least, found)
    requires InOrder(clusters) && Elements(clusters) == Elements(found)
    ensures ArePatterns(adj, least, clusters)
  {
    forall p ensures p in clusters <==> Reported(adj, least, p) {
      assert p in clusters <==> p in Elements(clusters);
      assert p in found <==> p in Elements(found);
      if Reported(adj, least, p) {
        var group :| IsComponent(adj, group) && |group| >= least && p == PatternOf(group);
        EveryComponentListed(adj, groups, group);
      }
      if p in found {
        var group :| group in groups && |group| >= least && p == PatternOf(group);
        assert IsComponent(adj, group);
      }
    }
  }

  lemma {:induction false} InSomeGroup(groups: seq<seq<Id>>, u: Id) returns (k: nat)
    requires u in Union(groups)
    ensures k < |groups| && u in groups[k]
  {
    if u in Elements(groups[|groups| - 1]) {
      k := |groups| - 1;
    } else {
      k := InSomeGroup(groups[..|groups| - 1], u);
    }
  }

  lemma EveryComponentListed(adj: Adjacency, groups: seq<seq<Id>>, group: seq<Id>)
    requires Undirected(adj) && AreComponents(adj, groups) && IsComponent(adj, group)
    ensures group in groups
  {
    var u :| u in adj && IsListing(group, Component(adj, u));
    var k := InSomeGroup(groups, u);
    assert u in Elements(groups[k]) && IsComponent(adj, groups[k]);
    var w :| w in adj && IsListing(groups[k], Component(adj, w));
    SameComponent(adj, w, u);
    AscendingUnique(group, groups[k]);
  }

  /** Two ids are in one group exactly if a chain of sufficiently similar pairs links them. */
  lemma TogetherIffChained(adj: Adjacency, groups: seq<seq<Id>>, u: Id, v: Id)
    requires Undirected(adj) && AreComponents(adj, groups) && u in adj && v in adj
    ensures (exists group :: group in groups && u in group && v in group) <==> Connected(adj, u, v)
  {
    var k := InSomeGroup(groups, u);
    assert groups[k] in groups && u in Elements(groups[k]);
    var w :| w in adj && IsListing(groups[k], Component(adj, w));
    SameComponent(adj, w, u);
    assert v in groups[k] <==> v in Elements(groups[k]);
    forall group | group in groups && u in group ensures group == groups[k] {
      var l :| 0 <= l < |groups| && groups[l] == group;
      assert u in Elements(groups[l]);
    }
  }

  // ----- the order of the rows does not matter -----

  ghost predicate SameLinks(a: Adjacency, b: Adjacency) {
    a.Keys == b.Keys && forall u, v :: u in a && u != v ==> (v in a[u] <==> v in b[u])
  }

  /** Self-loops aside, a link needs only two similar rows somewhere in the list. */
  lemma LinkIsOrderFree(items: seq<Item>, near: Relation, u: Id, v: Id)
    requires forall a, b :: near(a, b) == near(b, a)
    requires u != v
    ensures Linked(items, near, u, v) <==> exists a, b :: a in items && b in items && a.id == u && b.id == v && near(a, b)
  {
    if a, b :| a in items && b in items && a.id == u && b.id == v && near(a, b) {
      var i :| 0 <= i < |items| && items[i] == a;
      var j :| 0 <= j < |items| && items[j] == b;
      assert near(items[j], items[i]);
      if i < j {
        assert Joins(items[i], items[j], near, u, v);
      } else {
        assert Joins(items[j], items[i], near, u, v);
      }
    }
    if Linked(items, near, u, v) {
      var i, j :| 0 <= i < j < |items| && Joins(items[i], items[j], near, u, v);
      assert items[i] in items && items[j] in items && near(items[j], items[i]);
    }
  }

  lemma ReorderedLinks(xs: seq<Item>, ys: seq<Item>, near: Relation, a: Adjacency, b: Adjacency)
    requires forall x, y :: near(x, y) == near(y, x)
    requires Elements(xs) == Elements(ys) && IsGraphOf(a, xs, near) && IsGraphOf(b, ys, near)
    ensures SameLinks(a, b)
  {
    assert forall x :: x in xs <==> x in Elements(xs);
    assert forall y :: y in ys <==> y in Elements(ys);
    SameIds(xs, ys);
    SameIds(ys, xs);
    forall u, v | u in a && u != v ensures v in a[u] <==> v in b[u] {
      LinkIsOrderFree(xs, near, u, v);
      LinkIsOrderFree(ys, near, u, v);
    }
  }

  lemma SameIds(xs: seq<Item>, ys: seq<Item>)
    requires forall x :: x in xs ==> x in ys
    ensures IdsOf(xs) <= IdsOf(ys)
  {
    forall u | u in IdsOf(xs) ensures u in IdsOf(ys) {
      var i :| 0 <= i < |xs| && xs[i].id == u;
      assert xs[i] in ys;
      var j :| 0 <= j < |ys| && ys[j] == xs[i];
    }
  }

  lemma ConnectionCarriesOver(a: Adjacency, b: Adjacency, u: Id, v: Id)
    requires SameLinks(a, b) && Undirected(b) && Connected(a, u, v)
    ensures Connected(b, u, v)
  {
    var p :| IsPath(a, p, u, v);
    var s := Component(b, u);
    ConnectedRefl(b, u);
    forall x, y | x in s && x in a && y in a[x] ensures y in s {
      if y != x {
        ConnectedStep(b, u, x, y);
      }
    }
    ClosedKeepsPaths(a, s, p, u, v);
  }

  lemma SameComponents(a: Adjacency, b: Adjacency, least: nat, p: Pattern)
    requires SameLinks(a, b) && Undirected(a) && Undirected(b) && Reported(a, least, p)
    ensures Reported(b, least, p)
  {
    var group :| IsComponent(a, group) && |group| >= least && p == PatternOf(group);
    var u :| u in a && IsListing(group, Component(a, u));
    forall v | v in a ensures Connected(a, u, v) <==> Connected(b, u, v) {
      if Connected(a, u, v) {
        ConnectionCarriesOver(a, b, u, v);
      }
      if Connected(b, u, v) {
        ConnectionCarriesOver(b, a, u, v);
      }
    }
    assert Component(a, u) == Component(b, u);
    assert IsComponent(b, group);
  }

  /** The same rows in any order, and with any repetition, give the same list of patterns. */
  lemma RowOrderIrrelevant(xs: seq<Item>, ys: seq<Item>, minClusterSize: int, threshold: real)
    requires Elements(xs) == Elements(ys)
    ensures PatternsOf(xs, minClusterSize, threshold) == PatternsOf(ys, minClusterSize, threshold)
  {
    var near, least := Similar(BoundedThreshold(threshold)), BoundedCluster(minClusterSize);
    SimilarIsSymmetric(BoundedThreshold(threshold));
    GraphOfExact(xs, near);
    GraphOfExact(ys, near);
    SameLinksSamePatterns(xs, ys, near, GraphOf(xs, near), GraphOf(ys, near), least,
      PatternsOf(xs, minClusterSize, threshold), PatternsOf(ys, minClusterSize, threshold));
  }

  lemma SameLinksSamePatterns(xs: seq<Item>, ys: seq<Item>, near: Relation, a: Adjacency, b: Adjacency, least: nat,
                              ps: seq<Pattern>, qs: seq<Pattern>)
    requires Elements(xs) == Elements(ys) && forall x, y :: near(x, y) == near(y, x)
    requires IsGraphOf(a, xs, near) && ArePatterns(a, least, ps)
    requires IsGraphOf(b, ys, near) && ArePatterns(b, least, qs)
    ensures ps == qs
  {
    ReorderedLinks(xs, ys, near, a, b);
    GraphIsUndirected(a, xs, near);
    GraphIsUndirected(b, ys, near);
    forall p ensures p in Elements(ps) <==> p in Elements(qs) {
      if p in ps {
        SameComponents(a, b, least, p);
      }
      if p in qs {
        SameComponents(b, a, least, p);
      }
    }
    InOrderIsUnique(ps, qs);
  }

  lemma SimilarIsSymmetric(threshold: real)
    ensures forall a, b :: Similar(threshold)(a, b) == Similar(threshold)(b, a)
  {
    forall a: Item, b: Item ensures Similar(threshold)(a, b) == Similar(threshold)(b, a) {
      StrictTriangle(a.tokens, b.tokens, a.tokens);
    }
  }
}
