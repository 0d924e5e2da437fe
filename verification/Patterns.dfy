/**
 Pattern detection: memories are linked when their contents are similar enough, and clusters are
 the connected components of that graph, found with a stack.
 */
module Patterns {
  import opened Text
  import opened Jaccard

  type Id = string
  datatype Item = Item(id: Id, tokens: set<string>)
  type Relation = (Item, Item) -> bool
  type Adjacency = map<Id, set<Id>>

  function Similar(threshold: real): Relation {
    (a: Item, b: Item) => StrictSimilarity(a.tokens, b.tokens) >= threshold
  }

  function IdsOf(items: seq<Item>): set<Id> {
    set i | 0 <= i < |items| :: items[i].id
  }

  // ----- the similarity graph -----

  /** Some pair of rows, the first before the second, links u and v in either direction. */
  ghost predicate Linked(items: seq<Item>, near: Relation, u: Id, v: Id) {
    exists i, j :: 0 <= i < j < |items| && Joins(items[i], items[j], near, u, v)
  }

  ghost predicate Joins(a: Item, b: Item, near: Relation, u: Id, v: Id) {
    near(a, b) && ((a.id == u && b.id == v) || (a.id == v && b.id == u))
  }

  function AddEdge(adj: Adjacency, u: Id, v: Id): Adjacency
    requires u in adj && v in adj
  {
    var once := adj[u := adj[u] + {v}];
    once[v := once[v] + {u}]
  }

  /** The links of row i to rows before n. */
  ghost predicate LinkedBefore(items: seq<Item>, near: Relation, i: nat, n: nat, u: Id, v: Id)
    requires i < |items| && n <= |items|
  {
    exists j :: i < j < n && Joins(items[i], items[j], near, u, v)
  }

  method LinkRow(items: seq<Item>, near: Relation, i: nat, adj: Adjacency) returns (r: Adjacency)
    requires i < |items| && adj.Keys == IdsOf(items)
    ensures r.Keys == adj.Keys
    ensures forall u, v :: u in r ==> (v in r[u] <==> v in adj[u] || LinkedBefore(items, near, i, |items|, u, v))
  {
    r := adj;
    for j := i + 1 to |items|
      invariant r.Keys == adj.Keys
      invariant forall u, v :: u in r ==> (v in r[u] <==> v in adj[u] || LinkedBefore(items, near, i, j, u, v))
    {
      ghost var before := r;
      if near(items[i], items[j]) {
        r := AddEdge(r, items[i].id, items[j].id);
      }
      forall u, v | u in r
        ensures v in r[u] <==> v in adj[u] || LinkedBefore(items, near, i, j + 1, u, v)
      {
        assert v in r[u] <==> v in before[u] || Joins(items[i], items[j], near, u, v);
        LinkedOneMore(items, near, i, j, u, v);
      }
    }
  }

  lemma LinkedOneMore(items: seq<Item>, near: Relation, i: nat, j: nat, u: Id, v: Id)
    requires i < j < |items|
    ensures LinkedBefore(items, near, i, j + 1, u, v) <==> LinkedBefore(items, near, i, j, u, v) || Joins(items[i], items[j], near, u, v)
  {
  }

  ghost predicate IsGraphOf(adj: Adjacency, items: seq<Item>, near: Relation) {
    adj.Keys == IdsOf(items) && forall u, v :: u in adj ==> (v in adj[u] <==> Linked(items, near, u, v))
  }

  /** The links of rows before n to any later row. */
  ghost predicate LinkedFrom(items: seq<Item>, near: Relation, n: nat, u: Id, v: Id)
    requires n <= |items|
  {
    exists i, j :: 0 <= i < n && i < j < |items| && Joins(items[i], items[j], near, u, v)
  }

  lemma LinkedOneMoreRow(items: seq<Item>, near: Relation, i: nat, u: Id, v: Id)
    requires i < |items|
    ensures LinkedFrom(items, near, i + 1, u, v) <==> LinkedFrom(items, near, i, u, v) || LinkedBefore(items, near, i, |items|, u, v)
  {
    if LinkedBefore(items, near, i, |items|, u, v) {
      var j :| i < j < |items| && Joins(items[i], items[j], near, u, v);
      assert LinkedFrom(items, near, i + 1, u, v);
    }
  }

  method BuildGraph(items: seq<Item>, near: Relation) returns (adj: Adjacency)
    ensures IsGraphOf(adj, items, near)
  {
    adj := map id | id in IdsOf(items) :: {};
    for i := 0 to |items|
      invariant adj.Keys == IdsOf(items)
      invariant forall u, v :: u in adj ==> (v in adj[u] <==> LinkedFrom(items, near, i, u, v))
    {
      ghost var before := adj;
      adj := LinkRow(items, near, i, adj);
      forall u, v | u in adj ensures v in adj[u] <==> LinkedFrom(items, near, i + 1, u, v) {
        LinkedOneMoreRow(items, near, i, u, v);
      }
    }
  }

  // ----- connectivity -----

  ghost predicate IsPath(adj: Adjacency, p: seq<Id>, u: Id, v: Id) {
    && |p| > 0 && p[0] == u && p[|p| - 1] == v
    && (forall i :: 0 <= i < |p| ==> p[i] in adj)
    && (forall i :: 0 <= i < |p| - 1 ==> p[i + 1] in adj[p[i]])
  }

  ghost predicate Connected(adj: Adjacency, u: Id, v: Id) {
    exists p :: IsPath(adj, p, u, v)
  }

  /** Edges stay within the ids and run both ways. */
  ghost predicate Undirected(adj: Adjacency) {
    forall u, v :: u in adj && v in adj[u] ==> v in adj && u in adj[v]
  }

  lemma GraphIsUndirected(adj: Adjacency, items: seq<Item>, near: Relation)
    requires IsGraphOf(adj, items, near)
    ensures Undirected(adj)
  {
    forall u, v | u in adj && v in adj[u] ensures v in adj && u in adj[v] {
      var i, j :| 0 <= i < j < |items| && Joins(items[i], items[j], near, u, v);
      assert items[i].id in IdsOf(items) && items[j].id in IdsOf(items);
      assert Joins(items[i], items[j], near, v, u);
    }
  }

  lemma ConnectedRefl(adj: Adjacency, u: Id)
    requires u in adj
    ensures Connected(adj, u, u)
  {
    assert IsPath(adj, [u], u, u);
  }

  lemma ConnectedStep(adj: Adjacency, u: Id, v: Id, w: Id)
    requires Connected(adj, u, v) && v in adj && w in adj[v] && w in adj
    ensures Connected(adj, u, w)
  {
    var p :| IsPath(adj, p, u, v);
    assert IsPath(adj, p + [w], u, w);
  }

  lemma ConnectedTrans(adj: Adjacency, u: Id, v: Id, w: Id)
    requires Connected(adj, u, v) && Connected(adj, v, w)
    ensures Connected(adj, u, w)
  {
    var p :| IsPath(adj, p, u, v);
    var q :| IsPath(adj, q, v, w);
    var r := p + q[1..];
    forall i | 0 <= i < |r| - 1 ensures r[i + 1] in adj[r[i]] {
      if i >= |p| - 1 {
        assert r[i] == q[i + 1 - |p|] && r[i + 1] == q[i + 2 - |p|];
      }
    }
    assert IsPath(adj, r, u, w);
  }

  lemma {:induction false} ReversePath(adj: Adjacency, p: seq<Id>, u: Id, v: Id)
    requires Undirected(adj) && IsPath(adj, p, u, v)
    ensures Connected(adj, v, u)
    decreases |p|
  {
    if |p| == 1 {
      ConnectedRefl(adj, u);
    } else {
      assert IsPath(adj, p[1..], p[1], v);
      ReversePath(adj, p[1..], p[1], v);
      ConnectedStep(adj, v, p[1], u);
    }
  }

  lemma ConnectedSym(adj: Adjacency, u: Id, v: Id)
    requires Undirected(adj) && Connected(adj, u, v)
    ensures Connected(adj, v, u)
  {
    var p :| IsPath(adj, p, u, v);
    ReversePath(adj, p, u, v);
  }

  /** A set closed under edges keeps every path that starts in it. */
  lemma {:induction false} ClosedKeepsPaths(adj: Adjacency, s: set<Id>, p: seq<Id>, u: Id, v: Id)
    requires IsPath(adj, p, u, v) && u in s
    requires forall x, y :: x in s && x in adj && y in adj[x] ==> y in s
    ensures v in s
    decreases |p|
  {
    if |p| > 1 {
      assert IsPath(adj, p[1..], p[1], v);
      ClosedKeepsPaths(adj, s, p[1..], p[1], v);
    }
  }

  ghost function Component(adj: Adjacency, u: Id): set<Id> {
    set v | v in adj && Connected(adj, u, v)
  }

  // ----- the stack loop -----

  ghost predicate ClosedUnder(adj: Adjacency, s: set<Id>, within: set<Id>) {
    forall x, y :: x in s && x in adj && y in adj[x] ==> y in within
  }

  method PushNeighbours(neighbours: seq<Id>, used: set<Id>, stack: seq<Id>) returns (used': set<Id>, stack': seq<Id>)
    ensures used' == used + Elements(neighbours)
    ensures Elements(stack') == Elements(stack) + (Elements(neighbours) - used)
    ensures used' == used ==> stack' == stack
    ensures Unrepeated(stack) && Elements(stack) <= used ==> Unrepeated(stack')
  {
    used', stack' := used, stack;
    ghost var seen: set<Id> := {};
    for i := 0 to |neighbours|
      invariant seen == Elements(neighbours[..i])
      invariant used' == used + seen
      invariant Elements(stack') == Elements(stack) + (seen - used)
      invariant used' == used ==> stack' == stack
      invariant Unrepeated(stack) && Elements(stack) <= used ==> Unrepeated(stack')
    {
      var n := neighbours[i];
      assert neighbours[..i + 1] == neighbours[..i] + [n];
      ElementsSnoc(neighbours[..i], n);
      MarkOne(used, seen, n);
      if n !in used' {
        ElementsSnoc(stack', n);
        UnrepeatedSnoc(stack', n);
        used' := used' + {n};
        stack' := stack' + [n];
        assert n in used' && n !in used;
      } else {
        assert used' + {n} == used';
      }
      seen := seen + {n};
    }
    assert neighbours[..|neighbours|] == neighbours;
  }

  /** Marking a node already met changes nothing; a new one goes to the stack. */
  lemma MarkOne<T>(used: set<T>, seen: set<T>, n: T)
    ensures used + (seen + {n}) == used + seen + {n}
    ensures n in used + seen ==> (seen + {n}) - used == seen - used
    ensures n !in used + seen ==> (seen + {n}) - used == (seen - used) + {n}
  {
  }

  /** What the inner loop keeps: pending nodes are the stack, marked ones are those in `used`. */
  ghost predicate Exploring(adj: Adjacency, root: Id, used: set<Id>, component: set<Id>, pending: set<Id>, marked: set<Id>) {
    && marked == used + component + pending && marked <= adj.Keys
    && used !! component + pending && component !! pending
    && root in component + pending
    && ClosedUnder(adj, component, marked)
    && forall v :: v in component + pending ==> Connected(adj, root, v)
  }

  lemma ExploreStep(adj: Adjacency, root: Id, used: set<Id>, component: set<Id>, rest: set<Id>, node: Id, marked: set<Id>)
    requires Undirected(adj) && ClosedUnder(adj, used, used)
    requires Exploring(adj, root, used, component, rest + {node}, marked) && node !in rest
    ensures node in adj && node !in component
    ensures Exploring(adj, root, used, component + {node}, rest + (adj[node] - marked), marked + adj[node])
  {
    forall v | v in adj[node] ensures v in adj && Connected(adj, root, v) {
      assert node in component + (rest + {node});
      ConnectedStep(adj, root, node, v);
    }
    UsedIsSeparate(adj, used, node);
    assert ClosedUnder(adj, component + {node}, marked + adj[node]);
  }

  lemma ExploreDone(adj: Adjacency, root: Id, used: set<Id>, component: set<Id>, marked: set<Id>)
    requires Undirected(adj) && ClosedUnder(adj, used, used)
    requires Exploring(adj, root, used, component, {}, marked)
    ensures component == Component(adj, root) && component !! used
  {
    assert component + {} == component;
    ComponentClosed(adj, used, component, marked);
    forall v | v in adj && Connected(adj, root, v) ensures v in component {
      var p :| IsPath(adj, p, root, v);
      ClosedKeepsPaths(adj, component, p, root, v);
    }
  }

  /** The inner while loop: all of the root's component, each node once, and nothing else. */
  method Explore(adj: Adjacency, root: Id, used: set<Id>) returns (component: seq<Id>)
    requires Undirected(adj) && root in adj && root !in used && used <= adj.Keys && ClosedUnder(adj, used, used)
    ensures Elements(component) == Component(adj, root) && Unrepeated(component)
    ensures Elements(component) !! used
  {
    var stack, marked := [root], used + {root};
    component := [];
    ConnectedRefl(adj, root);
    assert Elements(stack) == {root} && Elements(component) == {};
    while stack != []
      invariant Exploring(adj, root, used, Elements(component), Elements(stack), marked)
      invariant Unrepeated(component) && Unrepeated(stack)
      decreases adj.Keys - marked, |stack|
    {
      var node := stack[|stack| - 1];
      assert stack == stack[..|stack| - 1] + [node];
      ElementsSnoc(stack[..|stack| - 1], node);
      UnrepeatedSnoc(stack[..|stack| - 1], node);
      stack := stack[..|stack| - 1];
      ExploreStep(adj, root, used, Elements(component), Elements(stack), node, marked);
      ElementsSnoc(component, node);
      UnrepeatedSnoc(component, node);
      component := component + [node];
      var neighbours := SortSet(adj[node]);
      marked, stack := PushNeighbours(neighbours, marked, stack);
    }
    assert Elements(stack) == {};
    ExploreDone(adj, root, used, Elements(component), marked);
  }

  /** No edge leads from outside a closed set into it. */
  lemma UsedIsSeparate(adj: Adjacency, used: set<Id>, node: Id)
    requires Undirected(adj) && ClosedUnder(adj, used, used) && node in adj && node !in used
    ensures adj[node] !! used
  {
    forall v | v in adj[node] ensures v !in used {
      assert v in adj && node in adj[v];
    }
  }

  lemma ComponentClosed(adj: Adjacency, used: set<Id>, component: set<Id>, marked: set<Id>)
    requires Undirected(adj) && ClosedUnder(adj, used, used) && component !! used && component <= adj.Keys
    requires marked == used + component && ClosedUnder(adj, component, marked)
    ensures ClosedUnder(adj, component, component)
  {
    forall x, y | x in component && x in adj && y in adj[x] ensures y in component {
      UsedIsSeparate(adj, used, x);
    }
  }

  ghost predicate IsComponent(adj: Adjacency, group: seq<Id>) {
    exists u :: u in adj && IsListing(group, Component(adj, u))
  }

  ghost predicate Apart(groups: seq<seq<Id>>) {
    forall k, l :: 0 <= k < l < |groups| ==> Elements(groups[k]) !! Elements(groups[l])
  }

  ghost predicate OnlyComponents(adj: Adjacency, groups: seq<seq<Id>>) {
    forall group :: group in groups ==> IsComponent(adj, group)
  }

  /** The groups are exactly the components, each listed once and sorted, before the size filter. */
  ghost predicate AreComponents(adj: Adjacency, groups: seq<seq<Id>>) {
    OnlyComponents(adj, groups) && Apart(groups) && Union(groups) == adj.Keys
  }

  function Union(groups: seq<seq<Id>>): set<Id> {
    if groups == [] then {} else Union(groups[..|groups| - 1]) + Elements(groups[|groups| - 1])
  }

  lemma {:induction false} UnionHolds(groups: seq<seq<Id>>, k: nat)
    requires k < |groups|
    ensures Elements(groups[k]) <= Union(groups)
  {
    if k < |groups| - 1 {
      UnionHolds(groups[..|groups| - 1], k);
    }
  }

  ghost predicate Listed(adj: Adjacency, groups: seq<seq<Id>>, used: set<Id>) {
    && OnlyComponents(adj, groups) && Apart(groups)
    && used == Union(groups) && used <= adj.Keys && ClosedUnder(adj, used, used)
  }

  lemma SameComponent(adj: Adjacency, u: Id, v: Id)
    requires Undirected(adj) && u in adj && v in Component(adj, u)
    ensures Component(adj, v) == Component(adj, u)
  {
    forall w | w in adj ensures Connected(adj, u, w) <==> Connected(adj, v, w) {
      ConnectedSym(adj, u, v);
      if Connected(adj, u, w) {
        ConnectedTrans(adj, v, u, w);
      }
      if Connected(adj, v, w) {
        ConnectedTrans(adj, u, v, w);
      }
    }
  }

  lemma AddApart(groups: seq<seq<Id>>, group: seq<Id>)
    requires Apart(groups) && Elements(group) !! Union(groups)
    ensures Apart(groups + [group])
  {
    forall k | 0 <= k < |groups| ensures Elements(groups[k]) !! Elements(group) {
      UnionHolds(groups, k);
    }
  }

  lemma ComponentIsClosed(adj: Adjacency, root: Id)
    requires Undirected(adj) && root in adj
    ensures ClosedUnder(adj, Component(adj, root), Component(adj, root))
  {
    forall x, y | x in Component(adj, root) && x in adj && y in adj[x] ensures y in Component(adj, root) {
      ConnectedStep(adj, root, x, y);
    }
  }

  lemma ClosedUnion(adj: Adjacency, s: set<Id>, t: set<Id>)
    requires ClosedUnder(adj, s, s) && ClosedUnder(adj, t, t)
    ensures ClosedUnder(adj, s + t, s + t)
  {
  }

  lemma AddOnly(adj: Adjacency, groups: seq<seq<Id>>, group: seq<Id>)
    requires OnlyComponents(adj, groups) && IsComponent(adj, group)
    ensures OnlyComponents(adj, groups + [group])
  {
  }

  lemma AddComponent(adj: Adjacency, groups: seq<seq<Id>>, used: set<Id>, root: Id, group: seq<Id>)
    requires Undirected(adj) && Listed(adj, groups, used) && root in adj && IsListing(group, Component(adj, root))
    requires Elements(group) !! used
    ensures Listed(adj, groups + [group], used + Elements(group))
  {
    AddApart(groups, group);
    ComponentIsClosed(adj, root);
    ClosedUnion(adj, used, Elements(group));
    assert IsComponent(adj, group);
    AddOnly(adj, groups, group);
    assert (groups + [group])[..|groups|] == groups;
  }

  /** The outer loop over sorted roots. */
  method ConnectedComponents(adj: Adjacency) returns (groups: seq<seq<Id>>)
    requires Undirected(adj)
    ensures AreComponents(adj, groups)
  {
    groups := [];
    var used: set<Id> := {};
    var roots := SortSet(adj.Keys);
    for i := 0 to |roots|
      invariant Listed(adj, groups, used)
      invariant forall k :: 0 <= k < i ==> roots[k] in used
    {
      var root := roots[i];
      assert root in Elements(roots);
      if root in used {
        continue;
      }
      var component := Explore(adj, root, used);
      ConnectedRefl(adj, root);
      var group := SortSet(Elements(component));
      AddComponent(adj, groups, used, root, group);
      used := used + Elements(component);
      groups := groups + [group];
    }
    forall u | u in adj ensures u in used {
      assert u in Elements(roots);
    }
  }
}
