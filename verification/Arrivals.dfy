/**
 Which arrival a neuron keeps. In one hop it may be reached any number of times, from several
 frontier neurons and with other targets in between. The comparison in the inner loop suggests that
 the strongest arrival wins; it is the first one that is strong enough.
 */
module Arrivals {
  import opened Options
  import opened SpreadingActivation
  import opened ActivationTheorems

  /** One attempt of the inner loops: the hop tried from a frontier neuron, and what it would push. */
  datatype Arrival = Arrival(from: NeuronId, hop: Hop, value: real)

  function Pushes(id: NeuronId, push: Hop -> real, hops: seq<Hop>): seq<Arrival> {
    if hops == [] then []
    else Pushes(id, push, hops[..|hops| - 1]) + [Arrival(id, hops[|hops| - 1], push(hops[|hops| - 1]))]
  }

  function TriedFrom(g: Graph, a: Activation, decay: real, id: NeuronId): seq<Arrival> {
    if Value(a, id) < SPREAD_THRESHOLD then [] else Pushes(id, Push(a[id], decay), HopsFrom(g, id))
  }

  /** All attempts of a hop, frontier neuron by frontier neuron. */
  function Tried(g: Graph, a: Activation, decay: real, ids: seq<NeuronId>): seq<Arrival> {
    if ids == [] then []
    else Tried(g, a, decay, ids[..|ids| - 1]) + TriedFrom(g, a, decay, ids[|ids| - 1])
  }

  predicate Qualifies(x: Arrival, n: NeuronId) {
    Head(x.hop) == n && x.value >= ARRIVAL_THRESHOLD
  }

  function FirstAt(tried: seq<Arrival>, n: NeuronId): Option<Arrival> {
    if tried == [] then None
    else
      var before := FirstAt(tried[..|tried| - 1], n);
      if before.None? && Qualifies(tried[|tried| - 1], n) then Some(tried[|tried| - 1]) else before
  }

  /** FirstAt is the qualifying attempt with nothing qualifying before it. */
  lemma {:induction false} FirstAtIsFirst(tried: seq<Arrival>, n: NeuronId)
    ensures FirstAt(tried, n).None? <==> forall k :: 0 <= k < |tried| ==> !Qualifies(tried[k], n)
    ensures FirstAt(tried, n).Some? ==>
      exists k :: 0 <= k < |tried| && tried[k] == FirstAt(tried, n).value && Qualifies(tried[k], n)
        && forall j :: 0 <= j < k ==> !Qualifies(tried[j], n)
  {
    if tried != [] {
      var m := |tried| - 1;
      FirstAtIsFirst(tried[..m], n);
      if FirstAt(tried[..m], n).Some? {
        var k :| 0 <= k < m && tried[..m][k] == FirstAt(tried[..m], n).value && Qualifies(tried[..m][k], n)
          && forall j :: 0 <= j < k ==> !Qualifies(tried[..m][j], n);
        assert tried[k] == FirstAt(tried, n).value && forall j :: 0 <= j < k ==> tried[j] == tried[..m][j];
      } else {
        assert forall j :: 0 <= j < m ==> tried[j] == tried[..m][j];
      }
    }
  }

  // ----- what a wave records -----

  /** Of a neuron known before the hop nothing changes; of a new one the first qualifying attempt is
      recorded, with its value and its path, or nothing at all. */
  ghost predicate RecordsAt(w: Wave, paths: Paths, tried: seq<Arrival>, n: NeuronId) {
    if n in paths then
      n in w.paths && w.paths[n] == paths[n] && n !in w.arrived && n !in w.next
    else
      match FirstAt(tried, n)
      case None => n !in w.paths && n !in w.arrived && n !in w.next
      case Some(x) =>
        && n in w.paths && w.paths[n] == PathOf(paths, x.from) + [x.hop]
        && n in w.arrived && w.arrived[n] == x.value && n in w.next
  }

  ghost predicate Records(w: Wave, paths: Paths, tried: seq<Arrival>) {
    forall n :: RecordsAt(w, paths, tried, n)
  }

  lemma FirstAtSnoc(tried: seq<Arrival>, x: Arrival, n: NeuronId)
    ensures FirstAt(tried + [x], n) ==
      if FirstAt(tried, n).None? && Qualifies(x, n) then Some(x) else FirstAt(tried, n)
  {
    assert (tried + [x])[..|tried|] == tried;
  }

  lemma TryRecords(w: Wave, paths: Paths, tried: seq<Arrival>, current: NeuronId, push: Hop -> real, h: Hop)
    requires Records(w, paths, tried) && current in paths
    ensures Records(Try(w, current, push, h), paths, tried + [Arrival(current, h, push(h))])
  {
    var w', x := Try(w, current, push, h), Arrival(current, h, push(h));
    assert RecordsAt(w, paths, tried, current) && RecordsAt(w, paths, tried, Head(h));
    forall n ensures RecordsAt(w', paths, tried + [x], n) {
      assert RecordsAt(w, paths, tried, n);
      FirstAtSnoc(tried, x, n);
    }
  }

  lemma {:induction false} TryAllRecords(w: Wave, paths: Paths, tried: seq<Arrival>, current: NeuronId, push: Hop -> real, hops: seq<Hop>)
    requires Records(w, paths, tried) && current in paths
    ensures Records(TryAll(w, current, push, hops), paths, tried + Pushes(current, push, hops))
  {
    if hops == [] {
      assert tried + [] == tried;
    } else {
      var n := |hops| - 1;
      var earlier, last := Pushes(current, push, hops[..n]), Arrival(current, hops[n], push(hops[n]));
      TryAllRecords(w, paths, tried, current, push, hops[..n]);
      TryRecords(TryAll(w, current, push, hops[..n]), paths, tried + earlier, current, push, hops[n]);
      assert tried + (earlier + [last]) == (tried + earlier) + [last];
    }
  }

  lemma {:induction false} ExpandAllRecords(g: Graph, a: Activation, decay: real, paths: Paths, ids: seq<NeuronId>)
    requires forall id :: id in ids ==> id in paths
    ensures Records(ExpandAll(g, a, decay, Wave(paths, map[], {}), ids), paths, Tried(g, a, decay, ids))
  {
    if ids != [] {
      var n := |ids| - 1;
      var w := ExpandAll(g, a, decay, Wave(paths, map[], {}), ids[..n]);
      ExpandAllRecords(g, a, decay, paths, ids[..n]);
      if Value(a, ids[n]) < SPREAD_THRESHOLD {
        assert Tried(g, a, decay, ids[..n]) + [] == Tried(g, a, decay, ids[..n]);
      } else {
        TryAllRecords(w, paths, Tried(g, a, decay, ids[..n]), ids[n], Push(a[ids[n]], decay), HopsFrom(g, ids[n]));
      }
    }
  }

  // ----- over a whole hop -----

  /** The attempts of a hop from f, in the order the frontier is listed. */
  function TriedInHop(g: Graph, order: Order, f: Field, hop: nat): seq<Arrival> {
    Tried(g, f.activation, Decay(hop + 1), order(f.frontier))
  }

  /** Frontier neurons are known, and only known neurons are activated. */
  ghost predicate Sound(order: Order, f: Field) {
    && f.activation.Keys == f.paths.Keys
    && forall id :: id in order(f.frontier) ==> id in f.paths
  }

  /** A hop leaves known neurons alone; a new neuron gets activation and path of the first qualifying
      attempt at it, and is not activated if there is none. */
  lemma FirstDiscoveryWins(g: Graph, order: Order, f: Field, hop: nat, n: NeuronId)
    requires Sound(order, f)
    ensures var f', first := OneHop(g, order, f, hop), FirstAt(TriedInHop(g, order, f, hop), n);
      if n in f.activation then
        n in f'.activation && f'.activation[n] == f.activation[n] && n in f'.paths && f'.paths[n] == f.paths[n] && n !in f'.frontier
      else if first.None? then
        n !in f'.activation && n !in f'.paths && n !in f'.frontier
      else
        && n in f'.activation && f'.activation[n] == first.value.value && n in f'.frontier
        && n in f'.paths && f'.paths[n] == PathOf(f.paths, first.value.from) + [first.value.hop]
  {
    var ids := order(f.frontier);
    ExpandAllRecords(g, f.activation, Decay(hop + 1), f.paths, ids);
    var w := ExpandAll(g, f.activation, Decay(hop + 1), Wave(f.paths, map[], {}), ids);
    assert RecordsAt(w, f.paths, Tried(g, f.activation, Decay(hop + 1), ids), n);
  }

  /** v is the largest of the qualifying values at n. */
  ghost predicate IsLargest(tried: seq<Arrival>, n: NeuronId, v: real) {
    && (exists k :: 0 <= k < |tried| && Qualifies(tried[k], n) && tried[k].value == v)
    && forall k :: 0 <= k < |tried| && Qualifies(tried[k], n) ==> tried[k].value <= v
  }

  /** So a newly reached neuron keeps the largest of its arrivals exactly if no later attempt is
      stronger than the first qualifying one. */
  lemma KeepsLargestIff(g: Graph, order: Order, f: Field, hop: nat, n: NeuronId, k: nat)
    requires Sound(order, f) && n !in f.activation
    requires k < |TriedInHop(g, order, f, hop)| && Qualifies(TriedInHop(g, order, f, hop)[k], n)
    requires forall j :: 0 <= j < k ==> !Qualifies(TriedInHop(g, order, f, hop)[j], n)
    ensures n in OneHop(g, order, f, hop).activation
    ensures var tried := TriedInHop(g, order, f, hop);
      IsLargest(tried, n, OneHop(g, order, f, hop).activation[n]) <==>
        forall j :: k < j < |tried| && Qualifies(tried[j], n) ==> tried[j].value <= tried[k].value
  {
    var tried := TriedInHop(g, order, f, hop);
    FirstDiscoveryWins(g, order, f, hop, n);
    FirstAtIsFirst(tried, n);
    var i :| 0 <= i < |tried| && tried[i] == FirstAt(tried, n).value && Qualifies(tried[i], n)
      && forall j :: 0 <= j < i ==> !Qualifies(tried[j], n);
    assert i == k;
  }

  // ----- every hop of the loop -----

  /** The field before hop k of the loop. */
  function FieldAt(g: Graph, order: Order, seeds: Activation, k: nat): Field {
    if k == 0 then SeedField(seeds) else OneHop(g, order, FieldAt(g, order, seeds, k - 1), k - 1)
  }

  lemma {:induction false} FieldAtInv(g: Graph, order: Order, seeds: Activation, k: nat)
    requires WellIndexed(g) && Lists(order)
    ensures FieldInv(Walks(g, seeds), FieldAt(g, order, seeds, k), k) && Closed(g, FieldAt(g, order, seeds, k), k)
    ensures Sound(order, FieldAt(g, order, seeds, k))
  {
    if k == 0 {
      SeedFieldInv(g, seeds);
    } else {
      FieldAtInv(g, order, seeds, k - 1);
      OneHopKeeps(g, order, seeds, FieldAt(g, order, seeds, k - 1), k - 1);
    }
    InvIsSound(Walks(g, seeds), order, FieldAt(g, order, seeds, k), k);
  }

  lemma InvIsSound(good: Property, order: Order, f: Field, k: nat)
    requires FieldInv(good, f, k) && Lists(order)
    ensures Sound(order, f)
  {
  }

  /** What the loop returns is the field after some hop, so all of the above holds of it, hop by hop. */
  lemma {:induction false} SpreadIsFieldAt(g: Graph, order: Order, seeds: Activation, k: nat, depth: nat) returns (last: nat)
    requires k <= depth
    ensures k <= last <= depth && Spread(g, order, FieldAt(g, order, seeds, k), k, depth) == FieldAt(g, order, seeds, last)
    decreases depth - k
  {
    if k == depth {
      last := k;
    } else {
      SpreadStep(g, order, FieldAt(g, order, seeds, k), k, depth);
      if FieldAt(g, order, seeds, k + 1).frontier == {} {
        last := k + 1;
      } else {
        last := SpreadIsFieldAt(g, order, seeds, k + 1, depth);
      }
    }
  }

  // ----- the order of a set decides -----

  const WEAK := Edge("a", "n", "related_to", 0.5, 1.0)
  const STRONG := Edge("b", "n", "related_to", 1.0, 1.0)
  const FORK := Graph(map["a" := [WEAK], "b" := [STRONG]], map["n" := [WEAK, STRONG]])
  const ENDS := SeedField(map["a" := 1.0, "b" := 1.0])

  function Attempt(id: NeuronId): Arrival {
    if id == "a" then Arrival("a", Forward(WEAK), 0.275) else Arrival("b", Forward(STRONG), 0.55)
  }

  lemma OnePush(id: NeuronId, push: Hop -> real, h: Hop)
    ensures Pushes(id, push, [h]) == [Arrival(id, h, push(h))]
  {
    assert [h][..0] == [];
  }

  lemma ForkAttempts(id: NeuronId)
    requires id == "a" || id == "b"
    ensures TriedFrom(FORK, ENDS.activation, 0.55, id) == [Attempt(id)]
  {
    var h := Attempt(id).hop;
    assert HopsFrom(FORK, id) == [h];
    OnePush(id, Push(1.0, 0.55), h);
    assert Push(1.0, 0.55)(h) == Attempt(id).value;
  }

  lemma ForkTried(first: NeuronId, second: NeuronId)
    requires {first, second} == {"a", "b"}
    ensures Tried(FORK, ENDS.activation, 0.55, [first, second]) == [Attempt(first)] + [Attempt(second)]
  {
    ForkAttempts(first);
    ForkAttempts(second);
    assert [first, second][..1] == [first] && [first][..0] == [];
    assert Tried(FORK, ENDS.activation, 0.55, [first]) == [Attempt(first)];
  }

  lemma ForkOutcome(order: Order, first: NeuronId, second: NeuronId)
    requires {first, second} == {"a", "b"} && order({"a", "b"}) == [first, second]
    ensures "n" in OneHop(FORK, order, ENDS, 0).activation
    ensures OneHop(FORK, order, ENDS, 0).activation["n"] == Attempt(first).value
  {
    assert ENDS.frontier == {"a", "b"} && Decay(1) == 0.55;
    ForkTried(first, second);
    FirstAtSnoc([], Attempt(first), "n");
    FirstAtSnoc([Attempt(first)], Attempt(second), "n");
    assert [] + [Attempt(first)] == [Attempt(first)];
    FirstDiscoveryWins(FORK, order, ENDS, 0, "n");
  }

  /** Two seeds with one neighbour: which activation the neighbour gets, the larger or the smaller,
      depends on the order in which the set of seeds happens to be listed. */
  lemma SetOrderDecides(order: Order, order': Order)
    requires order({"a", "b"}) == ["a", "b"] && order'({"a", "b"}) == ["b", "a"]
    ensures "n" in OneHop(FORK, order, ENDS, 0).activation && "n" in OneHop(FORK, order', ENDS, 0).activation
    ensures OneHop(FORK, order, ENDS, 0).activation["n"] == 0.275
    ensures OneHop(FORK, order', ENDS, 0).activation["n"] == 0.55
  {
    ForkOutcome(order, "a", "b");
    ForkOutcome(order', "b", "a");
  }
}
