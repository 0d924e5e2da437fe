/** What spreading activation computes, for every graph, seed set, depth and iteration order. */
module ActivationTheorems {
  import opened Finite
  import opened SpreadingActivation

  // ----- walks -----

  /** The hops form a walk of the graph from some seed to n. */
  ghost predicate IsWalk(g: Graph, seeds: Activation, hops: seq<Hop>, n: NeuronId) {
    if hops == [] then n in seeds
    else
      var h := hops[|hops| - 1];
      Head(h) == n && h in HopsFrom(g, Tail(h)) && IsWalk(g, seeds, hops[..|hops| - 1], Tail(h))
  }

  /** Seed score times, for the i-th hop, DECAY_PER_HOP ** i and the gain of its synapse. */
  ghost function WalkValue(seeds: Activation, hops: seq<Hop>, n: NeuronId): real {
    if hops == [] then Value(seeds, n)
    else
      var h := hops[|hops| - 1];
      Push(WalkValue(seeds, hops[..|hops| - 1], Tail(h)), Decay(|hops|))(h)
  }

  /** The index files every synapse under its own ends. */
  ghost predicate WellIndexed(g: Graph) {
    forall id, h :: h in HopsFrom(g, id) ==> Tail(h) == id
  }

  lemma ForwardMembers(es: seq<Edge>, h: Hop)
    ensures h in Forwards(es) <==> h.Forward? && h.edge in es
  {
    if h.Forward? && h.edge in es {
      var i :| 0 <= i < |es| && es[i] == h.edge;
      assert Forwards(es)[i] == h;
    }
  }

  lemma BackwardMembers(es: seq<Edge>, h: Hop)
    ensures h in Backwards(es) <==> h.Backward? && h.edge in es
  {
    if h.Backward? && h.edge in es {
      var i :| 0 <= i < |es| && es[i] == h.edge;
      assert Backwards(es)[i] == h;
    }
  }

  /** The hops out of a neuron are the stored synapses it is an end of. */
  lemma HopMembers(g: Graph, rows: seq<Edge>, id: NeuronId, h: Hop)
    requires Indexes(g, rows)
    ensures h in HopsFrom(g, id) <==> h.edge in rows && Tail(h) == id
  {
    ForwardMembers(EdgesOf(g.outgoing, id), h);
    BackwardMembers(EdgesOf(g.incoming, id), h);
    LeavingMembers(rows, id, h.edge);
    EnteringMembers(rows, id, h.edge);
  }

  /** A loaded index is well indexed. */
  lemma LoadedIsWellIndexed(g: Graph, rows: seq<Edge>)
    requires Indexes(g, rows)
    ensures WellIndexed(g)
  {
    forall id, h | h in HopsFrom(g, id) ensures Tail(h) == id {
      HopMembers(g, rows, id, h);
    }
  }

  ghost predicate Lists(order: Order) {
    forall s :: forall x :: x in order(s) <==> x in s
  }

  // ----- the invariant of the hop loop, for any property of paths that hops extend -----

  type Property = (seq<Hop>, NeuronId, real) -> bool

  ghost predicate FieldInv(good: Property, f: Field, k: nat) {
    && f.activation.Keys == f.paths.Keys
    && (forall n :: n in f.activation ==> good(f.paths[n], n, f.activation[n]) && |f.paths[n]| <= k)
    && (forall n :: n in f.frontier <==> n in f.paths && |f.paths[n]| == k)
  }

  /** Every hop out of n that pushes enough leads into the set. */
  ghost predicate Covers(hops: seq<Hop>, push: Hop -> real, reached: set<NeuronId>) {
    forall h :: h in hops && push(h) >= ARRIVAL_THRESHOLD ==> Head(h) in reached
  }

  ghost predicate ClosedAt(g: Graph, f: Field, n: NeuronId)
    requires n in f.activation && n in f.paths
  {
    f.activation[n] >= SPREAD_THRESHOLD ==>
      Covers(HopsFrom(g, n), Push(f.activation[n], Decay(|f.paths[n]| + 1)), f.activation.Keys)
  }

  /** Everything within threshold of an already expanded neuron is activated. */
  ghost predicate Closed(g: Graph, f: Field, k: nat)
    requires f.activation.Keys == f.paths.Keys
  {
    forall n :: n in f.paths && |f.paths[n]| < k ==> ClosedAt(g, f, n)
  }

  ghost predicate WaveInv(good: Property, f: Field, k: nat, w: Wave) {
    && (forall n :: n in f.paths ==> n in w.paths && w.paths[n] == f.paths[n])
    && w.paths.Keys == f.paths.Keys + w.arrived.Keys
    && f.paths.Keys !! w.arrived.Keys
    && w.next == w.arrived.Keys
    && (forall n :: n in w.arrived ==> good(w.paths[n], n, w.arrived[n]) && |w.paths[n]| == k + 1)
  }

  /** Pushing along the hop yields a good longer path. */
  ghost predicate Extends(good: Property, path: seq<Hop>, push: Hop -> real, h: Hop) {
    push(h) >= ARRIVAL_THRESHOLD ==> good(path + [h], Head(h), push(h))
  }

  lemma TryKeeps(good: Property, f: Field, k: nat, w: Wave, current: NeuronId, push: Hop -> real, h: Hop)
    requires FieldInv(good, f, k) && WaveInv(good, f, k, w) && current in f.frontier
    requires Extends(good, f.paths[current], push, h)
    ensures var w' := Try(w, current, push, h);
      WaveInv(good, f, k, w') && w.paths.Keys <= w'.paths.Keys && (push(h) >= ARRIVAL_THRESHOLD ==> Head(h) in w'.paths)
  {
    assert w.paths[current] == f.paths[current];
  }

  lemma {:induction false} TryAllKeeps(good: Property, f: Field, k: nat, w: Wave, current: NeuronId, push: Hop -> real, hops: seq<Hop>)
    requires FieldInv(good, f, k) && WaveInv(good, f, k, w) && current in f.frontier
    requires forall h :: h in hops ==> Extends(good, f.paths[current], push, h)
    ensures var w' := TryAll(w, current, push, hops);
      WaveInv(good, f, k, w') && w.paths.Keys <= w'.paths.Keys && Covers(hops, push, w'.paths.Keys)
  {
    if hops != [] {
      var n := |hops| - 1;
      TryAllKeeps(good, f, k, w, current, push, hops[..n]);
      var w1 := TryAll(w, current, push, hops[..n]);
      TryKeeps(good, f, k, w1, current, push, hops[n]);
      var w2 := Try(w1, current, push, hops[n]);
      forall h | h in hops && push(h) >= ARRIVAL_THRESHOLD ensures Head(h) in w2.paths {
        assert h in hops[..n] || h == hops[n];
      }
    }
  }

  ghost predicate ExtendsFrom(good: Property, g: Graph, f: Field, k: nat, id: NeuronId)
    requires id in f.activation && id in f.paths
  {
    f.activation[id] >= SPREAD_THRESHOLD ==>
      forall h :: h in HopsFrom(g, id) ==> Extends(good, f.paths[id], Push(f.activation[id], Decay(k + 1)), h)
  }

  ghost predicate Covered(g: Graph, f: Field, k: nat, reached: set<NeuronId>, id: NeuronId)
    requires id in f.activation
  {
    f.activation[id] >= SPREAD_THRESHOLD ==> Covers(HopsFrom(g, id), Push(f.activation[id], Decay(k + 1)), reached)
  }

  lemma ExpandKeeps(good: Property, g: Graph, f: Field, k: nat, w: Wave, id: NeuronId)
    requires FieldInv(good, f, k) && WaveInv(good, f, k, w) && id in f.frontier && ExtendsFrom(good, g, f, k, id)
    ensures var w' := Expand(g, f.activation, Decay(k + 1), w, id);
      WaveInv(good, f, k, w') && w.paths.Keys <= w'.paths.Keys && Covered(g, f, k, w'.paths.Keys, id)
  {
    if f.activation[id] >= SPREAD_THRESHOLD {
      TryAllKeeps(good, f, k, w, id, Push(f.activation[id], Decay(k + 1)), HopsFrom(g, id));
    }
  }

  lemma {:induction false} ExpandAllKeeps(good: Property, g: Graph, f: Field, k: nat, ids: seq<NeuronId>)
    requires FieldInv(good, f, k) && forall id :: id in ids ==> id in f.frontier && ExtendsFrom(good, g, f, k, id)
    ensures var w := ExpandAll(g, f.activation, Decay(k + 1), Wave(f.paths, map[], {}), ids);
      WaveInv(good, f, k, w) && forall id :: id in ids ==> Covered(g, f, k, w.paths.Keys, id)
  {
    if ids != [] {
      var n := |ids| - 1;
      ExpandAllKeeps(good, g, f, k, ids[..n]);
      var w := ExpandAll(g, f.activation, Decay(k + 1), Wave(f.paths, map[], {}), ids[..n]);
      ExpandKeeps(good, g, f, k, w, ids[n]);
      var w' := Expand(g, f.activation, Decay(k + 1), w, ids[n]);
      forall id | id in ids ensures Covered(g, f, k, w'.paths.Keys, id) {
        if id != ids[n] {
          assert id in ids[..n];
          CoveredGrows(g, f, k, w.paths.Keys, w'.paths.Keys, id);
        }
      }
    }
  }

  lemma CoveredGrows(g: Graph, f: Field, k: nat, a: set<NeuronId>, b: set<NeuronId>, id: NeuronId)
    requires id in f.activation && Covered(g, f, k, a, id) && a <= b
    ensures Covered(g, f, k, b, id)
  {
  }

  /** g and the property fit together at layer k. */
  ghost predicate Fits(good: Property, g: Graph, f: Field, k: nat)
    requires f.activation.Keys == f.paths.Keys
  {
    forall id :: id in f.paths && |f.paths[id]| == k ==> ExtendsFrom(good, g, f, k, id)
  }

  lemma OneHopKeepsInv(good: Property, g: Graph, order: Order, f: Field, k: nat)
    requires FieldInv(good, f, k) && Fits(good, g, f, k) && Lists(order)
    ensures var f' := OneHop(g, order, f, k);
      FieldInv(good, f', k + 1)
      && forall n :: n in f.activation ==> n in f'.activation && f'.activation[n] == f.activation[n] && f'.paths[n] == f.paths[n]
  {
    var ids := order(f.frontier);
    ExpandAllKeeps(good, g, f, k, ids);
  }

  lemma OneHopCloses(good: Property, g: Graph, order: Order, f: Field, k: nat)
    requires FieldInv(good, f, k) && Fits(good, g, f, k) && Closed(g, f, k) && Lists(order)
    requires FieldInv(good, OneHop(g, order, f, k), k + 1)
    ensures Closed(g, OneHop(g, order, f, k), k + 1)
  {
    var ids := order(f.frontier);
    ExpandAllKeeps(good, g, f, k, ids);
    var w := ExpandAll(g, f.activation, Decay(k + 1), Wave(f.paths, map[], {}), ids);
    var f' := OneHop(g, order, f, k);
    assert f'.activation.Keys == w.paths.Keys;
    forall n | n in f'.paths && |f'.paths[n]| < k + 1 ensures ClosedAt(g, f', n) {
      assert n in f.paths && f'.paths[n] == f.paths[n] && f'.activation[n] == f.activation[n];
      if |f.paths[n]| == k {
        assert n in f.frontier && n in ids;
        assert Covered(g, f, k, w.paths.Keys, n);
      } else {
        assert ClosedAt(g, f, n);
      }
    }
  }

  // ----- instantiated: paths are walks and activations their values -----

  /** The hops walk from a seed to n and v is their value; only a seed may be below the threshold of
      arrival, and nothing passes on what is below that of spreading. */
  ghost predicate Reached(g: Graph, seeds: Activation, hops: seq<Hop>, n: NeuronId, v: real) {
    IsWalk(g, seeds, hops, n) && WalkValue(seeds, hops, n) == v && Strong(seeds, hops, v)
  }

  ghost predicate Strong(seeds: Activation, hops: seq<Hop>, v: real) {
    hops != [] ==> v >= ARRIVAL_THRESHOLD && WalkValue(seeds, hops[..|hops| - 1], Tail(hops[|hops| - 1])) >= SPREAD_THRESHOLD
  }

  ghost function Walks(g: Graph, seeds: Activation): Property {
    (hops: seq<Hop>, n: NeuronId, v: real) => Reached(g, seeds, hops, n, v)
  }

  lemma LongerWalk(g: Graph, seeds: Activation, hops: seq<Hop>, n: NeuronId, v: real, h: Hop)
    requires Reached(g, seeds, hops, n, v) && h in HopsFrom(g, n) && Tail(h) == n && v >= SPREAD_THRESHOLD
    ensures Extends(Walks(g, seeds), hops, Push(v, Decay(|hops| + 1)), h)
  {
    var path, push := hops + [h], Push(v, Decay(|hops| + 1));
    assert path[..|path| - 1] == hops;
    WalkValueOf(seeds, path, hops, h, n, push);
  }

  lemma WalkValueOf(seeds: Activation, path: seq<Hop>, hops: seq<Hop>, h: Hop, n: NeuronId, push: Hop -> real)
    requires path != [] && path[..|path| - 1] == hops && path[|path| - 1] == h && Tail(h) == n
    requires push == Push(WalkValue(seeds, hops, n), Decay(|path|))
    ensures WalkValue(seeds, path, Head(h)) == push(h)
  {
  }

  lemma WalksFit(g: Graph, seeds: Activation, f: Field, k: nat)
    requires WellIndexed(g) && FieldInv(Walks(g, seeds), f, k)
    ensures Fits(Walks(g, seeds), g, f, k)
  {
    forall id, h | id in f.paths && |f.paths[id]| == k && h in HopsFrom(g, id) && f.activation[id] >= SPREAD_THRESHOLD
      ensures Extends(Walks(g, seeds), f.paths[id], Push(f.activation[id], Decay(k + 1)), h)
    {
      assert Walks(g, seeds)(f.paths[id], id, f.activation[id]);
      LongerWalk(g, seeds, f.paths[id], id, f.activation[id], h);
    }
  }

  /** One hop keeps the invariant, keeps all it had, and closes the frontier it expanded. */
  lemma OneHopKeeps(g: Graph, order: Order, seeds: Activation, f: Field, k: nat)
    requires FieldInv(Walks(g, seeds), f, k) && Closed(g, f, k) && WellIndexed(g) && Lists(order)
    ensures FieldInv(Walks(g, seeds), OneHop(g, order, f, k), k + 1) && Closed(g, OneHop(g, order, f, k), k + 1)
  {
    WalksFit(g, seeds, f, k);
    OneHopKeepsInv(Walks(g, seeds), g, order, f, k);
    OneHopCloses(Walks(g, seeds), g, order, f, k);
  }

  /** The whole loop from any hop on. */
  lemma {:induction false} SpreadKeeps(g: Graph, order: Order, seeds: Activation, f: Field, k: nat, depth: nat) returns (last: nat)
    requires FieldInv(Walks(g, seeds), f, k) && Closed(g, f, k) && WellIndexed(g) && Lists(order) && k <= depth
    ensures var r := Spread(g, order, f, k, depth);
      && FieldInv(Walks(g, seeds), r, last) && Closed(g, r, last)
      && last <= depth && (last == depth || r.frontier == {})
    decreases depth - k
  {
    if k == depth {
      last := k;
    } else {
      OneHopKeeps(g, order, seeds, f, k);
      var f' := OneHop(g, order, f, k);
      if f'.frontier == {} {
        last := k + 1;
      } else {
        last := SpreadKeeps(g, order, seeds, f', k + 1, depth);
      }
    }
  }

  lemma SeedFieldInv(g: Graph, seeds: Activation)
    ensures FieldInv(Walks(g, seeds), SeedField(seeds), 0) && Closed(g, SeedField(seeds), 0)
  {
    forall n | n in seeds ensures Walks(g, seeds)([], n, seeds[n]) {
      assert Reached(g, seeds, [], n, seeds[n]);
    }
  }

  lemma InvGivesReached(g: Graph, seeds: Activation, f: Field, k: nat, n: NeuronId)
    requires FieldInv(Walks(g, seeds), f, k) && n in f.activation
    ensures n in f.paths && Reached(g, seeds, f.paths[n], n, f.activation[n]) && |f.paths[n]| <= k
  {
    assert Walks(g, seeds)(f.paths[n], n, f.activation[n]);
  }

  // ----- main results -----

  /** Every activated neuron is reached by a walk from a seed of at most `depth` hops, and its
      activation is exactly the value of that walk. */
  lemma ActivationIsWalkValue(g: Graph, order: Order, seeds: Activation, depth: nat, n: NeuronId)
    requires WellIndexed(g) && Lists(order)
    requires n in Spread(g, order, SeedField(seeds), 0, depth).activation
    ensures var r := Spread(g, order, SeedField(seeds), 0, depth);
      && n in r.paths && |r.paths[n]| <= depth
      && IsWalk(g, seeds, r.paths[n], n)
      && r.activation[n] == WalkValue(seeds, r.paths[n], n)
  {
    SeedFieldInv(g, seeds);
    var last := SpreadKeeps(g, order, seeds, SeedField(seeds), 0, depth);
    var r := Spread(g, order, SeedField(seeds), 0, depth);
    InvGivesReached(g, seeds, r, last, n);
  }

  /** The result is closed: whatever an expanded neuron can push over the threshold is activated. */
  lemma ActivationIsClosed(g: Graph, order: Order, seeds: Activation, depth: nat, r: Field, n: NeuronId, h: Hop)
    requires WellIndexed(g) && Lists(order) && r == Spread(g, order, SeedField(seeds), 0, depth)
    requires n in r.activation && n in r.paths && |r.paths[n]| < depth && r.activation[n] >= SPREAD_THRESHOLD
    requires h in HopsFrom(g, n) && Push(r.activation[n], Decay(|r.paths[n]| + 1))(h) >= ARRIVAL_THRESHOLD
    ensures Head(h) in r.activation
  {
    SeedFieldInv(g, seeds);
    var last := SpreadKeeps(g, order, seeds, SeedField(seeds), 0, depth);
    ClosedInstance(Walks(g, seeds), g, r, last, n, h, Push(r.activation[n], Decay(|r.paths[n]| + 1)));
  }

  lemma ClosedInstance(good: Property, g: Graph, f: Field, last: nat, n: NeuronId, h: Hop, push: Hop -> real)
    requires FieldInv(good, f, last) && Closed(g, f, last) && n in f.activation
    requires n !in f.frontier && f.activation[n] >= SPREAD_THRESHOLD
    requires push == Push(f.activation[n], Decay(|f.paths[n]| + 1)) && h in HopsFrom(g, n) && push(h) >= ARRIVAL_THRESHOLD
    ensures Head(h) in f.activation
  {
    assert ClosedAt(g, f, n);
  }

  // ----- decay bounds -----

  ghost predicate Unit(g: Graph, seeds: Activation) {
    && (forall id, h :: h in HopsFrom(g, id) ==> 0.0 <= h.edge.weight <= 1.0 && 0.0 <= h.edge.confidence <= 1.0)
    && (forall id :: id in seeds ==> 0.0 <= seeds[id] <= 1.0)
  }

  lemma ProductInUnit(x: real, y: real)
    requires 0.0 <= x <= 1.0 && 0.0 <= y <= 1.0
    ensures 0.0 <= x * y <= x
  {
  }

  lemma GainInUnit(h: Hop)
    requires 0.0 <= h.edge.weight <= 1.0 && 0.0 <= h.edge.confidence <= 1.0
    ensures 0.0 <= Gain(h) <= 1.0
  {
    ProductInUnit(h.edge.weight, h.edge.confidence);
    ProductInUnit(BACKWARD_FACTOR, h.edge.weight);
    ProductInUnit(BACKWARD_FACTOR * h.edge.weight, h.edge.confidence);
  }

  /** The decay is applied to values that are already decayed, so it compounds. */
  function Cumulative(k: nat): real {
    if k == 0 then 1.0 else Cumulative(k - 1) * Decay(k)
  }

  lemma {:induction false} DecayAdds(a: nat, b: nat)
    ensures Decay(a + b) == Decay(a) * Decay(b)
  {
    if a != 0 {
      DecayAdds(a - 1, b);
      assert Decay(a + b) == DECAY_PER_HOP * Decay(a - 1 + b);
    }
  }

  /** k(k+1)/2, the sum of the hop numbers. */
  function Triangle(k: nat): nat {
    if k == 0 then 0 else Triangle(k - 1) + k
  }

  lemma {:induction false} TriangleClosedForm(k: nat)
    ensures 2 * Triangle(k) == k * (k + 1)
  {
    if k != 0 {
      TriangleClosedForm(k - 1);
    }
  }

  lemma {:induction false} CumulativeIsPower(k: nat)
    ensures Cumulative(k) == Decay(Triangle(k))
  {
    if k != 0 {
      CumulativeIsPower(k - 1);
      DecayAdds(Triangle(k - 1), k);
    }
  }

  lemma {:induction false} DecayFalls(j: nat, k: nat)
    requires j < k
    ensures 0.0 < Decay(k) < Decay(j)
    decreases k
  {
    DecayPositive(k - 1);
    if j < k - 1 {
      DecayFalls(j, k - 1);
    }
  }

  /** So "each hop multiplies by 0.55" describes paths of at most one hop, and no others. */
  lemma EachHopDecaysAlikeIff(k: nat)
    ensures Cumulative(k) == Decay(k) <==> k <= 1
  {
    CumulativeIsPower(k);
    TriangleClosedForm(k);
    if k > 1 {
      assert k * (k + 1) > 2 * k by {
        assert k * (k + 1) == k * (k - 1) + 2 * k && k * (k - 1) >= 1;
      }
      DecayFalls(k, Triangle(k));
    } else {
      assert Triangle(0) == 0 && Triangle(1) == 1;
    }
  }

  lemma {:induction false} DecayPositive(k: nat)
    ensures 0.0 < Decay(k) <= 1.0
  {
    if k != 0 {
      DecayPositive(k - 1);
    }
  }

  lemma ScaledBound(x: real, bound: real, d: real, gain: real)
    requires 0.0 <= x <= bound && 0.0 <= d && 0.0 <= gain <= 1.0
    ensures 0.0 <= x * d * gain <= bound * d
  {
    assert 0.0 <= x * d <= bound * d;
    assert 0.0 <= (x * d) * gain <= x * d;
  }

  lemma {:induction false} WalkBound(g: Graph, seeds: Activation, hops: seq<Hop>, n: NeuronId)
    requires Unit(g, seeds) && IsWalk(g, seeds, hops, n)
    ensures 0.0 <= WalkValue(seeds, hops, n) <= Cumulative(|hops|)
  {
    if hops != [] {
      var h := hops[|hops| - 1];
      WalkBound(g, seeds, hops[..|hops| - 1], Tail(h));
      GainInUnit(h);
      DecayPositive(|hops|);
      ScaledBound(WalkValue(seeds, hops[..|hops| - 1], Tail(h)), Cumulative(|hops| - 1), Decay(|hops|), Gain(h));
    }
  }

  lemma Shrinks(x: real, d: real)
    requires 0.0 < x && 0.0 < d <= 1.0
    ensures 0.0 < x * d <= x
  {
  }

  lemma {:induction false} CumulativeFalls(j: nat, k: nat)
    requires j <= k
    ensures 0.0 < Cumulative(k) <= Cumulative(j)
    decreases k
  {
    if k != 0 {
      DecayPositive(k);
      CumulativeFalls(if j < k then j else k - 1, k - 1);
      Shrinks(Cumulative(k - 1), Decay(k));
    }
  }

  lemma FourHopsVanish()
    ensures Cumulative(4) < ARRIVAL_THRESHOLD <= Cumulative(3)
  {
    assert Decay(1) == 0.55;
    assert Decay(2) == 0.3025;
    assert Decay(3) == 0.166375;
    assert Decay(4) == 0.09150625;
    assert Cumulative(2) == 0.55 * 0.3025;
    assert Cumulative(3) == 0.55 * 0.3025 * 0.166375;
    assert Cumulative(4) == 0.55 * 0.3025 * 0.166375 * 0.09150625;
  }

  /** With weights, confidences and seed scores in [0, 1], a neuron reached at hop k has activation
      at most DECAY_PER_HOP ** (k(k+1)/2), and no neuron is ever reached beyond three hops. */
  lemma ActivationBound(g: Graph, order: Order, seeds: Activation, depth: nat, n: NeuronId)
    requires WellIndexed(g) && Lists(order) && Unit(g, seeds)
    requires n in Spread(g, order, SeedField(seeds), 0, depth).activation
    ensures var r := Spread(g, order, SeedField(seeds), 0, depth);
      && n in r.paths && |r.paths[n]| <= 3
      && 0.0 <= r.activation[n] <= Decay(Triangle(|r.paths[n]|))
  {
    SeedFieldInv(g, seeds);
    var last := SpreadKeeps(g, order, seeds, SeedField(seeds), 0, depth);
    ReachedBound(g, seeds, Spread(g, order, SeedField(seeds), 0, depth), last, n);
  }

  lemma ReachedBound(g: Graph, seeds: Activation, f: Field, k: nat, n: NeuronId)
    requires FieldInv(Walks(g, seeds), f, k) && Unit(g, seeds) && n in f.activation
    ensures |f.paths[n]| <= 3 && 0.0 <= f.activation[n] <= Decay(Triangle(|f.paths[n]|))
  {
    InvGivesReached(g, seeds, f, k, n);
    var path := f.paths[n];
    WalkBound(g, seeds, path, n);
    CumulativeIsPower(|path|);
    if |path| >= 4 {
      CumulativeFalls(4, |path|);
      FourHopsVanish();
    }
  }

  /** A hop from the third layer on reaches nothing new. */
  lemma FourthHopIsEmpty(g: Graph, order: Order, seeds: Activation, f: Field)
    requires FieldInv(Walks(g, seeds), f, 3) && Closed(g, f, 3) && WellIndexed(g) && Lists(order) && Unit(g, seeds)
    ensures OneHop(g, order, f, 3) == Field(f.activation, f.paths, {})
  {
    OneHopKeeps(g, order, seeds, f, 3);
    var f' := OneHop(g, order, f, 3);
    forall n | n in f'.activation ensures |f'.paths[n]| <= 3 {
      ReachedBound(g, seeds, f', 4, n);
    }
    WalksFit(g, seeds, f, 3);
    EmptyHop(Walks(g, seeds), g, order, f, 3);
  }

  lemma EmptyHop(good: Property, g: Graph, order: Order, f: Field, k: nat)
    requires FieldInv(good, f, k) && Fits(good, g, f, k) && Lists(order)
    requires FieldInv(good, OneHop(g, order, f, k), k + 1)
    requires forall n :: n in OneHop(g, order, f, k).activation ==> |OneHop(g, order, f, k).paths[n]| <= k
    ensures OneHop(g, order, f, k) == Field(f.activation, f.paths, {})
  {
    var ids := order(f.frontier);
    ExpandAllKeeps(good, g, f, k, ids);
    var w := ExpandAll(g, f.activation, Decay(k + 1), Wave(f.paths, map[], {}), ids);
    var f' := OneHop(g, order, f, k);
    assert forall n :: n in w.arrived ==> n in f'.activation;
    assert w.arrived == map[] && w.paths == f.paths;
  }

  /** Depth saturates: every depth from 3 on gives the same activations and paths as depth 3. */
  lemma DepthSaturates(g: Graph, order: Order, seeds: Activation, depth: nat)
    requires WellIndexed(g) && Lists(order) && Unit(g, seeds) && depth >= 3
    ensures SameResult(Spread(g, order, SeedField(seeds), 0, depth), Spread(g, order, SeedField(seeds), 0, 3))
  {
    SeedFieldInv(g, seeds);
    SaturatesFrom(g, order, seeds, SeedField(seeds), 0, depth);
  }

  lemma SpreadStep(g: Graph, order: Order, f: Field, k: nat, depth: nat)
    requires k < depth
    ensures var f' := OneHop(g, order, f, k);
      Spread(g, order, f, k, depth) == if f'.frontier == {} then f' else Spread(g, order, f', k + 1, depth)
  {
  }

  ghost predicate SameResult(r: Field, s: Field) {
    r.activation == s.activation && r.paths == s.paths
  }

  lemma {:induction false} SaturatesFrom(g: Graph, order: Order, seeds: Activation, f: Field, k: nat, depth: nat)
    requires FieldInv(Walks(g, seeds), f, k) && Closed(g, f, k) && k <= 3 <= depth
    requires WellIndexed(g) && Lists(order) && Unit(g, seeds)
    ensures SameResult(Spread(g, order, f, k, depth), Spread(g, order, f, k, 3))
    decreases 3 - k
  {
    if k == 3 {
      LastLayer(g, order, seeds, f, depth);
    } else {
      OneHopKeeps(g, order, seeds, f, k);
      SaturatesFrom(g, order, seeds, OneHop(g, order, f, k), k + 1, depth);
      SaturatesBefore(g, order, f, k, depth);
    }
  }

  lemma SaturatesBefore(g: Graph, order: Order, f: Field, k: nat, depth: nat)
    requires k < 3 <= depth
    requires SameResult(Spread(g, order, OneHop(g, order, f, k), k + 1, depth), Spread(g, order, OneHop(g, order, f, k), k + 1, 3))
    ensures SameResult(Spread(g, order, f, k, depth), Spread(g, order, f, k, 3))
  {
    SpreadStep(g, order, f, k, depth);
    SpreadStep(g, order, f, k, 3);
  }

  lemma LastLayer(g: Graph, order: Order, seeds: Activation, f: Field, depth: nat)
    requires FieldInv(Walks(g, seeds), f, 3) && Closed(g, f, 3) && 3 <= depth
    requires WellIndexed(g) && Lists(order) && Unit(g, seeds)
    ensures SameResult(Spread(g, order, f, 3, depth), Spread(g, order, f, 3, 3))
  {
    if depth > 3 {
      FourthHopIsEmpty(g, order, seeds, f);
      SpreadStep(g, order, f, 3, depth);
    }
  }

  // ----- seeds -----

  lemma RatioInUnit(a: nat, b: nat)
    requires a <= b && b > 0
    ensures 0.0 <= a as real / b as real <= 1.0
  {
  }

  /** Scores lie in [0, 1], and a text containing the query outscores every mere token overlap. */
  lemma OverlapScoreRange(query: string, text: string, queryTokens: set<string>, textTokens: set<string>)
    ensures var score := OverlapScore(query, text, queryTokens, textTokens);
      && 0.0 <= score <= 1.0
      && (text != "" && Contains(text, query) ==> score >= 0.65)
      && (!Contains(text, query) ==> score <= 0.45)
  {
    if text != "" && Contains(text, query) {
      var i :| 0 <= i <= |text| && query <= text[i..];
      RatioInUnit(|query|, |text|);
    } else if text != "" && queryTokens != {} {
      assert queryTokens * textTokens <= queryTokens;
      SubsetSize(queryTokens * textTokens, queryTokens);
      RatioInUnit(|queryTokens * textTokens|, |queryTokens|);
    }
  }

  /** So every seed activation lies in [0, 1], whatever its confidence and age. */
  lemma SeedScoreRange(base: real, confidence: real, recency: real)
    requires 0.0 <= base <= 1.0 && 0.0 <= confidence <= 1.0 && 0.05 <= recency <= 1.0
    ensures 0.0 <= SeedScore(base, confidence, recency) <= base
  {
    var c, t := 0.5 + 0.5 * confidence, 0.6 + 0.4 * recency;
    ProductInUnit(base, c);
    ProductInUnit(base * c, t);
    assert SeedScore(base, confidence, recency) == base * c * t;
  }
}
