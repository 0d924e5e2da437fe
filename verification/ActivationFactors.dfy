/** Activations in numbers: every factor of every hop written out, on the rows of the synapse table. */
module ActivationFactors {
  import opened SpreadingActivation
  import opened ActivationTheorems

  ghost function Power(x: real, k: nat): real {
    if k == 0 then 1.0 else x * Power(x, k - 1)
  }

  /** What the i-th hop of a path multiplies by. */
  ghost function Factor(h: Hop, i: nat): real {
    Power(0.55, i) * h.edge.weight * h.edge.confidence * (if h.Backward? then 0.75 else 1.0)
  }

  ghost function Product(hops: seq<Hop>): real {
    if hops == [] then 1.0 else Product(hops[..|hops| - 1]) * Factor(hops[|hops| - 1], |hops|)
  }

  /** The hops lead through these neurons, along or against stored synapses. */
  ghost predicate Visits(rows: seq<Edge>, hops: seq<Hop>, nodes: seq<NeuronId>) {
    |nodes| == |hops| + 1 && forall i :: 0 <= i < |hops| ==> Joins(rows, hops[i], nodes[i], nodes[i + 1])
  }

  ghost predicate Joins(rows: seq<Edge>, h: Hop, u: NeuronId, v: NeuronId) {
    h.edge in rows && if h.Forward? then h.edge.source == u && h.edge.target == v else h.edge.target == u && h.edge.source == v
  }

  lemma {:induction false} DecayIsPower(k: nat)
    ensures Decay(k) == Power(0.55, k)
  {
    if k != 0 {
      DecayIsPower(k - 1);
    }
  }

  lemma Rearrange(x: real, d: real, w: real, c: real, b: real)
    ensures x * d * (w * c * b) == x * (d * w * c * b)
  {
  }

  lemma GainIs(h: Hop)
    ensures Gain(h) == h.edge.weight * h.edge.confidence * (if h.Backward? then 0.75 else 1.0)
  {
  }

  lemma PushedFactor(x: real, h: Hop, i: nat)
    ensures Push(x, Decay(i))(h) == x * Factor(h, i)
  {
    DecayIsPower(i);
    GainIs(h);
    Rearrange(x, Power(0.55, i), h.edge.weight, h.edge.confidence, if h.Backward? then 0.75 else 1.0);
  }

  lemma Regroup(x: real, score: real, p: real, f: real)
    requires x == score * p
    ensures x * f == score * (p * f)
  {
  }

  /** One more hop. */
  lemma LongerProduct(seeds: Activation, hops: seq<Hop>, n: NeuronId, score: real)
    requires hops != []
    requires WalkValue(seeds, hops[..|hops| - 1], Tail(hops[|hops| - 1])) == score * Product(hops[..|hops| - 1])
    ensures WalkValue(seeds, hops, n) == score * Product(hops)
  {
    var h, before := hops[|hops| - 1], hops[..|hops| - 1];
    var x := WalkValue(seeds, before, Tail(h));
    PushedFactor(x, h, |hops|);
    Regroup(x, score, Product(before), Factor(h, |hops|));
  }

  ghost predicate LeadsFromSeed(rows: seq<Edge>, seeds: Activation, hops: seq<Hop>, nodes: seq<NeuronId>, n: NeuronId) {
    Visits(rows, hops, nodes) && nodes[0] in seeds && nodes[|hops|] == n
  }

  function Start(hops: seq<Hop>, n: NeuronId): NeuronId {
    if hops == [] then n else Tail(hops[0])
  }

  lemma SameStart(hops: seq<Hop>, n: NeuronId)
    requires hops != []
    ensures Start(hops[..|hops| - 1], Tail(hops[|hops| - 1])) == Start(hops, n)
  {
  }

  lemma {:induction false} WalkIsProduct(seeds: Activation, hops: seq<Hop>, n: NeuronId)
    ensures WalkValue(seeds, hops, n) == Value(seeds, Start(hops, n)) * Product(hops)
  {
    if hops != [] {
      WalkIsProduct(seeds, hops[..|hops| - 1], Tail(hops[|hops| - 1]));
      SameStart(hops, n);
      LongerProduct(seeds, hops, n, Value(seeds, Start(hops, n)));
    }
  }

  lemma {:induction false} WalkVisits(g: Graph, rows: seq<Edge>, seeds: Activation, hops: seq<Hop>, n: NeuronId) returns (nodes: seq<NeuronId>)
    requires Indexes(g, rows) && IsWalk(g, seeds, hops, n)
    ensures LeadsFromSeed(rows, seeds, hops, nodes, n) && nodes[0] == Start(hops, n)
  {
    if hops == [] {
      nodes := [n];
    } else {
      var k := |hops| - 1;
      nodes := WalkVisits(g, rows, seeds, hops[..k], Tail(hops[k]));
      HopMembers(g, rows, Tail(hops[k]), hops[k]);
      LongerVisit(rows, hops, nodes, n);
      SameStart(hops, n);
      nodes := nodes + [n];
    }
  }

  lemma LongerVisit(rows: seq<Edge>, hops: seq<Hop>, nodes: seq<NeuronId>, n: NeuronId)
    requires hops != [] && Visits(rows, hops[..|hops| - 1], nodes) && Joins(rows, hops[|hops| - 1], nodes[|hops| - 1], n)
    ensures Visits(rows, hops, nodes + [n])
  {
    var more := nodes + [n];
    forall i | 0 <= i < |hops| ensures Joins(rows, hops[i], more[i], more[i + 1]) {
      if i < |hops| - 1 {
        assert hops[..|hops| - 1][i] == hops[i];
        assert Joins(rows, hops[..|hops| - 1][i], nodes[i], nodes[i + 1]);
      }
    }
  }

  /** v is the score of a seed times, for the i-th hop of the path of stored synapses that leads from it to
      n, 0.55 ** i, weight, confidence, and 0.75 against the direction of the synapse. Unless the path is
      empty, v is at least 0.01, and the value it had before the last hop at least 0.02. */
  ghost predicate IsActivation(rows: seq<Edge>, seeds: Activation, path: seq<Hop>, n: NeuronId, v: real) {
    exists nodes :: LeadsFromSeed(rows, seeds, path, nodes, n) && v == seeds[nodes[0]] * Product(path)
      && (path != [] ==> v >= 0.01 && seeds[nodes[0]] * Product(path[..|path| - 1]) >= 0.02)
  }

  lemma Rescored(seeds: Activation, path: seq<Hop>, n: NeuronId, score: real)
    requires score == Value(seeds, Start(path, n))
    ensures score * Product(path) == WalkValue(seeds, path, n)
  {
    WalkIsProduct(seeds, path, n);
  }

  lemma StrongValue(seeds: Activation, path: seq<Hop>, n: NeuronId, v: real, score: real)
    requires WalkValue(seeds, path, n) == v && Strong(seeds, path, v) && score == Value(seeds, Start(path, n))
    ensures v == score * Product(path)
    ensures path != [] ==> v >= 0.01 && score * Product(path[..|path| - 1]) >= 0.02
  {
    Rescored(seeds, path, n, score);
    if path != [] {
      SameStart(path, n);
      Rescored(seeds, path[..|path| - 1], Tail(path[|path| - 1]), score);
    }
  }

  lemma ReachedIsActivation(g: Graph, rows: seq<Edge>, seeds: Activation, path: seq<Hop>, n: NeuronId, v: real)
    requires Indexes(g, rows) && Reached(g, seeds, path, n, v)
    ensures IsActivation(rows, seeds, path, n, v)
  {
    var nodes := WalkVisits(g, rows, seeds, path, n);
    StrongValue(seeds, path, n, v, seeds[nodes[0]]);
  }

  /** Every activation, with its path, is such a value. */
  lemma ActivationIsProduct(rows: seq<Edge>, g: Graph, order: Order, seeds: Activation, depth: nat, n: NeuronId)
    requires Indexes(g, rows) && Lists(order)
    requires n in Spread(g, order, SeedField(seeds), 0, depth).activation
    ensures var r := Spread(g, order, SeedField(seeds), 0, depth);
      n in r.paths && |r.paths[n]| <= depth && IsActivation(rows, seeds, r.paths[n], n, r.activation[n])
  {
    LoadedIsWellIndexed(g, rows);
    PathIsStrong(g, order, seeds, depth, n);
    var r := Spread(g, order, SeedField(seeds), 0, depth);
    ReachedIsActivation(g, rows, seeds, r.paths[n], n, r.activation[n]);
  }

  lemma PathIsStrong(g: Graph, order: Order, seeds: Activation, depth: nat, n: NeuronId)
    requires WellIndexed(g) && Lists(order) && n in Spread(g, order, SeedField(seeds), 0, depth).activation
    ensures var r := Spread(g, order, SeedField(seeds), 0, depth);
      n in r.paths && |r.paths[n]| <= depth && Reached(g, seeds, r.paths[n], n, r.activation[n])
  {
    SeedFieldInv(g, seeds);
    var last := SpreadKeeps(g, order, seeds, SeedField(seeds), 0, depth);
    InvGivesReached(g, seeds, Spread(g, order, SeedField(seeds), 0, depth), last, n);
  }

  /** Conversely, a neuron of at least 0.02 that is not at the last hop activates both ends of each of its
      synapses to which it passes on at least 0.01. */
  lemma StrongNeighbours(rows: seq<Edge>, g: Graph, order: Order, seeds: Activation, depth: nat, n: NeuronId, e: Edge)
    requires Indexes(g, rows) && Lists(order) && e in rows
    requires var r := Spread(g, order, SeedField(seeds), 0, depth);
      n in r.activation && n in r.paths && |r.paths[n]| < depth && r.activation[n] >= 0.02
    ensures var r := Spread(g, order, SeedField(seeds), 0, depth);
      var passed := r.activation[n] * (Power(0.55, |r.paths[n]| + 1) * e.weight * e.confidence);
      && (e.source == n && passed >= 0.01 ==> e.target in r.activation)
      && (e.target == n && passed * 0.75 >= 0.01 ==> e.source in r.activation)
  {
    var r := Spread(g, order, SeedField(seeds), 0, depth);
    LoadedIsWellIndexed(g, rows);
    if e.source == n {
      StrongHop(rows, g, order, seeds, depth, r, n, Forward(e));
    }
    if e.target == n {
      var pushed := Power(0.55, |r.paths[n]| + 1) * e.weight * e.confidence;
      Regroup(r.activation[n] * pushed, r.activation[n], pushed, 0.75);
      StrongHop(rows, g, order, seeds, depth, r, n, Backward(e));
    }
  }

  lemma StrongHop(rows: seq<Edge>, g: Graph, order: Order, seeds: Activation, depth: nat, r: Field, n: NeuronId, h: Hop)
    requires Indexes(g, rows) && WellIndexed(g) && Lists(order) && r == Spread(g, order, SeedField(seeds), 0, depth)
    requires n in r.activation && n in r.paths && |r.paths[n]| < depth && r.activation[n] >= 0.02
    requires h.edge in rows && Tail(h) == n
    ensures r.activation[n] * Factor(h, |r.paths[n]| + 1) >= 0.01 ==> Head(h) in r.activation
  {
    HopMembers(g, rows, n, h);
    PushedFactor(r.activation[n], h, |r.paths[n]| + 1);
    if r.activation[n] * Factor(h, |r.paths[n]| + 1) >= 0.01 {
      ActivationIsClosed(g, order, seeds, depth, r, n, h);
    }
  }
}
