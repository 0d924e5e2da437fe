/**
 Spreading activation over the cognitive graph: seeds matched by text, then a frontier loop that
 pushes decayed activation along synapses, forwards and (at three quarters) backwards. Values are
 exact reals; the iteration order of Python's frontier set is a parameter.
 */
module SpreadingActivation {

  type NeuronId = string

  datatype Edge = Edge(source: NeuronId, target: NeuronId, relation: string, weight: real, confidence: real)

  datatype Graph = Graph(outgoing: map<NeuronId, seq<Edge>>, incoming: map<NeuronId, seq<Edge>>)

  /** One step of an activation path: along a synapse, or against it. */
  datatype Hop = Forward(edge: Edge) | Backward(edge: Edge)

  /** The listing order of a set; Python promises none. */
  type Order = set<NeuronId> -> seq<NeuronId>

  const DECAY_PER_HOP: real := 0.55
  const BACKWARD_FACTOR: real := 0.75
  const SPREAD_THRESHOLD: real := 0.02
  const ARRIVAL_THRESHOLD: real := 0.01

  // ----- the graph index -----

  function EdgesOf(m: map<NeuronId, seq<Edge>>, id: NeuronId): seq<Edge> {
    if id in m then m[id] else []
  }

  function Append(m: map<NeuronId, seq<Edge>>, id: NeuronId, e: Edge): map<NeuronId, seq<Edge>> {
    m[id := EdgesOf(m, id) + [e]]
  }

  lemma AppendedEdges(m: map<NeuronId, seq<Edge>>, id: NeuronId, e: Edge)
    ensures forall x :: EdgesOf(Append(m, id, e), x) == EdgesOf(m, x) + if x == id then [e] else []
  {
  }

  function Leaving(rows: seq<Edge>, id: NeuronId): seq<Edge> {
    if rows == [] then []
    else Leaving(rows[..|rows| - 1], id) + if rows[|rows| - 1].source == id then [rows[|rows| - 1]] else []
  }

  function Entering(rows: seq<Edge>, id: NeuronId): seq<Edge> {
    if rows == [] then []
    else Entering(rows[..|rows| - 1], id) + if rows[|rows| - 1].target == id then [rows[|rows| - 1]] else []
  }

  /** The index lists, per neuron and in row order, exactly the synapses that leave and enter it. */
  method LoadGraphIndex(rows: seq<Edge>) returns (g: Graph)
    ensures forall id :: EdgesOf(g.outgoing, id) == Leaving(rows, id)
    ensures forall id :: EdgesOf(g.incoming, id) == Entering(rows, id)
  {
    var outgoing: map<NeuronId, seq<Edge>>, incoming: map<NeuronId, seq<Edge>> := map[], map[];
    for i := 0 to |rows|
      invariant forall id :: EdgesOf(outgoing, id) == Leaving(rows[..i], id)
      invariant forall id :: EdgesOf(incoming, id) == Entering(rows[..i], id)
    {
      var e := rows[i];
      assert rows[..i + 1][..i] == rows[..i];
      AppendedEdges(outgoing, e.source, e);
      AppendedEdges(incoming, e.target, e);
      outgoing := Append(outgoing, e.source, e);
      incoming := Append(incoming, e.target, e);
    }
    assert rows[..|rows|] == rows;
    g := Graph(outgoing, incoming);
  }

  ghost predicate Indexes(g: Graph, rows: seq<Edge>) {
    && (forall id :: EdgesOf(g.outgoing, id) == Leaving(rows, id))
    && (forall id :: EdgesOf(g.incoming, id) == Entering(rows, id))
  }

  lemma {:induction false} LeavingMembers(rows: seq<Edge>, id: NeuronId, e: Edge)
    ensures e in Leaving(rows, id) <==> e in rows && e.source == id
  {
    if rows != [] {
      var n := |rows| - 1;
      LeavingMembers(rows[..n], id, e);
      assert rows == rows[..n] + [rows[n]];
    }
  }

  lemma {:induction false} EnteringMembers(rows: seq<Edge>, id: NeuronId, e: Edge)
    ensures e in Entering(rows, id) <==> e in rows && e.target == id
  {
    if rows != [] {
      var n := |rows| - 1;
      EnteringMembers(rows[..n], id, e);
      assert rows == rows[..n] + [rows[n]];
    }
  }

  // ----- one hop -----

  function Tail(h: Hop): NeuronId {
    match h
    case Forward(e) => e.source
    case Backward(e) => e.target
  }

  function Head(h: Hop): NeuronId {
    match h
    case Forward(e) => e.target
    case Backward(e) => e.source
  }

  function Gain(h: Hop): real {
    match h
    case Forward(e) => e.weight * e.confidence
    case Backward(e) => BACKWARD_FACTOR * e.weight * e.confidence
  }

  /** DECAY_PER_HOP ** h */
  function Decay(h: nat): real {
    if h == 0 then 1.0 else DECAY_PER_HOP * Decay(h - 1)
  }

  /** The hops out of a neuron in the order they are tried. */
  function HopsFrom(g: Graph, id: NeuronId): seq<Hop> {
    Forwards(EdgesOf(g.outgoing, id)) + Backwards(EdgesOf(g.incoming, id))
  }

  function Forwards(es: seq<Edge>): (hs: seq<Hop>)
    ensures |hs| == |es| && forall i :: 0 <= i < |es| ==> hs[i] == Forward(es[i])
  {
    seq(|es|, i requires 0 <= i < |es| => Forward(es[i]))
  }

  function Backwards(es: seq<Edge>): (hs: seq<Hop>)
    ensures |hs| == |es| && forall i :: 0 <= i < |es| ==> hs[i] == Backward(es[i])
  {
    seq(|es|, i requires 0 <= i < |es| => Backward(es[i]))
  }

  type Activation = map<NeuronId, real>
  type Paths = map<NeuronId, seq<Hop>>

  /** What one pass over the frontier accumulates. */
  datatype Wave = Wave(paths: Paths, arrived: Activation, next: set<NeuronId>)

  function PathOf(paths: Paths, id: NeuronId): seq<Hop> {
    if id in paths then paths[id] else []
  }

  function Value(a: Activation, id: NeuronId): real {
    if id in a then a[id] else 0.0
  }

  /** The activation pushed along each hop by a neuron of activation act. */
  function Push(act: real, decay: real): Hop -> real {
    h => act * decay * Gain(h)
  }

  /** One edge of the inner loops. */
  function Try(w: Wave, current: NeuronId, push: Hop -> real, h: Hop): Wave {
    var n := Head(h);
    if n in w.paths || push(h) < ARRIVAL_THRESHOLD then w
    else if push(h) > Value(w.arrived, n) then
      Wave(w.paths[n := PathOf(w.paths, current) + [h]], w.arrived[n := push(h)], w.next + {n})
    else w.(next := w.next + {n})
  }

  function TryAll(w: Wave, current: NeuronId, push: Hop -> real, hops: seq<Hop>): Wave {
    if hops == [] then w
    else Try(TryAll(w, current, push, hops[..|hops| - 1]), current, push, hops[|hops| - 1])
  }

  function Expand(g: Graph, a: Activation, decay: real, w: Wave, id: NeuronId): Wave {
    if Value(a, id) < SPREAD_THRESHOLD then w else TryAll(w, id, Push(a[id], decay), HopsFrom(g, id))
  }

  function ExpandAll(g: Graph, a: Activation, decay: real, w: Wave, ids: seq<NeuronId>): Wave {
    if ids == [] then w
    else Expand(g, a, decay, ExpandAll(g, a, decay, w, ids[..|ids| - 1]), ids[|ids| - 1])
  }

  datatype Field = Field(activation: Activation, paths: Paths, frontier: set<NeuronId>)

  function OneHop(g: Graph, order: Order, f: Field, hop: nat): Field {
    var w := ExpandAll(g, f.activation, Decay(hop + 1), Wave(f.paths, map[], {}), order(f.frontier));
    Field(f.activation + w.arrived, w.paths, w.next)
  }

  function Spread(g: Graph, order: Order, f: Field, hop: nat, depth: nat): Field
    decreases depth - hop
  {
    if hop >= depth then f
    else
      var f' := OneHop(g, order, f, hop);
      if f'.frontier == {} then f' else Spread(g, order, f', hop + 1, depth)
  }

  function SeedField(seeds: Activation): Field {
    Field(seeds, map id | id in seeds :: [], seeds.Keys)
  }

  // ----- seeds -----

  predicate Contains(text: string, query: string) {
    exists i :: 0 <= i <= |text| && query <= text[i..]
  }

  /** _token_overlap_score on lower-cased strings and their token sets. */
  function OverlapScore(query: string, text: string, queryTokens: set<string>, textTokens: set<string>): real {
    if text == "" then 0.0
    else if Contains(text, query) then 0.65 + 0.35 * (|query| as real / |text| as real)
    else if queryTokens == {} || textTokens == {} || queryTokens * textTokens == {} then 0.0
    else 0.45 * (|queryTokens * textTokens| as real / |queryTokens| as real)
  }

  /** Boosted by confidence and by the time-decay factor. */
  function SeedScore(base: real, confidence: real, recency: real): real {
    base * (0.5 + 0.5 * confidence) * (0.6 + 0.4 * recency)
  }

  // ----- the loop as written -----

  method TryEdges(w: Wave, current: NeuronId, act: real, decay: real, hops: seq<Hop>) returns (r: Wave)
    ensures r == TryAll(w, current, Push(act, decay), hops)
  {
    var paths, arrived, next := w.paths, w.arrived, w.next;
    for i := 0 to |hops|
      invariant Wave(paths, arrived, next) == TryAll(w, current, Push(act, decay), hops[..i])
    {
      assert hops[..i + 1][..i] == hops[..i];
      ghost var before := Wave(paths, arrived, next);
      var neighbor := Head(hops[i]);
      if neighbor !in paths {
        var propagated := act * decay * Gain(hops[i]);
        if propagated >= ARRIVAL_THRESHOLD {
          if propagated > Value(arrived, neighbor) {
            arrived := arrived[neighbor := propagated];
            paths := paths[neighbor := PathOf(paths, current) + [hops[i]]];
          }
          next := next + {neighbor};
        }
      }
      assert Wave(paths, arrived, next) == Try(before, current, Push(act, decay), hops[i]);
    }
    assert hops[..|hops|] == hops;
    r := Wave(paths, arrived, next);
  }

  method ExpandFrontier(g: Graph, a: Activation, decay: real, paths: Paths, ids: seq<NeuronId>) returns (w: Wave)
    ensures w == ExpandAll(g, a, decay, Wave(paths, map[], {}), ids)
  {
    w := Wave(paths, map[], {});
    for i := 0 to |ids|
      invariant w == ExpandAll(g, a, decay, Wave(paths, map[], {}), ids[..i])
    {
      assert ids[..i + 1][..i] == ids[..i];
      if Value(a, ids[i]) >= SPREAD_THRESHOLD {
        w := TryEdges(w, ids[i], a[ids[i]], decay, HopsFrom(g, ids[i]));
      }
    }
    assert ids[..|ids|] == ids;
  }

  /** len(range(depth)) */
  function Rounds(depth: int): nat {
    if depth < 0 then 0 else depth
  }

  /** The spreading loop computes Spread. */
  method SpreadActivation(g: Graph, order: Order, seeds: Activation, depth: int) returns (f: Field)
    ensures f == Spread(g, order, SeedField(seeds), 0, Rounds(depth))
  {
    f := SeedField(seeds);
    var hop := 0;
    while hop < depth
      invariant 0 <= hop <= Rounds(depth)
      invariant Spread(g, order, SeedField(seeds), 0, Rounds(depth)) == Spread(g, order, f, hop, Rounds(depth))
    {
      var w := ExpandFrontier(g, f.activation, Decay(hop + 1), f.paths, order(f.frontier));
      f := Field(f.activation + w.arrived, w.paths, w.next);
      if f.frontier == {} {
        return;
      }
      hop := hop + 1;
    }
  }
}
