/** The synapse table and its upsert: where the unit range of weights and confidences comes from. */
module GraphStore {
  import opened SpreadingActivation
  import ActivationTheorems

  datatype Key = Key(source: NeuronId, target: NeuronId, relation: string)
  datatype Strength = Strength(weight: real, confidence: real)
  type Table = map<Key, Strength>

  const SYNAPSE_TYPES: set<string> := {
    "anchors", "mentions", "tagged", "in_project", "is_type", "in_scope",
    "related_to", "evidence_for", "evidence_against", "predicted", "verified_by",
    "falsified_by", "caused_by", "leads_to", "resolved_by", "contradicts",
    "supports", "refutes", "supersedes", "before", "after", "derived_from"
  }

  function Relation(name: string): string {
    if name in SYNAPSE_TYPES then name else "related_to"
  }

  function Max(x: real, y: real): real {
    if x < y then y else x
  }

  function Clamp(x: real): real {
    if x < 0.0 then 0.0 else if x > 1.0 then 1.0 else x
  }

  predicate InUnit(s: Strength) {
    0.0 <= s.weight <= 1.0 && 0.0 <= s.confidence <= 1.0
  }

  ghost predicate AllInUnit(t: Table) {
    forall k :: k in t ==> InUnit(t[k])
  }

  /** INSERT ... ON CONFLICT DO UPDATE SET weight=max(...), confidence=max(...) */
  function Upserted(t: Table, k: Key, s: Strength): Table {
    var clamped := Strength(Clamp(s.weight), Clamp(s.confidence));
    t[k := if k in t then Strength(Max(t[k].weight, clamped.weight), Max(t[k].confidence, clamped.confidence)) else clamped]
  }

  class Synapses {
    var rows: Table

    constructor ()
      ensures rows == map[] && AllInUnit(rows)
    {
      rows := map[];
    }

    method Upsert(source: NeuronId, target: NeuronId, relation: string, weight: real, confidence: real)
      requires AllInUnit(rows)
      modifies this
      ensures rows == Upserted(old(rows), Key(source, target, Relation(relation)), Strength(weight, confidence))
      ensures AllInUnit(rows)
    {
      var k := Key(source, target, if relation in SYNAPSE_TYPES then relation else "related_to");
      var w, c := Clamp(weight), Clamp(confidence);
      if k in rows {
        w, c := Max(rows[k].weight, w), Max(rows[k].confidence, c);
      }
      rows := rows[k := Strength(w, c)];
    }
  }

  /** Writers may come in any order, and a repeated write changes nothing. */
  lemma UpsertsCommute(t: Table, j: Key, r: Strength, k: Key, s: Strength)
    ensures Upserted(Upserted(t, j, r), k, s) == Upserted(Upserted(t, k, s), j, r)
    ensures Upserted(Upserted(t, k, s), k, s) == Upserted(t, k, s)
  {
    var a, b := Upserted(Upserted(t, j, r), k, s), Upserted(Upserted(t, k, s), j, r);
    assert a.Keys == t.Keys + {j, k} == b.Keys;
    forall x | x in a ensures a[x] == b[x] {
    }
  }

  // ----- what a table says about the writes -----

  datatype Write = Write(source: NeuronId, target: NeuronId, relation: string, weight: real, confidence: real)

  function KeyOf(w: Write): Key {
    Key(w.source, w.target, Relation(w.relation))
  }

  function Written(ws: seq<Write>): Table {
    if ws == [] then map[]
    else
      var w := ws[|ws| - 1];
      Upserted(Written(ws[..|ws| - 1]), KeyOf(w), Strength(w.weight, w.confidence))
  }

  /** y is the number in [0, 1] nearest to x. */
  ghost predicate Nearest(x: real, y: real) {
    0.0 <= y <= 1.0 && forall z :: 0.0 <= z <= 1.0 ==> Gap(x, y) <= Gap(x, z)
  }

  function Gap(x: real, y: real): real {
    if x < y then y - x else x - y
  }

  lemma NearestUnique(x: real, y: real, z: real)
    requires Nearest(x, y) && Nearest(x, z)
    ensures y == z
  {
    assert Gap(x, y) <= Gap(x, z) <= Gap(x, y);
    assert Gap(x, y) <= Gap(x, if x < 0.0 then 0.0 else if x > 1.0 then 1.0 else x);
  }

  lemma ClampIsNearest(x: real)
    ensures Nearest(x, Clamp(x))
  {
  }

  /** Write k is one of the synapse; an unknown relation counts as related_to. */
  ghost predicate IsWriteOf(w: Write, k: Key) {
    w.source == k.source && w.target == k.target
    && ((w.relation == k.relation && w.relation in SYNAPSE_TYPES) || (w.relation !in SYNAPSE_TYPES && k.relation == "related_to"))
  }

  ghost predicate SomeWriteOf(ws: seq<Write>, k: Key) {
    exists i :: 0 <= i < |ws| && IsWriteOf(ws[i], k)
  }

  lemma KeyOfIff(w: Write, k: Key)
    ensures KeyOf(w) == k <==> IsWriteOf(w, k)
  {
  }

  /** The strengths stored for a synapse are the largest written for it, each cut down to [0, 1]: both are
      reached by some write, and exceeded by none. */
  ghost predicate IsStrongest(ws: seq<Write>, k: Key, s: Strength) {
    && (exists i :: 0 <= i < |ws| && IsWriteOf(ws[i], k) && Nearest(ws[i].weight, s.weight))
    && (exists i :: 0 <= i < |ws| && IsWriteOf(ws[i], k) && Nearest(ws[i].confidence, s.confidence))
    && forall i, y :: 0 <= i < |ws| && IsWriteOf(ws[i], k) ==>
         (Nearest(ws[i].weight, y) ==> y <= s.weight) && (Nearest(ws[i].confidence, y) ==> y <= s.confidence)
  }

  /** Over any sequence of upserts. */
  lemma {:induction false} TableTellsItsWrites(ws: seq<Write>, k: Key)
    ensures k in Written(ws) <==> SomeWriteOf(ws, k)
    ensures k in Written(ws) ==> IsStrongest(ws, k, Written(ws)[k])
  {
    if ws != [] {
      var n := |ws| - 1;
      var w := ws[n];
      TableTellsItsWrites(ws[..n], k);
      KeyOfIff(w, k);
      if KeyOf(w) == k {
        StrongestAfter(ws, k, Written(ws)[k]);
      } else if k in Written(ws) {
        StrongestKept(ws, k, Written(ws)[k]);
      }
    }
  }

  lemma StrongestKept(ws: seq<Write>, k: Key, s: Strength)
    requires ws != [] && !IsWriteOf(ws[|ws| - 1], k) && IsStrongest(ws[..|ws| - 1], k, s)
    ensures IsStrongest(ws, k, s)
  {
    var n := |ws| - 1;
    assert forall i :: 0 <= i < n ==> ws[..n][i] == ws[i];
  }

  lemma StrongestAfter(ws: seq<Write>, k: Key, s: Strength)
    requires ws != [] && IsWriteOf(ws[|ws| - 1], k)
    requires var t := Written(ws[..|ws| - 1]);
      && (k in t <==> SomeWriteOf(ws[..|ws| - 1], k))
      && (k in t ==> IsStrongest(ws[..|ws| - 1], k, t[k]))
      && s == Upserted(t, k, Strength(ws[|ws| - 1].weight, ws[|ws| - 1].confidence))[k]
    ensures IsStrongest(ws, k, s)
  {
    var n := |ws| - 1;
    var w, t := ws[n], Written(ws[..n]);
    ClampIsNearest(w.weight);
    ClampIsNearest(w.confidence);
    assert forall i :: 0 <= i < n ==> ws[..n][i] == ws[i];
    forall i, y | 0 <= i < |ws| && IsWriteOf(ws[i], k)
      ensures (Nearest(ws[i].weight, y) ==> y <= s.weight) && (Nearest(ws[i].confidence, y) ==> y <= s.confidence)
    {
      if i < n {
        assert IsWriteOf(ws[..n][i], k);
      } else {
        if Nearest(w.weight, y) {
          NearestUnique(w.weight, y, Clamp(w.weight));
        }
        if Nearest(w.confidence, y) {
          NearestUnique(w.confidence, y, Clamp(w.confidence));
        }
      }
    }
  }

  /** The rows of a table as the index loader sees them. */
  ghost predicate RowsOf(t: Table, rows: seq<Edge>) {
    forall e :: e in rows ==>
      var k := Key(e.source, e.target, e.relation);
      k in t && t[k] == Strength(e.weight, e.confidence)
  }

  /** Every index loaded from an upserted table meets the range the activation bounds need. */
  lemma LoadedIsUnit(t: Table, rows: seq<Edge>, g: Graph, seeds: Activation)
    requires AllInUnit(t) && RowsOf(t, rows) && Indexes(g, rows)
    requires forall id :: id in seeds ==> 0.0 <= seeds[id] <= 1.0
    ensures ActivationTheorems.Unit(g, seeds) && ActivationTheorems.WellIndexed(g)
  {
    ActivationTheorems.LoadedIsWellIndexed(g, rows);
    forall id, h | h in HopsFrom(g, id)
      ensures 0.0 <= h.edge.weight <= 1.0 && 0.0 <= h.edge.confidence <= 1.0
    {
      ActivationTheorems.HopMembers(g, rows, id, h);
      assert InUnit(t[Key(h.edge.source, h.edge.target, h.edge.relation)]);
    }
  }

  // ----- neurons and seeds -----

  /** A neuron row; recency is _time_decay of its timestamp. */
  datatype Neuron = Neuron(text: string, tokens: set<string>, confidence: real, recency: real)
  type NeuronTable = map<NeuronId, Neuron>

  ghost predicate NeuronsInUnit(t: NeuronTable) {
    forall id :: id in t ==> 0.0 <= t[id].confidence <= 1.0
  }

  class Neurons {
    var rows: NeuronTable

    constructor ()
      ensures rows == map[] && NeuronsInUnit(rows)
    {
      rows := map[];
    }

    /** Content is part of the id, so a conflicting row differs in confidence and timestamp only. */
    method Upsert(id: NeuronId, text: string, tokens: set<string>, confidence: real, recency: real)
      requires NeuronsInUnit(rows)
      modifies this
      ensures NeuronsInUnit(rows) && rows.Keys == old(rows).Keys + {id}
      ensures forall k :: k in old(rows) && k != id ==> rows[k] == old(rows)[k]
      ensures id in old(rows) ==> rows[id].confidence >= old(rows)[id].confidence
      ensures rows[id].confidence >= Clamp(confidence) && rows[id].recency == recency
      ensures rows[id].confidence == Clamp(confidence) || (id in old(rows) && rows[id].confidence == old(rows)[id].confidence)
    {
      var c := Clamp(confidence);
      if id in rows {
        rows := rows[id := rows[id].(confidence := Max(rows[id].confidence, c), recency := recency)];
      } else {
        rows := rows[id := Neuron(text, tokens, c, recency)];
      }
    }
  }

  /** The score of the text, boosted by confidence and recency. */
  ghost predicate IsSeed(n: Neuron, query: string, queryTokens: set<string>, v: real) {
    v == OverlapScore(query, n.text, queryTokens, n.tokens) * (0.5 + 0.5 * n.confidence) * (0.6 + 0.4 * n.recency)
  }

  /** Seeds are neurons matching the query, with their boosted scores; the limit cuts the list. */
  ghost predicate SeedsOf(seeds: Activation, t: NeuronTable, query: string, queryTokens: set<string>) {
    forall id :: id in seeds ==> id in t && IsSeed(t[id], query, queryTokens, seeds[id])
  }

  lemma SeedsInUnit(seeds: Activation, t: NeuronTable, query: string, queryTokens: set<string>)
    requires SeedsOf(seeds, t, query, queryTokens) && NeuronsInUnit(t)
    requires forall id :: id in t ==> 0.05 <= t[id].recency <= 1.0
    ensures forall id :: id in seeds ==> 0.0 <= seeds[id] <= 1.0
  {
    forall id | id in seeds ensures 0.0 <= seeds[id] <= 1.0 {
      var score := OverlapScore(query, t[id].text, queryTokens, t[id].tokens);
      ActivationTheorems.OverlapScoreRange(query, t[id].text, queryTokens, t[id].tokens);
      ActivationTheorems.SeedScoreRange(score, t[id].confidence, t[id].recency);
    }
  }

  /** End to end: for every query on stored tables whose timestamps are not in the future, nothing is
      activated more than three hops from a seed or beyond the decay of its hop number, and depths
      from three on do not differ. */
  lemma QueryIsBounded(
      synapses: Table, rows: seq<Edge>, g: Graph, neurons: NeuronTable, seeds: Activation,
      query: string, queryTokens: set<string>, order: Order, depth: nat)
    requires AllInUnit(synapses) && RowsOf(synapses, rows) && Indexes(g, rows)
    requires NeuronsInUnit(neurons) && SeedsOf(seeds, neurons, query, queryTokens) && ActivationTheorems.Lists(order)
    requires forall id :: id in neurons ==> 0.05 <= neurons[id].recency <= 1.0
    ensures var r := Spread(g, order, SeedField(seeds), 0, depth);
      forall n :: n in r.activation ==>
        n in r.paths && |r.paths[n]| <= 3 && 0.0 <= r.activation[n] <= Decay(ActivationTheorems.Triangle(|r.paths[n]|))
    ensures depth >= 3 ==>
      ActivationTheorems.SameResult(Spread(g, order, SeedField(seeds), 0, depth), Spread(g, order, SeedField(seeds), 0, 3))
  {
    SeedsInUnit(seeds, neurons, query, queryTokens);
    LoadedIsUnit(synapses, rows, g, seeds);
    var r := Spread(g, order, SeedField(seeds), 0, depth);
    forall n | n in r.activation
      ensures n in r.paths && |r.paths[n]| <= 3 && 0.0 <= r.activation[n] <= Decay(ActivationTheorems.Triangle(|r.paths[n]|))
    {
      ActivationTheorems.ActivationBound(g, order, seeds, depth, n);
    }
    if depth >= 3 {
      ActivationTheorems.DepthSaturates(g, order, seeds, depth);
    }
  }
}
