/**
 The seeds of a query: neurons whose text matches, best first, as many as asked for, each with its
 score boosted by confidence and age.
 */
module SeedMatching {
  import opened Text
  import opened SpreadingActivation
  import opened GraphStore
  import opened ActivationTheorems

  /** A query, lower-cased, with its tokens. */
  datatype Query = Query(text: string, tokens: set<string>)

  function ScoreOf(n: Neuron, q: Query): real {
    OverlapScore(q.text, n.text, q.tokens, n.tokens)
  }

  // ----- the score -----

  lemma RatioTimes(p: nat, q: nat, c: real)
    requires q > 0
    ensures c * (p as real / q as real) * q as real == c * p as real
  {
    var x := p as real / q as real;
    assert x * q as real == p as real;
  }

  /** The query stands somewhere in the text. */
  ghost predicate Occurs(query: string, text: string) {
    exists before, after :: text == before + (query + after)
  }

  lemma OccursIff(query: string, text: string)
    ensures Contains(text, query) <==> Occurs(query, text)
  {
    if i :| 0 <= i <= |text| && query <= text[i..] {
      assert text == text[..i] + (query + text[i..][|query|..]);
    }
    if before, after :| text == before + (query + after) {
      assert text[|before|..] == query + after;
    }
  }

  /** A text that contains the query scores 0.65 and 0.35 for the part of it that the query is; any other
      scores 0.45 for the part of the query's tokens that it has. */
  lemma ScoreExact(n: Neuron, q: Query)
    ensures n.text == "" ==> ScoreOf(n, q) == 0.0
    ensures n.text != "" && Occurs(q.text, n.text) ==> (ScoreOf(n, q) - 0.65) * |n.text| as real == 0.35 * |q.text| as real
    ensures n.text != "" && !Occurs(q.text, n.text) ==>
      ScoreOf(n, q) * |q.tokens| as real == 0.45 * |q.tokens * n.tokens| as real && (q.tokens == {} ==> ScoreOf(n, q) == 0.0)
  {
    OccursIff(q.text, n.text);
    if n.text != "" && Contains(n.text, q.text) {
      RatioTimes(|q.text|, |n.text|, 0.35);
    } else if q.tokens != {} && n.tokens != {} && q.tokens * n.tokens != {} {
      RatioTimes(|q.tokens * n.tokens|, |q.tokens|, 0.45);
    }
  }

  lemma Cancel(x: real, y: real, p: real)
    requires 0.0 < p && x * p < y * p
    ensures x < y
  {
  }

  /** Of two equal products, the one with the smaller positive factor has the larger other factor. */
  lemma ProductOrder(x: real, y: real, p: real, q: real, c: real)
    requires 0.0 < p < q && 0.0 < c && x * p == c && y * q == c
    ensures x > y
  {
    Cancel(0.0, y, q);
    assert y * p < y * q;
    Cancel(y, x, p);
  }

  lemma ProductOrderIff(x: real, y: real, a: nat, b: nat, c: real)
    requires 0 < a && 0 < b && 0.0 < c && x * a as real == c && y * b as real == c
    ensures x > y <==> a < b
  {
    var p, q := a as real, b as real;
    if a < b {
      ProductOrder(x, y, p, q, c);
    } else if b < a {
      ProductOrder(y, x, q, p, c);
    } else {
      assert p == q && (x > y ==> x - y > 0.0 && (x - y) * p > 0.0);
    }
  }

  lemma Scale(x: real, y: real, p: real)
    requires 0.0 < p && x < y
    ensures x * p < y * p
  {
  }

  lemma ScaledOrder(x: real, y: real, k: nat, m: nat, n: nat)
    requires 0 < k && x * k as real == 0.45 * m as real && y * k as real == 0.45 * n as real
    ensures x > y <==> m > n
  {
    if x > y {
      Scale(y, x, k as real);
    } else if x < y {
      Scale(x, y, k as real);
    } else {
      assert 0.45 * m as real == 0.45 * n as real;
    }
  }

  /** So the score ranks neurons: first those that contain the query, the shorter the text the better;
      then the others by the number of tokens they share. */
  lemma ScoreRanks(m: Neuron, n: Neuron, q: Query)
    requires m.text != "" && n.text != "" && q.text != ""
    ensures Occurs(q.text, m.text) && !Occurs(q.text, n.text) ==> ScoreOf(m, q) > ScoreOf(n, q)
    ensures Occurs(q.text, m.text) && Occurs(q.text, n.text) ==> (ScoreOf(m, q) > ScoreOf(n, q) <==> |m.text| < |n.text|)
    ensures !Occurs(q.text, m.text) && !Occurs(q.text, n.text) ==>
      (ScoreOf(m, q) > ScoreOf(n, q) <==> |q.tokens * m.tokens| > |q.tokens * n.tokens|)
  {
    OccursIff(q.text, m.text);
    OccursIff(q.text, n.text);
    ScoreExact(m, q);
    ScoreExact(n, q);
    if Occurs(q.text, m.text) && Occurs(q.text, n.text) {
      ProductOrderIff(ScoreOf(m, q) - 0.65, ScoreOf(n, q) - 0.65, |m.text|, |n.text|, 0.35 * |q.text| as real);
    } else if Occurs(q.text, m.text) || Occurs(q.text, n.text) {
      OverlapScoreRange(q.text, m.text, q.tokens, m.tokens);
      OverlapScoreRange(q.text, n.text, q.tokens, n.tokens);
    } else if q.tokens != {} {
      ScaledOrder(ScoreOf(m, q), ScoreOf(n, q), |q.tokens|, |q.tokens * m.tokens|, |q.tokens * n.tokens|);
    }
  }

  // ----- the choice -----

  /** Row a comes before row b: by score, and for equal scores as listed. */
  ghost predicate Better(scores: seq<real>, a: nat, b: nat)
    requires a < |scores| && b < |scores|
  {
    scores[a] > scores[b] || (scores[a] == scores[b] && a < b)
  }

  ghost predicate BestFirst(scores: seq<real>, ps: seq<nat>) {
    && (forall i :: 0 <= i < |ps| ==> ps[i] < |scores|)
    && forall i, j :: 0 <= i < j < |ps| ==> Better(scores, ps[i], ps[j])
  }

  /** scored.sort(reverse=True) is stable: a row goes behind those that score as much. */
  method Place(scores: seq<real>, ps: seq<nat>, p: nat) returns (r: seq<nat>)
    requires BestFirst(scores, ps) && p < |scores| && forall i :: 0 <= i < |ps| ==> ps[i] < p
    ensures BestFirst(scores, r) && Elements(r) == Elements(ps) + {p}
  {
    var k := |ps|;
    while k > 0 && scores[ps[k - 1]] < scores[p]
      invariant 0 <= k <= |ps|
      invariant forall i :: k <= i < |ps| ==> scores[ps[i]] < scores[p]
    {
      k := k - 1;
    }
    r := ps[..k] + [p] + ps[k..];
    PlacedOrder(scores, ps, p, k);
    PlacedElements(ps, p, k);
  }

  lemma PlacedElements(ps: seq<nat>, p: nat, k: nat)
    requires k <= |ps|
    ensures Elements(ps[..k] + [p] + ps[k..]) == Elements(ps) + {p}
  {
    assert forall x :: x in ps[..k] + [p] + ps[k..] <==> x in ps[..k] || x == p || x in ps[k..];
    assert ps == ps[..k] + ps[k..];
  }

  lemma PlacedOrder(scores: seq<real>, ps: seq<nat>, p: nat, k: nat)
    requires BestFirst(scores, ps) && p < |scores| && k <= |ps| && forall i :: 0 <= i < |ps| ==> ps[i] < p
    requires k > 0 ==> scores[ps[k - 1]] >= scores[p]
    requires forall i :: k <= i < |ps| ==> scores[ps[i]] < scores[p]
    ensures BestFirst(scores, ps[..k] + [p] + ps[k..])
  {
    var r := ps[..k] + [p] + ps[k..];
    forall i | 0 <= i < k ensures Better(scores, ps[i], p) {
      assert i < k - 1 ==> Better(scores, ps[i], ps[k - 1]);
    }
    forall i, j | 0 <= i < j < |r| ensures Better(scores, r[i], r[j]) {
      assert r[i] == (if i < k then ps[i] else if i == k then p else ps[i - 1]);
      assert r[j] == (if j < k then ps[j] else if j == k then p else ps[j - 1]);
    }
  }

  /** How many of n a slice [:limit] keeps. */
  function Kept(n: nat, limit: int): nat {
    if limit >= n then n else if limit >= 0 then limit else if n + limit >= 0 then n + limit else 0
  }

  /** _seed_matches on the scores of the rows: all that score, best first, cut to the limit. */
  method SeedMatches(scores: seq<real>, limit: int) returns (chosen: seq<nat>, all: seq<nat>)
    ensures BestFirst(scores, all) && forall p: nat :: p in all <==> p < |scores| && scores[p] > 0.0
    ensures chosen <= all && (limit >= |all| ==> chosen == all) && (0 <= limit < |all| ==> |chosen| == limit)
    ensures limit < 0 ==> |chosen| == if |all| + limit > 0 then |all| + limit else 0
    ensures forall a, b :: a in chosen && b in all && b !in chosen ==> Better(scores, a, b)
  {
    all := [];
    for p: nat := 0 to |scores|
      invariant BestFirst(scores, all)
      invariant forall x: nat :: x in all <==> x < p && scores[x] > 0.0
    {
      if scores[p] > 0.0 {
        ghost var before := all;
        assert forall i :: 0 <= i < |all| ==> all[i] in all;
        all := Place(scores, all, p);
        assert forall x: nat :: x in all <==> x in Elements(all);
        assert forall x: nat :: x in before <==> x in Elements(before);
      }
    }
    assert forall i :: 0 <= i < |all| ==> all[i] in all;
    chosen := all[..Kept(|all|, limit)];
    ChosenAreBest(scores, all, |chosen|);
  }

  lemma ChosenAreBest(scores: seq<real>, ps: seq<nat>, n: nat)
    requires BestFirst(scores, ps) && n <= |ps|
    ensures forall a, b :: a in ps[..n] && b in ps && b !in ps[..n] ==> a < |scores| && b < |scores| && Better(scores, a, b)
  {
    forall a, b | a in ps[..n] && b in ps && b !in ps[..n] ensures a < |scores| && b < |scores| && Better(scores, a, b) {
      var i :| 0 <= i < n && ps[i] == a;
      var j :| 0 <= j < |ps| && ps[j] == b;
      assert ps == ps[..n] + ps[n..];
    }
  }

  function ScoresOf(ids: seq<NeuronId>, t: NeuronTable, q: Query): (r: seq<real>)
    requires forall i :: 0 <= i < |ids| ==> ids[i] in t
    ensures |r| == |ids| && forall i :: 0 <= i < |ids| ==> r[i] == ScoreOf(t[ids[i]], q)
  {
    seq(|ids|, i requires 0 <= i < |ids| => ScoreOf(t[ids[i]], q))
  }

  /** Phase 1: the chosen neurons are activated with their boosted scores, and no neuron that is passed
      over matches better than one that is chosen. */
  method Seed(ids: seq<NeuronId>, t: NeuronTable, q: Query, limit: int) returns (seeds: Activation)
    requires forall i :: 0 <= i < |ids| ==> ids[i] in t
    requires forall id :: id in t ==> id in ids
    ensures SeedsOf(seeds, t, q.text, q.tokens)
    ensures forall a, b :: a in seeds && b in t && b !in seeds ==>
      ScoreOf(t[a], q) > 0.0 && (ScoreOf(t[b], q) > 0.0 ==> ScoreOf(t[a], q) >= ScoreOf(t[b], q))
  {
    var scores := ScoresOf(ids, t, q);
    var chosen, all := SeedMatches(scores, limit);
    assert forall p :: p in chosen ==> p in all;
    seeds := Boost(ids, t, q, chosen);
    forall a, b | a in seeds && b in t && b !in seeds
      ensures ScoreOf(t[a], q) > 0.0 && (ScoreOf(t[b], q) > 0.0 ==> ScoreOf(t[a], q) >= ScoreOf(t[b], q))
    {
      PassedOver(ids, t, q, scores, chosen, all, a, b);
    }
  }

  method Boost(ids: seq<NeuronId>, t: NeuronTable, q: Query, chosen: seq<nat>) returns (seeds: Activation)
    requires forall i :: 0 <= i < |ids| ==> ids[i] in t
    requires forall p :: p in chosen ==> p < |ids|
    ensures SeedsOf(seeds, t, q.text, q.tokens) && forall id :: id in seeds <==> Picked(ids, chosen, id)
  {
    seeds := map[];
    for i := 0 to |chosen|
      invariant SeedsOf(seeds, t, q.text, q.tokens)
      invariant forall id :: id in seeds <==> Picked(ids, chosen[..i], id)
    {
      assert chosen[i] in chosen;
      var id := ids[chosen[i]];
      PickedNext(ids, chosen, i);
      Boosted(t[id], q);
      seeds := seeds[id := SeedScore(ScoreOf(t[id], q), t[id].confidence, t[id].recency)];
    }
    assert chosen[..|chosen|] == chosen;
  }

  ghost predicate Picked(ids: seq<NeuronId>, chosen: seq<nat>, id: NeuronId) {
    exists p :: p in chosen && p < |ids| && ids[p] == id
  }

  lemma PickedNext(ids: seq<NeuronId>, chosen: seq<nat>, i: nat)
    requires i < |chosen| && chosen[i] < |ids|
    ensures forall id :: Picked(ids, chosen[..i + 1], id) <==> Picked(ids, chosen[..i], id) || id == ids[chosen[i]]
  {
    assert chosen[..i + 1] == chosen[..i] + [chosen[i]];
    assert forall p :: p in chosen[..i + 1] <==> p in chosen[..i] || p == chosen[i];
    assert Picked(ids, chosen[..i + 1], ids[chosen[i]]);
  }

  lemma Boosted(n: Neuron, q: Query)
    ensures IsSeed(n, q.text, q.tokens, SeedScore(ScoreOf(n, q), n.confidence, n.recency))
  {
  }

  lemma PassedOver(ids: seq<NeuronId>, t: NeuronTable, q: Query, scores: seq<real>, chosen: seq<nat>, all: seq<nat>, a: NeuronId, b: NeuronId)
    requires forall i :: 0 <= i < |ids| ==> ids[i] in t
    requires scores == ScoresOf(ids, t, q) && forall p: nat :: p in all <==> p < |scores| && scores[p] > 0.0
    requires BestFirst(scores, all) && chosen <= all
    requires Picked(ids, chosen, a) && b in ids && !Picked(ids, chosen, b)
    ensures a in t && b in t && ScoreOf(t[a], q) > 0.0 && (ScoreOf(t[b], q) > 0.0 ==> ScoreOf(t[a], q) >= ScoreOf(t[b], q))
  {
    ChosenAreBest(scores, all, |chosen|);
    var p :| p in chosen && p < |ids| && ids[p] == a;
    var k: nat :| k < |ids| && ids[k] == b;
    assert p in all && k !in chosen;
    assert scores[k] == ScoreOf(t[b], q) && scores[p] == ScoreOf(t[a], q);
  }
}
