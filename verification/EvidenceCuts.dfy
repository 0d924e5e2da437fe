/**
 What bounding keeps of a value: which items of a long list, which entries of a large dict, and how
 much of each text. A specification without the algorithm, and the proof that bounding meets it.
 */
module EvidenceCuts {
  import opened Finite
  import opened Text
  import opened Evidence

  // ----- the specification -----

  /** Entry i comes before entry j: by printed key, and of equal ones as they stand. */
  ghost predicate Comes(show: Printer, es: seq<Entry>, i: nat, j: nat)
    requires i < |es| && j < |es|
  {
    Less(show(es[i].key), show(es[j].key)) || (show(es[i].key) == show(es[j].key) && i < j)
  }

  ghost predicate InRange(es: seq<Entry>, order: seq<nat>) {
    forall a :: 0 <= a < |order| ==> order[a] < |es|
  }

  /** All entries, in that order. */
  ghost predicate Arranged(show: Printer, es: seq<Entry>, order: seq<nat>) {
    && InRange(es, order) && (forall i: nat :: i < |es| ==> i in order)
    && forall a, b :: 0 <= a < b < |order| ==> Comes(show, es, order[a], order[b])
  }

  function CutKey(show: Printer, e: Entry): Value {
    Str(Take(show(e.key), 100))
  }

  /** Of the kept entries whose keys are cut down to this one, the last. */
  ghost predicate IsLastFor(show: Printer, kept: seq<Entry>, a: nat, key: Value) {
    a < |kept| && CutKey(show, kept[a]) == key && forall c :: a < c < |kept| ==> CutKey(show, kept[c]) != key
  }

  ghost predicate HasKey(es: seq<Entry>, key: Value) {
    exists e :: e in es && e.key == key
  }

  ghost function Picked(es: seq<Entry>, order: seq<nat>): (r: seq<Entry>)
    requires InRange(es, order)
    ensures |r| == |order| && forall a :: 0 <= a < |r| ==> r[a] == es[order[a]]
  {
    seq(|order|, a requires 0 <= a < |order| => es[order[a]])
  }

  /** b is what is left of v. */
  ghost predicate IsCutOf(show: Printer, v: Value, depth: nat, b: Value)
    decreases 4 - depth, 1
  {
    if depth >= 4 then b == Str(Take(show(v), 500))
    else match v
      case Str(s) => b == Str(Take(s, 2000))
      case Object(_) => b == Str(Take(show(v), 2000))
      case Sequence(xs) =>
        b.Sequence? && |b.items| == |First(xs, 64)| && forall i :: 0 <= i < |b.items| ==> IsCutOf(show, xs[i], depth + 1, b.items[i])
      case Dict(es) =>
        b.Dict? && KeysAscend(b.entries)
        && exists order :: Arranged(show, es, order) && IsCutDict(show, First(Picked(es, order), 64), depth, b.entries)
      case _ => b == v
  }

  /** One entry for each key that is left, with what is left of the last value under it. */
  ghost predicate IsCutDict(show: Printer, kept: seq<Entry>, depth: nat, bs: seq<Entry>)
    requires depth < 4
    decreases 4 - depth, 0
  {
    && (forall a :: 0 <= a < |kept| ==> HasKey(bs, CutKey(show, kept[a])))
    && forall e :: e in bs ==> exists a: nat :: IsLastFor(show, kept, a, e.key) && IsCutOf(show, kept[a].value, depth + 1, e.value)
  }

  // ----- sorting arranges -----

  function Shifted(order: seq<nat>): (r: seq<nat>)
    ensures |r| == |order| && forall a :: 0 <= a < |r| ==> r[a] == order[a] + 1
  {
    seq(|order|, a requires 0 <= a < |order| => order[a] + 1)
  }

  lemma {:induction false} InsertsAt(show: Printer, e: Entry, es: seq<Entry>) returns (k: nat)
    requires InOrder(show, es)
    ensures k <= |es| && InsertEntry(show, e, es) == es[..k] + [e] + es[k..]
    ensures forall i :: 0 <= i < k ==> Less(show(es[i].key), show(e.key))
    ensures forall i :: k <= i < |es| ==> AtMost(show(e.key), show(es[i].key))
  {
    if es == [] || AtMost(show(e.key), show(es[0].key)) {
      k := 0;
      forall i | 0 <= i < |es| ensures AtMost(show(e.key), show(es[i].key)) {
        if i > 0 {
          AtMostTransitive(show(e.key), show(es[0].key), show(es[i].key));
        }
      }
    } else {
      var rest := InsertsAt(show, e, es[1..]);
      k := rest + 1;
      Trichotomy(show(e.key), show(es[0].key));
      assert es == [es[0]] + es[1..];
      assert es[..k] == [es[0]] + es[1..][..rest] && es[k..] == es[1..][rest..];
    }
  }

  lemma {:induction false} SortArranges(show: Printer, es: seq<Entry>) returns (order: seq<nat>)
    ensures Arranged(show, es, order) && SortEntries(show, es) == Picked(es, order)
  {
    if es == [] {
      order := [];
    } else {
      var tail := es[1..];
      var before := SortArranges(show, tail);
      var sorted := SortEntries(show, tail);
      SortEntriesOrders(show, tail);
      var k := InsertsAt(show, es[0], sorted);
      order := Shifted(before[..k]) + [0] + Shifted(before[k..]);
      PutInBetween(show, es, before, k, order);
      OneMoreArranged(show, es, before, k, order);
    }
  }

  lemma PutInBetween(show: Printer, es: seq<Entry>, before: seq<nat>, k: nat, order: seq<nat>)
    requires es != [] && InRange(es[1..], before) && k <= |before| && order == Shifted(before[..k]) + [0] + Shifted(before[k..])
    requires var sorted := Picked(es[1..], before);
      && (forall i :: 0 <= i < k ==> Less(show(sorted[i].key), show(es[0].key)))
      && (forall i :: k <= i < |sorted| ==> AtMost(show(es[0].key), show(sorted[i].key)))
    ensures PutIn(before, k, order) && InRange(es, order) && Fits(show, es, before, k)
    ensures Picked(es, order) == Picked(es[1..], before)[..k] + [es[0]] + Picked(es[1..], before)[k..]
  {
    var sorted := Picked(es[1..], before);
    forall i | 0 <= i < |before| ensures sorted[i] == es[before[i] + 1] {
    }
    forall a: nat | a < |order| ensures order[a] == PlaceIn(before, k, a) && order[a] < |es| {
    }
    var picked := sorted[..k] + [es[0]] + sorted[k..];
    forall a: nat | a < |order| ensures es[order[a]] == picked[a] {
      assert order[a] == PlaceIn(before, k, a);
    }
  }

  /** The order once the first entry is put in at place k. */
  ghost predicate PutIn(before: seq<nat>, k: nat, order: seq<nat>) {
    k <= |before| && |order| == |before| + 1 && forall a: nat :: a < |order| ==> order[a] == PlaceIn(before, k, a)
  }

  ghost function PlaceIn(before: seq<nat>, k: nat, a: nat): nat
    requires k <= |before| && a <= |before|
  {
    if a < k then before[a] + 1 else if a == k then 0 else before[a - 1] + 1
  }

  ghost predicate Fits(show: Printer, es: seq<Entry>, before: seq<nat>, k: nat)
    requires es != [] && InRange(es[1..], before) && k <= |before|
  {
    && (forall i :: 0 <= i < k ==> Less(show(es[before[i] + 1].key), show(es[0].key)))
    && (forall i :: k <= i < |before| ==> AtMost(show(es[0].key), show(es[before[i] + 1].key)))
  }

  lemma OneMoreArranged(show: Printer, es: seq<Entry>, before: seq<nat>, k: nat, order: seq<nat>)
    requires es != [] && Arranged(show, es[1..], before) && PutIn(before, k, order) && Fits(show, es, before, k)
    requires InRange(es, order)
    ensures Arranged(show, es, order)
  {
    forall a: nat, b: nat | a < b < |order| ensures Comes(show, es, order[a], order[b]) {
      OrderedPair(show, es, before, k, order, a, b);
    }
    forall i: nat | i < |es| ensures i in order {
      if i > 0 {
        assert i - 1 in before;
        var a :| 0 <= a < |before| && before[a] == i - 1;
        var b := if a < k then a else a + 1;
        assert order[b] == PlaceIn(before, k, b) == i;
      } else {
        assert order[k] == PlaceIn(before, k, k) == 0;
      }
    }
  }

  /** Old pairs keep their order, and the new entry, which stands first, fits in between. */
  lemma OrderedPair(show: Printer, es: seq<Entry>, before: seq<nat>, k: nat, order: seq<nat>, a: nat, b: nat)
    requires es != [] && Arranged(show, es[1..], before) && PutIn(before, k, order) && Fits(show, es, before, k) && a < b < |order|
    requires InRange(es, order)
    ensures Comes(show, es, order[a], order[b])
  {
    assert order[a] == PlaceIn(before, k, a) && order[b] == PlaceIn(before, k, b);
    if a != k && b != k {
      var x, y := if a < k then a else a - 1, if b < k then b else b - 1;
      assert Comes(show, es[1..], before[x], before[y]);
    }
  }

  // ----- collapsing keeps the last -----

  ghost predicate KeysApart(es: seq<Entry>) {
    forall i, j :: 0 <= i < j < |es| ==> es[i].key != es[j].key
  }

  lemma {:induction false} PutExact(es: seq<Entry>, key: Value, value: Value)
    requires KeysApart(es)
    ensures forall e :: e in Put(es, key, value) <==> (e in es && e.key != key) || e == Entry(key, value)
    ensures KeysApart(Put(es, key, value))
  {
    if es != [] {
      var tail := es[1..];
      assert es == [es[0]] + tail;
      assert forall e :: e in tail ==> e.key != es[0].key;
      PutExact(tail, key, value);
      var r := Put(es, key, value);
      if es[0].key == key {
        assert r == [Entry(key, value)] + tail;
        forall i, j | 0 <= i < j < |r| ensures r[i].key != r[j].key {
          assert es[i].key != es[j].key;
        }
      } else {
        var rest := Put(tail, key, value);
        assert r == [es[0]] + rest;
        forall j | 0 <= j < |rest| ensures rest[j].key != es[0].key {
          assert rest[j] in rest;
        }
      }
    }
  }

  ghost predicate IsLast(es: seq<Entry>, a: nat) {
    a < |es| && forall c :: a < c < |es| ==> es[c].key != es[a].key
  }

  ghost predicate FromLast(es: seq<Entry>, e: Entry) {
    exists a: nat :: IsLast(es, a) && es[a] == e
  }

  lemma LastStaysLast(es: seq<Entry>, e: Entry)
    requires es != [] && FromLast(es[..|es| - 1], e) && e.key != es[|es| - 1].key
    ensures FromLast(es, e)
  {
    var n := |es| - 1;
    var a: nat :| IsLast(es[..n], a) && es[..n][a] == e;
    assert forall d :: a < d < n ==> es[..n][d] == es[d];
    assert IsLast(es, a);
  }

  lemma {:induction false} CollapseKeepsLast(es: seq<Entry>)
    ensures KeysApart(Collapse(es))
    ensures forall e :: e in Collapse(es) ==> FromLast(es, e)
    ensures forall a :: 0 <= a < |es| ==> HasKey(Collapse(es), es[a].key)
  {
    if es != [] {
      var n := |es| - 1;
      var c, r, last := Collapse(es[..n]), Collapse(es), es[n];
      CollapseKeepsLast(es[..n]);
      PutExact(c, last.key, last.value);
      assert last in r;
      forall e | e in r ensures FromLast(es, e) {
        if e == last {
          assert IsLast(es, n);
        } else {
          LastStaysLast(es, e);
        }
      }
      forall a | 0 <= a < |es| ensures HasKey(r, es[a].key) {
        if es[a].key != last.key {
          assert es[..n][a] == es[a];
          var e :| e in c && e.key == es[a].key;
          assert e in r;
        }
      }
    }
  }

  // ----- bounding meets the specification -----

  /** What is left of any value is exactly this. */
  lemma {:induction false} BoundedIsCut(show: Printer, v: Value, depth: nat)
    ensures IsCutOf(show, v, depth, Bounded(show, v, depth))
    decreases MAX_DEPTH - depth, 1
  {
    if depth < 4 {
      if v.Dict? {
        BoundedDictIsCut(show, v.entries, depth);
      } else if v.Sequence? {
        var xs := First(v.items, MAX_EVIDENCE_ITEMS);
        forall i | 0 <= i < |xs| ensures IsCutOf(show, v.items[i], depth + 1, Bounded(show, xs[i], depth + 1)) {
          BoundedIsCut(show, xs[i], depth + 1);
        }
      }
    }
  }

  lemma {:induction false} BoundedDictIsCut(show: Printer, es: seq<Entry>, depth: nat)
    requires depth < 4
    ensures IsCutOf(show, Dict(es), depth, Bounded(show, Dict(es), depth))
    decreases MAX_DEPTH - depth, 0
  {
    var order := SortArranges(show, es);
    var kept := First(Picked(es, order), 64);
    forall a | 0 <= a < |kept| ensures IsCutOf(show, kept[a].value, depth + 1, Bounded(show, kept[a].value, depth + 1)) {
      BoundedIsCut(show, kept[a].value, depth + 1);
    }
    CollapsedIsCut(show, kept, depth);
    BoundedIsNormal(show, Dict(es), depth);
    assert Bounded(show, Dict(es), depth) == Dict(Collapse(Trimmed(show, kept, depth)));
  }

  lemma CollapsedIsCut(show: Printer, kept: seq<Entry>, depth: nat)
    requires depth < 4
    requires forall a :: 0 <= a < |kept| ==> IsCutOf(show, kept[a].value, depth + 1, Bounded(show, kept[a].value, depth + 1))
    ensures IsCutDict(show, kept, depth, Collapse(Trimmed(show, kept, depth)))
  {
    var trimmed := Trimmed(show, kept, depth);
    CollapseKeepsLast(trimmed);
    forall a | 0 <= a < |kept| ensures trimmed[a] == Entry(CutKey(show, kept[a]), Bounded(show, kept[a].value, depth + 1)) {
    }
    forall e | e in Collapse(trimmed)
      ensures exists a: nat :: IsLastFor(show, kept, a, e.key) && IsCutOf(show, kept[a].value, depth + 1, e.value)
    {
      assert FromLast(trimmed, e);
      var a: nat :| IsLast(trimmed, a) && trimmed[a] == e;
      assert IsLastFor(show, kept, a, e.key);
    }
  }
}
