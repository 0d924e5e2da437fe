/** Near-duplicate removal: greedy star clusters around the first memory not yet seen. */
module Duplicates {
  import opened Text
  import opened Jaccard

  type Id = string

  /** A memory row with the word set of its content. */
  datatype Entry = Entry(id: Id, tokens: set<string>)
  datatype Cluster = Cluster(canonical: Id, duplicates: seq<Id>)

  type Relation = (Entry, Entry) -> bool

  /** sim >= threshold */
  function Near(threshold: real): Relation {
    (a: Entry, b: Entry) => StrictSimilarity(a.tokens, b.tokens) >= threshold
  }

  /** The inner loop: unseen later rows near a, each id once. */
  function Scan(a: Entry, rest: seq<Entry>, seen: set<Id>, near: Relation): seq<Id> {
    if rest == [] then []
    else if rest[0].id in seen || !near(a, rest[0]) then Scan(a, rest[1..], seen, near)
    else [rest[0].id] + Scan(a, rest[1..], seen + {rest[0].id}, near)
  }

  function SeenAfter(id: Id, duplicates: seq<Id>, seen: set<Id>): set<Id> {
    if duplicates == [] then seen else seen + Elements(duplicates) + {id}
  }

  function Star(id: Id, duplicates: seq<Id>): seq<Cluster> {
    if duplicates == [] then [] else [Cluster(id, duplicates)]
  }

  /** The outer loop. */
  function Clusters(ms: seq<Entry>, seen: set<Id>, near: Relation): seq<Cluster> {
    if ms == [] then []
    else if ms[0].id in seen then Clusters(ms[1..], seen, near)
    else
      var d := Scan(ms[0], ms[1..], seen, near);
      Star(ms[0].id, d) + Clusters(ms[1..], SeenAfter(ms[0].id, d, seen), near)
  }

  method ScanRow(ms: seq<Entry>, i: nat, seen: set<Id>, near: Relation) returns (duplicates: seq<Id>, seen': set<Id>)
    requires i < |ms|
    ensures duplicates == Scan(ms[i], ms[i + 1..], seen, near)
    ensures seen' == seen + Elements(duplicates)
  {
    duplicates, seen' := [], seen;
    ghost var total := Scan(ms[i], ms[i + 1..], seen, near);
    for j := i + 1 to |ms|
      invariant seen' == seen + Elements(duplicates)
      invariant total == duplicates + Scan(ms[i], ms[j..], seen', near)
    {
      ScanFrom(ms[i], ms, j, seen', near);
      if ms[j].id !in seen' && near(ms[i], ms[j]) {
        Regroup(duplicates, ms[j].id, Scan(ms[i], ms[j + 1..], seen' + {ms[j].id}, near));
        Extend(seen, duplicates, ms[j].id);
        duplicates := duplicates + [ms[j].id];
        seen' := seen' + {ms[j].id};
      }
    }
    assert duplicates + [] == duplicates;
  }

  lemma Regroup<T>(xs: seq<T>, x: T, rest: seq<T>)
    ensures xs + ([x] + rest) == (xs + [x]) + rest
  {
  }

  lemma Extend(seen: set<Id>, xs: seq<Id>, x: Id)
    ensures seen + Elements(xs + [x]) == seen + Elements(xs) + {x}
  {
    ElementsSnoc(xs, x);
  }

  lemma ScanFrom(a: Entry, ms: seq<Entry>, j: nat, seen: set<Id>, near: Relation)
    requires j < |ms|
    ensures Scan(a, ms[j..], seen, near) ==
      if ms[j].id in seen || !near(a, ms[j]) then Scan(a, ms[j + 1..], seen, near)
      else [ms[j].id] + Scan(a, ms[j + 1..], seen + {ms[j].id}, near)
  {
    assert ms[j..][0] == ms[j] && ms[j..][1..] == ms[j + 1..];
  }

  lemma ClustersFrom(ms: seq<Entry>, i: nat, seen: set<Id>, near: Relation)
    requires i < |ms|
    ensures Clusters(ms[i..], seen, near) ==
      if ms[i].id in seen then Clusters(ms[i + 1..], seen, near)
      else
        var d := Scan(ms[i], ms[i + 1..], seen, near);
        Star(ms[i].id, d) + Clusters(ms[i + 1..], SeenAfter(ms[i].id, d, seen), near)
  {
    assert ms[i..][0] == ms[i] && ms[i..][1..] == ms[i + 1..];
  }

  /** _detect_duplicates */
  method DetectDuplicates(ms: seq<Entry>, threshold: real) returns (clusters: seq<Cluster>)
    ensures clusters == Clusters(ms, {}, Near(threshold))
  {
    clusters := DetectNear(ms, Near(threshold));
  }

  method DetectNear(ms: seq<Entry>, near: Relation) returns (clusters: seq<Cluster>)
    ensures clusters == Clusters(ms, {}, near)
  {
    clusters := [];
    var seen: set<Id> := {};
    for i := 0 to |ms|
      invariant clusters + Clusters(ms[i..], seen, near) == Clusters(ms, {}, near)
    {
      ClustersFrom(ms, i, seen, near);
      if ms[i].id in seen {
        continue;
      }
      var d, scanned := ScanRow(ms, i, seen, near);
      if d != [] {
        clusters := clusters + [Cluster(ms[i].id, d)];
        seen := scanned + {ms[i].id};
      }
    }
  }

  // ----- merging -----

  datatype Meta = Meta(deleted: bool, mergedFrom: seq<Id>)
  type Rows = map<Id, Meta>

  /** Only an active canonical is read, and so cited at. */
  function Cite(rows: Rows, id: Id, ids: seq<Id>): Rows {
    if id in rows && !rows[id].deleted then rows[id := rows[id].(mergedFrom := rows[id].mergedFrom + ids)] else rows
  }

  function SoftDelete(rows: Rows, id: Id): Rows {
    if id in rows then rows[id := rows[id].(deleted := true)] else rows
  }

  function SoftDeleteAll(rows: Rows, ids: seq<Id>): Rows {
    if ids == [] then rows else SoftDelete(SoftDeleteAll(rows, ids[..|ids| - 1]), ids[|ids| - 1])
  }

  function MergeOne(rows: Rows, c: Cluster): Rows {
    SoftDeleteAll(Cite(rows, c.canonical, c.duplicates), c.duplicates)
  }

  function MergeAll(rows: Rows, cs: seq<Cluster>): Rows {
    if cs == [] then rows else MergeOne(MergeAll(rows, cs[..|cs| - 1]), cs[|cs| - 1])
  }

  class MemoryStore {
    var rows: Rows

    constructor (rows: Rows)
      ensures this.rows == rows
    {
      this.rows := rows;
    }

    /** _merge_duplicates */
    method MergeDuplicates(clusters: seq<Cluster>, dryRun: bool)
      modifies this
      ensures rows == if dryRun then old(rows) else MergeAll(old(rows), clusters)
    {
      for k := 0 to |clusters|
        invariant rows == if dryRun then old(rows) else MergeAll(old(rows), clusters[..k])
      {
        assert clusters[..k + 1][..k] == clusters[..k];
        if dryRun {
          continue;
        }
        var c := clusters[k];
        if c.canonical in rows && !rows[c.canonical].deleted {
          rows := rows[c.canonical := rows[c.canonical].(mergedFrom := rows[c.canonical].mergedFrom + c.duplicates)];
        }
        ghost var cited := rows;
        for j := 0 to |c.duplicates|
          invariant rows == SoftDeleteAll(cited, c.duplicates[..j])
        {
          assert c.duplicates[..j + 1][..j] == c.duplicates[..j];
          if c.duplicates[j] in rows {
            rows := rows[c.duplicates[j] := rows[c.duplicates[j]].(deleted := true)];
          }
        }
        assert c.duplicates[..|c.duplicates|] == c.duplicates;
      }
      assert clusters[..|clusters|] == clusters;
    }
  }
}
