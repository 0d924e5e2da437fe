/** What duplicate removal does to a list of memories, for every near-relation and threshold. */
module DuplicateTheorems {
  import opened Text
  import opened Jaccard
  import opened Duplicates

  ghost predicate Distinct(ms: seq<Entry>) {
    forall i, j :: 0 <= i < j < |ms| ==> ms[i].id != ms[j].id
  }

  ghost predicate IdIn(ms: seq<Entry>, id: Id) {
    exists k :: 0 <= k < |ms| && ms[k].id == id
  }

  ghost predicate NearIn(a: Entry, ms: seq<Entry>, id: Id, near: Relation) {
    exists k :: 0 <= k < |ms| && ms[k].id == id && near(a, ms[k])
  }

  // ----- one star -----

  /** A star lists, once each, exactly the unseen ids that some later row near its centre bears. */
  lemma {:induction false} ScanExact(a: Entry, rest: seq<Entry>, seen: set<Id>, near: Relation)
    ensures var d := Scan(a, rest, seen, near);
      Unrepeated(d) && forall id :: id in d <==> id !in seen && NearIn(a, rest, id, near)
  {
    if rest != [] {
      var first, tail := rest[0], rest[1..];
      var skip := first.id in seen || !near(a, first);
      var seen' := if skip then seen else seen + {first.id};
      ScanExact(a, tail, seen', near);
      var e, d := Scan(a, tail, seen', near), Scan(a, rest, seen, near);
      assert d == (if skip then [] else [first.id]) + e;
      forall id ensures id in d <==> id !in seen && NearIn(a, rest, id, near) {
        NearInCons(a, rest, id, near);
        assert id in d <==> (!skip && id == first.id) || id in e;
      }
    }
  }

  lemma NearInCons(a: Entry, rest: seq<Entry>, id: Id, near: Relation)
    requires rest != []
    ensures NearIn(a, rest, id, near) <==> (rest[0].id == id && near(a, rest[0])) || NearIn(a, rest[1..], id, near)
  {
    if NearIn(a, rest, id, near) {
      var k :| 0 <= k < |rest| && rest[k].id == id && near(a, rest[k]);
      if k > 0 {
        assert rest[1..][k - 1] == rest[k];
      }
    }
    if NearIn(a, rest[1..], id, near) {
      var k :| 0 <= k < |rest[1..]| && rest[1..][k].id == id && near(a, rest[1..][k]);
      assert rest[k + 1] == rest[1..][k];
    }
  }

  /** The centre of a star is listed among its own duplicates exactly if a later replica of it is near it. */
  lemma SelfDuplicateIff(a: Entry, rest: seq<Entry>, seen: set<Id>, near: Relation)
    requires a.id !in seen
    ensures a.id in Scan(a, rest, seen, near) <==> NearIn(a, rest, a.id, near)
  {
    ScanExact(a, rest, seen, near);
  }

  // ----- all stars -----

  /** Canonicals and duplicates, cluster after cluster. */
  function Members(cs: seq<Cluster>): seq<Id> {
    if cs == [] then [] else [cs[0].canonical] + cs[0].duplicates + Members(cs[1..])
  }

  function DuplicateIds(cs: seq<Cluster>): set<Id> {
    if cs == [] then {} else Elements(cs[0].duplicates) + DuplicateIds(cs[1..])
  }

  /** Each duplicate stands after its canonical in the list and is near it. */
  ghost predicate StarIn(ms: seq<Entry>, c: Cluster, near: Relation) {
    exists i :: 0 <= i < |ms| && ms[i].id == c.canonical && c.duplicates != [] &&
      forall d :: d in c.duplicates ==> NearIn(ms[i], ms[i + 1..], d, near)
  }

  lemma StarInTail(ms: seq<Entry>, c: Cluster, near: Relation)
    requires ms != [] && StarIn(ms[1..], c, near)
    ensures StarIn(ms, c, near)
  {
    var i :| 0 <= i < |ms[1..]| && ms[1..][i].id == c.canonical && c.duplicates != [] &&
      forall d :: d in c.duplicates ==> NearIn(ms[1..][i], ms[1..][i + 1..], d, near);
    assert ms[1..][i] == ms[i + 1] && ms[1..][i + 1..] == ms[i + 2..];
  }

  lemma {:induction false} StarsAreNear(ms: seq<Entry>, seen: set<Id>, near: Relation)
    ensures forall c :: c in Clusters(ms, seen, near) ==> StarIn(ms, c, near)
  {
    if ms != [] {
      var d := Scan(ms[0], ms[1..], seen, near);
      var seen' := if ms[0].id in seen then seen else SeenAfter(ms[0].id, d, seen);
      StarsAreNear(ms[1..], seen', near);
      ScanExact(ms[0], ms[1..], seen, near);
      forall c | c in Clusters(ms, seen, near) ensures StarIn(ms, c, near) {
        if c in Clusters(ms[1..], seen', near) {
          StarInTail(ms, c, near);
        } else {
          assert c == Cluster(ms[0].id, d);
        }
      }
    }
  }

  /** For distinct ids no id occurs twice among all canonicals and duplicates: clusters are
      disjoint and no canonical is ever a duplicate. */
  lemma {:induction false} MembersUnrepeated(ms: seq<Entry>, seen: set<Id>, near: Relation)
    requires Distinct(ms)
    ensures var all := Members(Clusters(ms, seen, near));
      Unrepeated(all) && forall id :: id in all ==> id !in seen && IdIn(ms, id)
  {
    if ms != [] {
      var a, tail := ms[0], ms[1..];
      assert Distinct(tail);
      if a.id in seen {
        MembersUnrepeated(tail, seen, near);
        TailIds(ms);
      } else {
        var d := Scan(a, tail, seen, near);
        var seen' := SeenAfter(a.id, d, seen);
        MembersUnrepeated(tail, seen', near);
        ScanExact(a, tail, seen, near);
        TailIds(ms);
        forall id | id in d ensures id != a.id && id !in seen && IdIn(tail, id) {
          var k :| 0 <= k < |tail| && tail[k].id == id && near(a, tail[k]);
          assert ms[k + 1].id == id;
        }
        var later := Clusters(tail, seen', near);
        if d != [] {
          assert Clusters(ms, seen, near)[0] == Cluster(a.id, d);
          assert Clusters(ms, seen, near)[1..] == later;
          Disjoint([a.id] + d, Members(later));
        } else {
          assert Clusters(ms, seen, near) == later;
        }
      }
    }
  }

  lemma TailIds(ms: seq<Entry>)
    requires ms != []
    ensures forall id :: IdIn(ms[1..], id) ==> IdIn(ms, id)
    ensures IdIn(ms, ms[0].id)
  {
    forall id | IdIn(ms[1..], id) ensures IdIn(ms, id) {
      var k :| 0 <= k < |ms[1..]| && ms[1..][k].id == id;
      assert ms[k + 1].id == id;
    }
  }

  lemma Disjoint(a: seq<Id>, b: seq<Id>)
    requires Unrepeated(a) && Unrepeated(b) && forall x :: x in a ==> x !in b
    ensures Unrepeated(a + b)
  {
    forall i, j | 0 <= i < j < |a + b| ensures (a + b)[i] != (a + b)[j] {
      if i < |a| <= j {
        assert a[i] in a && b[j - |a|] in b;
      }
    }
  }

  // ----- survivors -----

  function Survivors(ms: seq<Entry>, gone: set<Id>): seq<Entry> {
    if ms == [] then []
    else (if ms[0].id in gone then [] else [ms[0]]) + Survivors(ms[1..], gone)
  }

  ghost predicate Apart(ms: seq<Entry>, near: Relation) {
    forall i, j :: 0 <= i < j < |ms| ==> !near(ms[i], ms[j])
  }

  lemma NearAt(a: Entry, ms: seq<Entry>, k: nat, near: Relation)
    requires k < |ms|
    ensures near(a, ms[k]) ==> NearIn(a, ms, ms[k].id, near)
  {
  }

  lemma DuplicatesOfFirst(ms: seq<Entry>, seen: set<Id>, near: Relation)
    requires ms != []
    ensures var all := DuplicateIds(Clusters(ms, seen, near));
      if ms[0].id in seen then all == DuplicateIds(Clusters(ms[1..], seen, near))
      else
        var d := Scan(ms[0], ms[1..], seen, near);
        all == Elements(d) + DuplicateIds(Clusters(ms[1..], SeenAfter(ms[0].id, d, seen), near))
  {
    if ms[0].id !in seen {
      var d := Scan(ms[0], ms[1..], seen, near);
      var later := Clusters(ms[1..], SeenAfter(ms[0].id, d, seen), near);
      if d == [] {
        assert Star(ms[0].id, d) + later == later;
      } else {
        assert ([Cluster(ms[0].id, d)] + later)[1..] == later;
      }
    }
  }

  lemma DistinctTail(ms: seq<Entry>)
    requires Distinct(ms) && ms != []
    ensures Distinct(ms[1..])
  {
  }

  /** The first unseen row lists every later unseen row it is near. */
  lemma FirstTakesNear(ms: seq<Entry>, seen: set<Id>, near: Relation, j: nat)
    requires 0 < j < |ms| && ms[j].id !in seen && near(ms[0], ms[j])
    ensures ms[j].id in Scan(ms[0], ms[1..], seen, near)
  {
    ScanExact(ms[0], ms[1..], seen, near);
    assert ms[1..][j - 1] == ms[j];
    NearAt(ms[0], ms[1..], j - 1, near);
  }

  /** Two rows that are neither seen nor duplicates are not near each other. */
  lemma {:induction false} UnmarkedAreApart(ms: seq<Entry>, seen: set<Id>, near: Relation, i: nat, j: nat)
    requires Distinct(ms) && i < j < |ms| && ms[i].id !in seen && ms[j].id !in seen
    requires ms[i].id !in DuplicateIds(Clusters(ms, seen, near)) && ms[j].id !in DuplicateIds(Clusters(ms, seen, near))
    ensures !near(ms[i], ms[j])
  {
    var tail := ms[1..];
    DistinctTail(ms);
    assert tail[j - 1] == ms[j] && (i > 0 ==> tail[i - 1] == ms[i]);
    DuplicatesOfFirst(ms, seen, near);
    if ms[0].id in seen {
      UnmarkedAreApart(tail, seen, near, i - 1, j - 1);
    } else if i == 0 {
      if near(ms[0], ms[j]) {
        FirstTakesNear(ms, seen, near, j);
      }
    } else {
      var d := Scan(ms[0], tail, seen, near);
      assert ms[0].id != ms[i].id && ms[0].id != ms[j].id;
      UnmarkedAreApart(tail, SeenAfter(ms[0].id, d, seen), near, i - 1, j - 1);
    }
  }

  ghost predicate KeptApart(ms: seq<Entry>, gone: set<Id>, near: Relation) {
    forall i, j :: 0 <= i < j < |ms| && ms[i].id !in gone && ms[j].id !in gone ==> !near(ms[i], ms[j])
  }

  lemma {:induction false} SurvivorsAreRows(ms: seq<Entry>, gone: set<Id>)
    ensures forall s :: s in Survivors(ms, gone) <==> s in ms && s.id !in gone
  {
    if ms != [] {
      SurvivorsAreRows(ms[1..], gone);
      assert forall s :: s in ms <==> s == ms[0] || s in ms[1..];
    }
  }

  lemma {:induction false} SurvivorsApart(ms: seq<Entry>, gone: set<Id>, near: Relation)
    requires KeptApart(ms, gone, near)
    ensures Apart(Survivors(ms, gone), near)
  {
    if ms != [] {
      var rest := Survivors(ms[1..], gone);
      TailKeptApart(ms, gone, near);
      SurvivorsApart(ms[1..], gone, near);
      if ms[0].id !in gone {
        SurvivorsAreRows(ms[1..], gone);
        forall k | 0 <= k < |rest| ensures !near(ms[0], rest[k]) {
          assert rest[k] in rest;
          var j :| 0 <= j < |ms[1..]| && ms[1..][j] == rest[k];
          assert ms[j + 1] == rest[k];
        }
      }
    }
  }

  lemma TailKeptApart(ms: seq<Entry>, gone: set<Id>, near: Relation)
    requires KeptApart(ms, gone, near) && ms != []
    ensures KeptApart(ms[1..], gone, near)
  {
  }

  lemma {:induction false} NothingNear(a: Entry, rest: seq<Entry>, seen: set<Id>, near: Relation)
    requires forall k :: 0 <= k < |rest| ==> !near(a, rest[k])
    ensures Scan(a, rest, seen, near) == []
  {
    if rest != [] {
      NothingNear(a, rest[1..], seen, near);
    }
  }

  lemma {:induction false} ApartMeansQuiet(ms: seq<Entry>, seen: set<Id>, near: Relation)
    requires Apart(ms, near)
    ensures Clusters(ms, seen, near) == []
  {
    if ms != [] {
      forall k | 0 <= k < |ms[1..]| ensures !near(ms[0], ms[1..][k]) {
        assert ms[1..][k] == ms[k + 1];
      }
      NothingNear(ms[0], ms[1..], seen, near);
      assert Apart(ms[1..], near);
      ApartMeansQuiet(ms[1..], seen, near);
    }
  }

  /** For distinct ids the survivors are pairwise below threshold, so a rerun on them finds nothing. */
  lemma RerunIsQuiet(ms: seq<Entry>, near: Relation)
    requires Distinct(ms)
    ensures var survivors := Survivors(ms, DuplicateIds(Clusters(ms, {}, near)));
      Apart(survivors, near) && Clusters(survivors, {}, near) == []
  {
    var gone := DuplicateIds(Clusters(ms, {}, near));
    forall i, j | 0 <= i < j < |ms| && ms[i].id !in gone && ms[j].id !in gone ensures !near(ms[i], ms[j]) {
      UnmarkedAreApart(ms, {}, near, i, j);
    }
    SurvivorsApart(ms, gone, near);
    ApartMeansQuiet(Survivors(ms, gone), {}, near);
  }

  // ----- closeness inside a cluster -----

  /** Any two members of one star at threshold t are at least 2t - 1 similar. */
  lemma StarDiameter(a: Entry, b: Entry, c: Entry, threshold: real)
    requires Near(threshold)(a, b) && Near(threshold)(a, c)
    ensures StrictSimilarity(b.tokens, c.tokens) >= 2.0 * threshold - 1.0
  {
    StrictTriangle(b.tokens, a.tokens, c.tokens);
    StrictTriangle(a.tokens, b.tokens, c.tokens);
  }

  lemma StarCentre(ms: seq<Entry>, c: Cluster, near: Relation) returns (i: nat)
    requires StarIn(ms, c, near)
    ensures i < |ms| && ms[i].id == c.canonical && c.duplicates != []
    ensures forall d :: d in c.duplicates ==> NearIn(ms[i], ms, d, near)
  {
    i :| 0 <= i < |ms| && ms[i].id == c.canonical && c.duplicates != [] &&
      forall d :: d in c.duplicates ==> NearIn(ms[i], ms[i + 1..], d, near);
    forall d | d in c.duplicates ensures NearIn(ms[i], ms, d, near) {
      var p :| 0 <= p < |ms[i + 1..]| && ms[i + 1..][p].id == d && near(ms[i], ms[i + 1..][p]);
      assert ms[i + 1 + p] == ms[i + 1..][p];
    }
  }

  lemma RowOfDuplicate(ms: seq<Entry>, i: nat, p: nat, near: Relation)
    requires Distinct(ms) && i < |ms| && p < |ms| && NearIn(ms[i], ms, ms[p].id, near)
    ensures near(ms[i], ms[p])
  {
    var k :| 0 <= k < |ms| && ms[k].id == ms[p].id && near(ms[i], ms[k]);
    assert k == p;
  }

  predicate MemberOf(c: Cluster, id: Id) {
    id == c.canonical || id in c.duplicates
  }

  lemma NearIsClose(a: Entry, b: Entry, threshold: real)
    requires Near(threshold)(a, b)
    ensures Near(threshold)(b, a) && StrictSimilarity(a.tokens, b.tokens) >= 2.0 * threshold - 1.0
  {
    StrictTriangle(a.tokens, b.tokens, a.tokens);
  }

  /** Any two members of one cluster, canonical or not, are at least 2t - 1 similar; at the default
      threshold that is 0.70. */
  lemma ClusterDiameter(ms: seq<Entry>, threshold: real, c: Cluster, p: nat, q: nat)
    requires Distinct(ms) && c in Clusters(ms, {}, Near(threshold))
    requires p < |ms| && q < |ms| && MemberOf(c, ms[p].id) && MemberOf(c, ms[q].id)
    ensures StrictSimilarity(ms[p].tokens, ms[q].tokens) >= 2.0 * threshold - 1.0
    ensures threshold == 0.85 ==> StrictSimilarity(ms[p].tokens, ms[q].tokens) >= 0.70
  {
    var near := Near(threshold);
    StarsAreNear(ms, {}, near);
    var i := StarCentre(ms, c, near);
    if p != i {
      RowOfDuplicate(ms, i, p, near);
    }
    if q != i {
      RowOfDuplicate(ms, i, q, near);
    }
    ViaCentre(ms, c, i, p, q, threshold);
  }

  lemma ViaCentre(ms: seq<Entry>, c: Cluster, i: nat, p: nat, q: nat, threshold: real)
    requires i < |ms| && p < |ms| && q < |ms|
    requires p == i || Near(threshold)(ms[i], ms[p])
    requires q == i || Near(threshold)(ms[i], ms[q])
    requires c.duplicates != [] && NearIn(ms[i], ms, c.duplicates[0], Near(threshold))
    ensures StrictSimilarity(ms[p].tokens, ms[q].tokens) >= 2.0 * threshold - 1.0
  {
    if p == i && q == i {
      var k :| 0 <= k < |ms| && Near(threshold)(ms[i], ms[k]);
      NearIsClose(ms[i], ms[k], threshold);
      StarDiameter(ms[k], ms[i], ms[i], threshold);
    } else if p == i {
      NearIsClose(ms[i], ms[q], threshold);
    } else if q == i {
      NearIsClose(ms[i], ms[p], threshold);
      StrictTriangle(ms[p].tokens, ms[i].tokens, ms[p].tokens);
    } else {
      StarDiameter(ms[i], ms[p], ms[q], threshold);
    }
  }

  // ----- merging -----

  ghost predicate Active(rows: Rows, id: Id) {
    id in rows && !rows[id].deleted
  }

  lemma {:induction false} SoftDeleteAllExact(rows: Rows, ids: seq<Id>)
    ensures var r := SoftDeleteAll(rows, ids);
      r.Keys == rows.Keys && forall id :: id in rows ==>
        r[id].mergedFrom == rows[id].mergedFrom && r[id].deleted == (rows[id].deleted || id in ids)
  {
    if ids != [] {
      var n := |ids| - 1;
      SoftDeleteAllExact(rows, ids[..n]);
      assert ids == ids[..n] + [ids[n]];
    }
  }

  ghost predicate DeletedBy(cs: seq<Cluster>, id: Id) {
    exists k :: 0 <= k < |cs| && id in cs[k].duplicates
  }

  /** The duplicates of the clusters around id, in order, up to the one that deletes id, if any: a
      canonical that is deleted is cited at no longer, or not at all if it was to begin with. */
  ghost function CitedBy(rows: Rows, cs: seq<Cluster>, id: Id): seq<Id> {
    if cs == [] then []
    else
      var n := |cs| - 1;
      CitedBy(rows, cs[..n], id)
      + if cs[n].canonical == id && Active(rows, id) && !DeletedBy(cs[..n], id) then cs[n].duplicates else []
  }

  lemma MergeOneExact(rows: Rows, c: Cluster)
    ensures var r := MergeOne(rows, c);
      r.Keys == rows.Keys && forall id :: id in rows ==>
        && r[id].mergedFrom == rows[id].mergedFrom + (if id == c.canonical && !rows[id].deleted then c.duplicates else [])
        && r[id].deleted == (rows[id].deleted || id in c.duplicates)
  {
    SoftDeleteAllExact(Cite(rows, c.canonical, c.duplicates), c.duplicates);
  }

  /** What became of a row. */
  ghost predicate MergedRow(rows: Rows, cs: seq<Cluster>, r: Rows, id: Id)
    requires id in rows && id in r
  {
    r[id].mergedFrom == rows[id].mergedFrom + CitedBy(rows, cs, id) && r[id].deleted == (rows[id].deleted || DeletedBy(cs, id))
  }

  lemma MergedRowNext(rows: Rows, cs: seq<Cluster>, r: Rows, id: Id)
    requires cs != [] && id in rows && id in r && MergedRow(rows, cs[..|cs| - 1], r, id)
    ensures id in MergeOne(r, cs[|cs| - 1]) && MergedRow(rows, cs, MergeOne(r, cs[|cs| - 1]), id)
  {
    var c := cs[|cs| - 1];
    MergeOneExact(r, c);
    DeletedByLast(cs, id);
    assert r[id].mergedFrom + (if id == c.canonical && !r[id].deleted then c.duplicates else [])
        == rows[id].mergedFrom + CitedBy(rows, cs, id);
  }

  /** Merging deletes exactly the duplicates and cites them, in full, at their canonicals, as long as
      those are active. */
  lemma {:induction false} MergeExact(rows: Rows, cs: seq<Cluster>)
    ensures var r := MergeAll(rows, cs);
      r.Keys == rows.Keys && forall id :: id in rows ==>
        r[id].mergedFrom == rows[id].mergedFrom + CitedBy(rows, cs, id) && r[id].deleted == (rows[id].deleted || DeletedBy(cs, id))
  {
    if cs != [] {
      var n := |cs| - 1;
      MergeExact(rows, cs[..n]);
      MergeOneExact(MergeAll(rows, cs[..n]), cs[n]);
      forall id | id in rows ensures MergedRow(rows, cs, MergeAll(rows, cs), id) {
        MergedRowNext(rows, cs, MergeAll(rows, cs[..n]), id);
      }
    }
  }

  lemma DeletedByLast(cs: seq<Cluster>, id: Id)
    requires cs != []
    ensures DeletedBy(cs, id) <==> DeletedBy(cs[..|cs| - 1], id) || id in cs[|cs| - 1].duplicates
  {
    var n := |cs| - 1;
    if DeletedBy(cs, id) {
      var k :| 0 <= k < |cs| && id in cs[k].duplicates;
      assert k < n ==> cs[..n][k] == cs[k];
    }
    if DeletedBy(cs[..n], id) {
      var k :| 0 <= k < n && id in cs[..n][k].duplicates;
      assert cs[k] == cs[..n][k];
    }
  }

  lemma {:induction false} DuplicateIdsExact(cs: seq<Cluster>, id: Id)
    ensures id in DuplicateIds(cs) <==> DeletedBy(cs, id)
  {
    if cs != [] {
      DuplicateIdsExact(cs[1..], id);
      if DeletedBy(cs, id) {
        var k :| 0 <= k < |cs| && id in cs[k].duplicates;
        assert k > 0 ==> cs[1..][k - 1] == cs[k];
      }
      if DeletedBy(cs[1..], id) {
        var k :| 0 <= k < |cs[1..]| && id in cs[1..][k].duplicates;
        assert cs[k + 1] == cs[1..][k];
      }
    }
  }

  lemma {:induction false} MembersHold(cs: seq<Cluster>, k: nat, id: Id)
    requires k < |cs| && (id == cs[k].canonical || id in cs[k].duplicates)
    ensures id in Members(cs)
  {
    if k > 0 {
      assert cs[1..][k - 1] == cs[k];
      MembersHold(cs[1..], k - 1, id);
    }
  }

  /** With all members distinct, a canonical is a duplicate of no cluster. */
  lemma {:induction false} CanonicalIsNoDuplicate(cs: seq<Cluster>, j: nat, k: nat)
    requires Unrepeated(Members(cs)) && j < |cs| && k < |cs|
    ensures cs[j].canonical !in cs[k].duplicates
  {
    var head, tail := [cs[0].canonical] + cs[0].duplicates, Members(cs[1..]);
    assert Members(cs) == head + tail;
    SplitUnrepeated(head, tail);
    if j > 0 && k > 0 {
      assert cs[1..][j - 1] == cs[j] && cs[1..][k - 1] == cs[k];
      CanonicalIsNoDuplicate(cs[1..], j - 1, k - 1);
    } else if j == 0 && k == 0 {
      forall i | 0 <= i < |cs[0].duplicates| ensures cs[0].duplicates[i] != cs[0].canonical {
        assert head[i + 1] == cs[0].duplicates[i] && head[0] != head[i + 1];
      }
    } else if j == 0 {
      if cs[0].canonical in cs[k].duplicates {
        MembersHold(cs[1..], k - 1, cs[0].canonical);
      }
    } else {
      MembersHold(cs[1..], j - 1, cs[j].canonical);
    }
  }

  lemma SplitUnrepeated(a: seq<Id>, b: seq<Id>)
    requires Unrepeated(a + b)
    ensures Unrepeated(a) && Unrepeated(b) && forall x :: x in a ==> x !in b
  {
    forall i, j | 0 <= i < j < |a| ensures a[i] != a[j] {
      assert (a + b)[i] == a[i] && (a + b)[j] == a[j];
    }
    forall i, j | 0 <= i < j < |b| ensures b[i] != b[j] {
      assert (a + b)[|a| + i] == b[i] && (a + b)[|a| + j] == b[j];
    }
    forall i, j | 0 <= i < |a| && 0 <= j < |b| ensures a[i] != b[j] {
      assert (a + b)[i] == a[i] && (a + b)[|a| + j] == b[j];
    }
  }

  // ----- when nothing is lost -----

  ghost predicate ClustersApart(cs: seq<Cluster>) {
    forall j, k, x :: 0 <= j < k < |cs| && MemberOf(cs[j], x) ==> !MemberOf(cs[k], x)
  }

  /** Members are ids of the list that were not seen before. */
  lemma {:induction false} MembersAreUnseen(ms: seq<Entry>, seen: set<Id>, near: Relation)
    ensures forall c, x :: c in Clusters(ms, seen, near) && MemberOf(c, x) ==> x !in seen && IdIn(ms, x)
  {
    if ms != [] {
      var d := Scan(ms[0], ms[1..], seen, near);
      var seen' := if ms[0].id in seen then seen else SeenAfter(ms[0].id, d, seen);
      MembersAreUnseen(ms[1..], seen', near);
      ScanExact(ms[0], ms[1..], seen, near);
      TailIds(ms);
      forall c, x | c in Clusters(ms, seen, near) && MemberOf(c, x) ensures x !in seen && IdIn(ms, x) {
        if c !in Clusters(ms[1..], seen', near) {
          assert c == Cluster(ms[0].id, d);
          assert x in d ==> IdIn(ms[1..], x) by {
            NearInIsIn(ms[0], ms[1..], x, near);
          }
        }
      }
    }
  }

  lemma NearInIsIn(a: Entry, ms: seq<Entry>, id: Id, near: Relation)
    ensures NearIn(a, ms, id, near) ==> IdIn(ms, id)
  {
  }

  /** Clusters share no member, even if ids repeat. */
  lemma {:induction false} ClustersAreApart(ms: seq<Entry>, seen: set<Id>, near: Relation)
    ensures ClustersApart(Clusters(ms, seen, near))
  {
    if ms != [] {
      if ms[0].id in seen {
        ClustersAreApart(ms[1..], seen, near);
      } else {
        var d := Scan(ms[0], ms[1..], seen, near);
        var seen' := SeenAfter(ms[0].id, d, seen);
        ClustersAreApart(ms[1..], seen', near);
        MembersAreUnseen(ms[1..], seen', near);
        StarApart(ms[0].id, d, seen', Clusters(ms[1..], seen', near));
      }
    }
  }

  lemma StarApart(id: Id, d: seq<Id>, seen: set<Id>, later: seq<Cluster>)
    requires ClustersApart(later) && (d != [] ==> id in seen && forall x :: x in d ==> x in seen)
    requires forall c, x :: c in later && MemberOf(c, x) ==> x !in seen
    ensures ClustersApart(Star(id, d) + later)
  {
    var all := Star(id, d) + later;
    if d == [] {
      assert all == later;
    } else {
      forall j, k, x | 0 <= j < k < |all| && MemberOf(all[j], x) ensures !MemberOf(all[k], x) {
        assert all[k] == later[k - 1] && later[k - 1] in later;
        assert j > 0 ==> all[j] == later[j - 1];
      }
    }
  }

  lemma {:induction false} CitedByOnly(rows: Rows, cs: seq<Cluster>, keeper: Id, x: Id)
    ensures x in CitedBy(rows, cs, keeper) ==> exists k :: 0 <= k < |cs| && cs[k].canonical == keeper && x in cs[k].duplicates
  {
    if cs != [] {
      var n := |cs| - 1;
      CitedByOnly(rows, cs[..n], keeper, x);
      if k :| 0 <= k < n && cs[..n][k].canonical == keeper && x in cs[..n][k].duplicates {
        assert cs[k] == cs[..n][k];
      }
    }
  }

  lemma {:induction false} CitedByAll(rows: Rows, cs: seq<Cluster>, k: nat, x: Id)
    requires k < |cs| && x in cs[k].duplicates && Active(rows, cs[k].canonical) && !DeletedBy(cs, cs[k].canonical)
    ensures x in CitedBy(rows, cs, cs[k].canonical)
  {
    var n := |cs| - 1;
    DeletedByLast(cs, cs[k].canonical);
    if k < n {
      assert cs[..n][k] == cs[k];
      CitedByAll(rows, cs[..n], k, x);
    }
  }

  /** Still active, or cited by this merge at a memory that is. */
  ghost predicate Kept(rows: Rows, cs: seq<Cluster>, id: Id) {
    var r := MergeAll(rows, cs);
    Active(r, id) || exists keeper :: Active(r, keeper) && id in CitedBy(rows, cs, keeper)
  }

  ghost predicate NothingLost(ms: seq<Entry>, rows: Rows, cs: seq<Cluster>) {
    forall id :: IdIn(ms, id) ==> Kept(rows, cs, id)
  }

  /** What a caller can check on the clusters before merging them. */
  predicate NoSelfDuplicate(cs: seq<Cluster>) {
    forall c :: c in cs ==> c.canonical !in c.duplicates
  }

  ghost predicate AllActive(ms: seq<Entry>, rows: Rows) {
    forall id :: IdIn(ms, id) ==> Active(rows, id)
  }

  /** A canonical that is no duplicate of itself stays, and keeps all its duplicates cited. */
  lemma DuplicateIsKept(rows: Rows, cs: seq<Cluster>, k: nat, id: Id)
    requires ClustersApart(cs) && k < |cs| && id in cs[k].duplicates && cs[k].canonical !in cs[k].duplicates
    requires Active(rows, cs[k].canonical)
    ensures Kept(rows, cs, id)
  {
    var keeper := cs[k].canonical;
    MergeExact(rows, cs);
    forall j | 0 <= j < |cs| ensures keeper !in cs[j].duplicates {
      assert MemberOf(cs[k], keeper) && (keeper in cs[j].duplicates ==> MemberOf(cs[j], keeper));
    }
    CitedByAll(rows, cs, k, id);
    assert Active(MergeAll(rows, cs), keeper);
  }

  /** A canonical that is its own duplicate is deleted, and cited only at itself. */
  lemma SelfDuplicateIsLost(rows: Rows, cs: seq<Cluster>, k: nat)
    requires ClustersApart(cs) && k < |cs| && cs[k].canonical in cs[k].duplicates
    ensures !Kept(rows, cs, cs[k].canonical)
  {
    var id := cs[k].canonical;
    MergeExact(rows, cs);
    assert DeletedBy(cs, id);
    forall keeper | id in CitedBy(rows, cs, keeper) ensures keeper == id {
      CitedByOnly(rows, cs, keeper, id);
      var j :| 0 <= j < |cs| && cs[j].canonical == keeper && id in cs[j].duplicates;
      assert MemberOf(cs[j], id) && MemberOf(cs[k], id);
    }
  }

  /** On active rows, repeated ids or not: merging deactivates exactly the duplicates, and every input
      is kept exactly if no cluster lists its canonical among its duplicates. */
  lemma MergeLosesNothing(ms: seq<Entry>, near: Relation, rows: Rows)
    requires AllActive(ms, rows)
    ensures var cs := Clusters(ms, {}, near);
      var r := MergeAll(rows, cs);
      && (forall id :: IdIn(ms, id) ==> (Active(r, id) <==> id !in DuplicateIds(cs)))
      && (NothingLost(ms, rows, cs) <==> NoSelfDuplicate(cs))
  {
    var cs := Clusters(ms, {}, near);
    var r := MergeAll(rows, cs);
    MergeExact(rows, cs);
    ClustersAreApart(ms, {}, near);
    MembersAreUnseen(ms, {}, near);
    forall id | IdIn(ms, id) ensures Active(r, id) <==> id !in DuplicateIds(cs) {
      DuplicateIdsExact(cs, id);
    }
    if NoSelfDuplicate(cs) {
      forall id | IdIn(ms, id) ensures Kept(rows, cs, id) {
        DuplicateIdsExact(cs, id);
        if k :| 0 <= k < |cs| && id in cs[k].duplicates {
          assert cs[k] in cs && MemberOf(cs[k], cs[k].canonical);
          DuplicateIsKept(rows, cs, k, id);
        }
      }
    } else {
      var c :| c in cs && c.canonical in c.duplicates;
      var k :| 0 <= k < |cs| && cs[k] == c;
      SelfDuplicateIsLost(rows, cs, k);
      assert MemberOf(c, c.canonical);
    }
  }

  /** For distinct ids that is always so. */
  lemma DistinctMeansNoSelfDuplicate(ms: seq<Entry>, near: Relation)
    requires Distinct(ms)
    ensures NoSelfDuplicate(Clusters(ms, {}, near))
  {
    var cs := Clusters(ms, {}, near);
    MembersUnrepeated(ms, {}, near);
    forall k | 0 <= k < |cs| ensures cs[k].canonical !in cs[k].duplicates {
      CanonicalIsNoDuplicate(cs, k, k);
    }
  }

  /** It is not so for replicas: whenever the first row has words and occurs again, its id is lost. */
  lemma ReplicasAreLost(ms: seq<Entry>, threshold: real, rows: Rows)
    requires ms != [] && ms[0].tokens != {} && ms[0] in ms[1..] && threshold <= 1.0 && AllActive(ms, rows)
    ensures var cs := Clusters(ms, {}, Near(threshold));
      !Kept(rows, cs, ms[0].id)
  {
    var near, a := Near(threshold), ms[0];
    StrictTriangle(a.tokens, a.tokens, a.tokens);
    assert near(a, a);
    var k :| 0 <= k < |ms[1..]| && ms[1..][k] == a;
    NearAt(a, ms[1..], k, near);
    SelfDuplicateIff(a, ms[1..], {}, near);
    var cs, d := Clusters(ms, {}, near), Scan(a, ms[1..], {}, near);
    assert cs[0] == Cluster(a.id, d);
    ClustersAreApart(ms, {}, near);
    SelfDuplicateIsLost(rows, cs, 0);
  }
}
