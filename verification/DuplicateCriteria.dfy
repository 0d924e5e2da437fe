/** Which memories duplicate removal drops, and for the sake of which: a criterion on rows and words. */
module DuplicateCriteria {
  import opened Jaccard
  import opened Duplicates
  import opened DuplicateTheorems

  /** Both have words, and of all these at least the share t in common; if nothing is asked, anything is alike. */
  ghost predicate Alike(t: real, a: Entry, b: Entry) {
    t <= 0.0 || Shares(t, a.tokens, b.tokens)
  }

  lemma NearIffAlike(t: real, a: Entry, b: Entry)
    ensures Near(t)(a, b) <==> Alike(t, a, b)
  {
    SimilarEnoughIff(t, a.tokens, b.tokens);
  }

  ghost predicate ListedUnder(cs: seq<Cluster>, keeper: Id, id: Id) {
    exists c :: c in cs && c.canonical == keeper && id in c.duplicates
  }

  ghost predicate Dropped(cs: seq<Cluster>, id: Id) {
    exists c :: c in cs && id in c.duplicates
  }

  lemma {:induction false} DroppedExact(cs: seq<Cluster>, id: Id)
    ensures Dropped(cs, id) <==> id in DuplicateIds(cs)
  {
    DuplicateIdsExact(cs, id);
    if c :| c in cs && id in c.duplicates {
      var k :| 0 <= k < |cs| && cs[k] == c;
    }
    if DeletedBy(cs, id) {
      var k :| 0 <= k < |cs| && id in cs[k].duplicates;
      assert cs[k] in cs;
    }
  }

  /** Row i is kept and like row j. */
  ghost predicate Keeps(ms: seq<Entry>, cs: seq<Cluster>, near: Relation, i: nat, j: nat)
    requires i < |ms| && j < |ms|
  {
    !Dropped(cs, ms[i].id) && near(ms[i], ms[j])
  }

  lemma ListedHasKeeper(ms: seq<Entry>, near: Relation, c: Cluster, j: nat) returns (i: nat)
    requires Distinct(ms) && j < |ms| && c in Clusters(ms, {}, near) && ms[j].id in c.duplicates
    ensures i < j && ms[i].id == c.canonical && Keeps(ms, Clusters(ms, {}, near), near, i, j)
  {
    var cs := Clusters(ms, {}, near);
    StarsAreNear(ms, {}, near);
    i :| 0 <= i < |ms| && ms[i].id == c.canonical && forall d :: d in c.duplicates ==> NearIn(ms[i], ms[i + 1..], d, near);
    assert NearIn(ms[i], ms[i + 1..], ms[j].id, near);
    var k :| 0 <= k < |ms[i + 1..]| && ms[i + 1..][k].id == ms[j].id && near(ms[i], ms[i + 1..][k]);
    assert ms[i + 1..][k] == ms[i + 1 + k];
    MembersUnrepeated(ms, {}, near);
    var l :| 0 <= l < |cs| && cs[l] == c;
    forall m | 0 <= m < |cs| ensures ms[i].id !in cs[m].duplicates {
      CanonicalIsNoDuplicate(cs, l, m);
    }
  }

  lemma KeptStays(ms: seq<Entry>, near: Relation, i: nat, j: nat)
    requires Distinct(ms) && i < j < |ms| && Keeps(ms, Clusters(ms, {}, near), near, i, j)
    ensures Dropped(Clusters(ms, {}, near), ms[j].id)
  {
    var cs := Clusters(ms, {}, near);
    DroppedExact(cs, ms[i].id);
    DroppedExact(cs, ms[j].id);
    if !Dropped(cs, ms[j].id) {
      UnmarkedAreApart(ms, {}, near, i, j);
    }
  }

  /** The duplicates of the first row, if it is a centre. */
  function FirstStar(ms: seq<Entry>, seen: set<Id>, near: Relation): seq<Id>
    requires ms != []
  {
    if ms[0].id in seen then [] else Scan(ms[0], ms[1..], seen, near)
  }

  lemma StarThenRest(id: Id, d: seq<Id>, rest: seq<Cluster>)
    ensures forall k, x :: ListedUnder(rest, k, x) ==> ListedUnder(Star(id, d) + rest, k, x)
    ensures forall x :: Dropped(Star(id, d) + rest, x) <==> x in d || Dropped(rest, x)
    ensures forall x :: x in d ==> ListedUnder(Star(id, d) + rest, id, x)
  {
    var cs := Star(id, d) + rest;
    assert forall c :: c in cs <==> c in Star(id, d) || c in rest;
    assert d != [] ==> Cluster(id, d) in Star(id, d);
  }

  /** What the first row leaves to the others. */
  lemma AfterFirst(ms: seq<Entry>, seen: set<Id>, near: Relation)
    requires ms != []
    ensures var d := FirstStar(ms, seen, near);
      var rest := Clusters(ms[1..], SeenAfter(ms[0].id, d, seen), near);
      && (forall k, x :: ListedUnder(rest, k, x) ==> ListedUnder(Clusters(ms, seen, near), k, x))
      && (forall x :: Dropped(Clusters(ms, seen, near), x) <==> x in d || Dropped(rest, x))
      && (forall x :: x in d ==> ListedUnder(Clusters(ms, seen, near), ms[0].id, x))
  {
    var d := FirstStar(ms, seen, near);
    var rest := Clusters(ms[1..], SeenAfter(ms[0].id, d, seen), near);
    StarThenRest(ms[0].id, d, rest);
    assert Clusters(ms, seen, near) == Star(ms[0].id, d) + rest;
  }

  lemma FirstStarExact(ms: seq<Entry>, seen: set<Id>, near: Relation, j: nat)
    requires Distinct(ms) && 0 < j < |ms|
    ensures ms[j].id in FirstStar(ms, seen, near) <==> ms[0].id !in seen && ms[j].id !in seen && near(ms[0], ms[j])
    ensures ms[0].id !in FirstStar(ms, seen, near)
  {
    if ms[0].id !in seen {
      ScanExact(ms[0], ms[1..], seen, near);
      assert ms[1..][j - 1] == ms[j];
      forall k | 0 <= k < |ms[1..]| && ms[1..][k].id == ms[j].id ensures k == j - 1 {
        assert ms[1..][k] == ms[k + 1];
      }
      forall k | 0 <= k < |ms[1..]| ensures ms[1..][k].id != ms[0].id {
        assert ms[1..][k] == ms[k + 1];
      }
    }
  }

  /** A centre that no earlier row has claimed stays. */
  lemma FirstIsKept(ms: seq<Entry>, seen: set<Id>, near: Relation)
    requires Distinct(ms) && |ms| > 1
    ensures !Dropped(Clusters(ms, seen, near), ms[0].id)
  {
    AfterFirst(ms, seen, near);
    FirstStarExact(ms, seen, near, 1);
    var seen' := SeenAfter(ms[0].id, FirstStar(ms, seen, near), seen);
    MembersAreUnseen(ms[1..], seen', near);
    var first := ms[0].id;
    forall c | c in Clusters(ms[1..], seen', near) ensures first !in c.duplicates {
      assert first in c.duplicates ==> MemberOf(c, first);
    }
  }

  /** No unclaimed kept row before i is like row j. */
  ghost predicate NoneKeeps(ms: seq<Entry>, seen: set<Id>, near: Relation, i: nat, j: nat)
    requires i <= |ms| && j < |ms|
  {
    forall h: nat :: h < i && ms[h].id !in seen ==> !Keeps(ms, Clusters(ms, seen, near), near, h, j)
  }

  lemma NoneKeepsInTail(ms: seq<Entry>, seen: set<Id>, near: Relation, i: nat, j: nat)
    requires Distinct(ms) && 0 < i < j < |ms| && NoneKeeps(ms, seen, near, i, j)
    ensures NoneKeeps(ms[1..], SeenAfter(ms[0].id, FirstStar(ms, seen, near), seen), near, i - 1, j - 1)
  {
    var tail, d := ms[1..], FirstStar(ms, seen, near);
    var seen' := SeenAfter(ms[0].id, d, seen);
    AfterFirst(ms, seen, near);
    forall h: nat | h < i - 1 && tail[h].id !in seen' ensures !Keeps(tail, Clusters(tail, seen', near), near, h, j - 1) {
      assert tail[h] == ms[h + 1] && tail[j - 1] == ms[j];
      assert tail[h].id !in d;
      assert !Keeps(ms, Clusters(ms, seen, near), near, h + 1, j);
    }
  }

  /** A row goes to the first kept row it is like. */
  lemma {:induction false} FirstKeeperLists(ms: seq<Entry>, seen: set<Id>, near: Relation, i: nat, j: nat)
    requires Distinct(ms) && i < j < |ms| && ms[i].id !in seen && ms[j].id !in seen
    requires Keeps(ms, Clusters(ms, seen, near), near, i, j) && NoneKeeps(ms, seen, near, i, j)
    ensures ListedUnder(Clusters(ms, seen, near), ms[i].id, ms[j].id)
  {
    AfterFirst(ms, seen, near);
    FirstStarExact(ms, seen, near, j);
    if i > 0 {
      var d := FirstStar(ms, seen, near);
      FirstIsKept(ms, seen, near);
      assert !Keeps(ms, Clusters(ms, seen, near), near, 0, j) || ms[0].id in seen;
      assert ms[j].id !in d && ms[i].id !in d;
      NoneKeepsInTail(ms, seen, near, i, j);
      assert ms[1..][i - 1] == ms[i] && ms[1..][j - 1] == ms[j];
      FirstKeeperLists(ms[1..], SeenAfter(ms[0].id, d, seen), near, i - 1, j - 1);
    }
  }

  // ----- the criterion -----

  /** Row i is kept, stands before row j, and is like it. */
  ghost predicate Displaces(ms: seq<Entry>, cs: seq<Cluster>, t: real, i: nat, j: nat)
    requires i < |ms| && j < |ms|
  {
    i < j && !Dropped(cs, ms[i].id) && Alike(t, ms[i], ms[j])
  }

  lemma DisplacesIff(ms: seq<Entry>, t: real, i: nat, j: nat)
    requires i < j < |ms|
    ensures Displaces(ms, Clusters(ms, {}, Near(t)), t, i, j) <==> Keeps(ms, Clusters(ms, {}, Near(t)), Near(t), i, j)
  {
    NearIffAlike(t, ms[i], ms[j]);
  }

  /** For distinct ids a memory is dropped exactly if some earlier memory that is kept is alike. */
  lemma DroppedIff(ms: seq<Entry>, t: real, j: nat)
    requires Distinct(ms) && j < |ms|
    ensures var cs := Clusters(ms, {}, Near(t));
      Dropped(cs, ms[j].id) <==> exists i: nat :: i < |ms| && Displaces(ms, cs, t, i, j)
  {
    var cs := Clusters(ms, {}, Near(t));
    if c :| c in cs && ms[j].id in c.duplicates {
      var i := ListedHasKeeper(ms, Near(t), c, j);
      DisplacesIff(ms, t, i, j);
    }
    if i: nat :| i < |ms| && Displaces(ms, cs, t, i, j) {
      DisplacesIff(ms, t, i, j);
      KeptStays(ms, Near(t), i, j);
    }
  }

  lemma {:induction false} FirstDisplacing(ms: seq<Entry>, cs: seq<Cluster>, t: real, i: nat, j: nat) returns (f: nat)
    requires j < |ms| && i < |ms| && Displaces(ms, cs, t, i, j)
    ensures f <= i && Displaces(ms, cs, t, f, j) && forall h: nat :: h < f ==> !Displaces(ms, cs, t, h, j)
  {
    if h: nat :| h < i && Displaces(ms, cs, t, h, j) {
      f := FirstDisplacing(ms, cs, t, h, j);
    } else {
      f := i;
    }
  }

  lemma OneKeeper(ms: seq<Entry>, near: Relation, a: Id, b: Id, x: Id)
    requires ListedUnder(Clusters(ms, {}, near), a, x) && ListedUnder(Clusters(ms, {}, near), b, x)
    ensures a == b
  {
    var cs := Clusters(ms, {}, near);
    ClustersAreApart(ms, {}, near);
    var c :| c in cs && c.canonical == a && x in c.duplicates;
    var e :| e in cs && e.canonical == b && x in e.duplicates;
    var k :| 0 <= k < |cs| && cs[k] == c;
    var l :| 0 <= l < |cs| && cs[l] == e;
    assert MemberOf(cs[k], x) && MemberOf(cs[l], x);
  }

  lemma FirstDisplacingLists(ms: seq<Entry>, t: real, i: nat, j: nat)
    requires Distinct(ms) && i < |ms| && j < |ms|
    requires var cs := Clusters(ms, {}, Near(t)); Displaces(ms, cs, t, i, j) && forall h: nat :: h < i ==> !Displaces(ms, cs, t, h, j)
    ensures ListedUnder(Clusters(ms, {}, Near(t)), ms[i].id, ms[j].id)
  {
    DisplacesIff(ms, t, i, j);
    forall h: nat | h < i ensures !Keeps(ms, Clusters(ms, {}, Near(t)), Near(t), h, j) {
      DisplacesIff(ms, t, h, j);
    }
    FirstKeeperLists(ms, {}, Near(t), i, j);
  }

  /** And it is listed under the first of these, and under no other. */
  lemma ListedIff(ms: seq<Entry>, t: real, i: nat, j: nat)
    requires Distinct(ms) && i < |ms| && j < |ms|
    ensures var cs := Clusters(ms, {}, Near(t));
      ListedUnder(cs, ms[i].id, ms[j].id) <==>
        Displaces(ms, cs, t, i, j) && forall h: nat :: h < i ==> !Displaces(ms, cs, t, h, j)
  {
    var cs := Clusters(ms, {}, Near(t));
    if ListedUnder(cs, ms[i].id, ms[j].id) {
      DroppedIff(ms, t, j);
      var k: nat :| k < |ms| && Displaces(ms, cs, t, k, j);
      var f := FirstDisplacing(ms, cs, t, k, j);
      FirstDisplacingLists(ms, t, f, j);
      OneKeeper(ms, Near(t), ms[i].id, ms[f].id, ms[j].id);
      assert i == f;
    } else if Displaces(ms, cs, t, i, j) && forall h: nat :: h < i ==> !Displaces(ms, cs, t, h, j) {
      FirstDisplacingLists(ms, t, i, j);
    }
  }
}
