/**
 What makes two generated proposals the same: `normalize_source_ids` and `build_proposal`. The
 host functions (printing, JSON, hashing, which characters are whitespace) are parameters.
 */
module ProposalIdentity {
  import opened Finite
  import opened Text
  import opened Proposals
  import opened Evidence

  /** What the proposal id is a hash of. */
  datatype Identity = Identity(kind: string, contentHash: Digest, sourceIds: seq<string>, action: Value)

  datatype Host = Host(
    show: Printer,
    json: Value -> string,
    white: char -> bool,
    sha: string -> Digest,
    hex: Identity -> string,
    defaultRunKey: Identity -> string)

  const MAX_SOURCE_ID := 200
  const MAX_CONTENT_CHARS := 4_000

  // ----- normalize_source_ids -----

  predicate Truthy(v: Value) {
    match v
    case Null => false
    case Flag(b) => b
    case Whole(n) => n != 0
    case Float(x) => x != 0.0
    case Str(s) => s != ""
    case Dict(es) => es != []
    case Sequence(xs) => xs != []
    case Object(_) => true
  }

  function SourceSet(show: Printer, ids: seq<Value>): set<string> {
    set i | 0 <= i < |ids| && Truthy(ids[i]) :: Take(show(ids[i]), MAX_SOURCE_ID)
  }

  function NormalizeSourceIds(show: Printer, ids: seq<Value>): seq<string> {
    First(Sorted(SourceSet(show, ids)), MAX_SOURCE_IDS)
  }

  function AsValues(ids: seq<string>): seq<Value> {
    seq(|ids|, i requires 0 <= i < |ids| => Str(ids[i]))
  }

  /** Order and repetition of the sources do not matter, nor do those that are falsy. */
  lemma SourceOrderIrrelevant(show: Printer, a: seq<Value>, b: seq<Value>)
    requires forall v :: Truthy(v) ==> (v in a <==> v in b)
    ensures NormalizeSourceIds(show, a) == NormalizeSourceIds(show, b)
  {
    SourceSetWithin(show, a, b);
    SourceSetWithin(show, b, a);
    assert SourceSet(show, a) == SourceSet(show, b);
  }

  lemma SourceSetWithin(show: Printer, a: seq<Value>, b: seq<Value>)
    requires forall v :: Truthy(v) && v in a ==> v in b
    ensures SourceSet(show, a) <= SourceSet(show, b)
  {
    forall s | s in SourceSet(show, a) ensures s in SourceSet(show, b) {
      var i :| 0 <= i < |a| && Truthy(a[i]) && s == Take(show(a[i]), MAX_SOURCE_ID);
      assert a[i] in b;
      var j :| 0 <= j < |b| && b[j] == a[i];
    }
  }

  lemma NormalizedShape(show: Printer, ids: seq<Value>)
    ensures var r := NormalizeSourceIds(show, ids);
      Ascending(r) && |r| <= MAX_SOURCE_IDS && forall i :: 0 <= i < |r| ==> |r[i]| <= MAX_SOURCE_ID
  {
    var all := Sorted(SourceSet(show, ids));
    forall i | 0 <= i < |all| ensures |all[i]| <= MAX_SOURCE_ID {
      assert all[i] in Elements(all);
    }
  }

  lemma ListedOnly(s: set<string>, x: string, n: nat)
    requires x in First(Sorted(s), n)
    ensures x in s
  {
    var all := Sorted(s);
    assert x in Elements(all);
  }

  lemma ListedAll(s: set<string>, r: seq<string>, n: nat)
    requires IsListing(r, s) && |r| <= n
    ensures First(Sorted(s), n) == r
  {
    AscendingUnique(Sorted(s), r);
  }

  lemma SourceSetOfStrings(show: Printer, r: seq<string>)
    requires PrintsStrings(show) && forall i :: 0 <= i < |r| ==> |r[i]| <= MAX_SOURCE_ID
    ensures forall s :: s in SourceSet(show, AsValues(r)) <==> s in r && s != ""
  {
    forall s | s in r && s != "" ensures s in SourceSet(show, AsValues(r)) {
      var i :| 0 <= i < |r| && r[i] == s;
      assert Truthy(AsValues(r)[i]) && Take(show(AsValues(r)[i]), MAX_SOURCE_ID) == s;
    }
  }

  lemma {:induction false} EmptyComesFirst(s: set<string>, n: nat)
    requires n > 0
    ensures "" in First(Sorted(s), n) <==> "" in s
  {
    var all := Sorted(s);
    assert "" in s <==> "" in Elements(all);
    if "" in all {
      var i :| 0 <= i < |all| && all[i] == "";
      Trichotomy(all[0], "");
      assert i == 0;
    }
  }

  lemma EmptySourceIff(show: Printer, ids: seq<Value>)
    ensures "" in SourceSet(show, ids) <==> exists v :: v in ids && Truthy(v) && show(v) == ""
  {
    if v :| v in ids && Truthy(v) && show(v) == "" {
      var i :| 0 <= i < |ids| && ids[i] == v;
      assert Take(show(ids[i]), MAX_SOURCE_ID) == "";
    }
  }

  /** Normalising again changes nothing exactly if no truthy id prints as the empty string: that one
      sorts first, so the cut at 64 never hides it, and it is dropped the second time. */
  lemma NormalizeIdempotentIff(show: Printer, ids: seq<Value>)
    requires PrintsStrings(show)
    ensures var r := NormalizeSourceIds(show, ids);
      NormalizeSourceIds(show, AsValues(r)) == r <==> forall v :: v in ids && Truthy(v) ==> show(v) != ""
  {
    NormalizedShape(show, ids);
    NormalizeAgain(show, NormalizeSourceIds(show, ids));
    EmptyComesFirst(SourceSet(show, ids), MAX_SOURCE_IDS);
    EmptySourceIff(show, ids);
  }

  lemma NormalizeAgain(show: Printer, r: seq<string>)
    requires PrintsStrings(show)
    requires Ascending(r) && |r| <= MAX_SOURCE_IDS && forall i :: 0 <= i < |r| ==> |r[i]| <= MAX_SOURCE_ID
    ensures NormalizeSourceIds(show, AsValues(r)) == r <==> "" !in r
  {
    var again := SourceSet(show, AsValues(r));
    SourceSetOfStrings(show, r);
    if "" !in r {
      assert again == Elements(r);
      ListedAll(again, r, MAX_SOURCE_IDS);
    } else {
      var once := NormalizeSourceIds(show, AsValues(r));
      assert "" !in once by {
        if "" in once {
          ListedOnly(again, "", MAX_SOURCE_IDS);
        }
      }
    }
  }

  /** An object whose str() is empty is such an id. */
  lemma NormalizeNotIdempotent(show: Printer, blank: Value)
    requires PrintsStrings(show) && Truthy(blank) && show(blank) == ""
    ensures NormalizeSourceIds(show, AsValues(NormalizeSourceIds(show, [blank]))) != NormalizeSourceIds(show, [blank])
  {
    assert blank in [blank];
    NormalizeIdempotentIff(show, [blank]);
  }

  /** For string ids, which is what every caller passes, nothing prints as the empty string. */
  lemma StringIdsAreFixed(show: Printer, names: seq<string>)
    requires PrintsStrings(show)
    ensures var r := NormalizeSourceIds(show, AsValues(names)); NormalizeSourceIds(show, AsValues(r)) == r
  {
    NormalizeIdempotentIff(show, AsValues(names));
  }

  // ----- " ".join(content.split())[:4000] -----

  function Word(white: char -> bool, s: string): string {
    if s == "" || white(s[0]) then "" else [s[0]] + Word(white, s[1..])
  }

  function Rest(white: char -> bool, s: string): (r: string)
    ensures |r| <= |s|
  {
    if s == "" || white(s[0]) then s else Rest(white, s[1..])
  }

  function Skip(white: char -> bool, s: string): (r: string)
    ensures |r| <= |s|
    ensures r == "" || !white(r[0])
  {
    if s != "" && white(s[0]) then Skip(white, s[1..]) else s
  }

  /** s.split() joined again by single spaces. */
  function Joined(white: char -> bool, s: string): string
    decreases |s|
  {
    var t := Skip(white, s);
    if t == "" then ""
    else
      RestShrinks(white, t);
      var more := Joined(white, Rest(white, t));
      if more == "" then Word(white, t) else Word(white, t) + " " + more
  }

  lemma RestShrinks(white: char -> bool, t: string)
    requires t != "" && !white(t[0])
    ensures |Rest(white, t)| < |t|
    ensures Word(white, t) != "" && Word(white, t) + Rest(white, t) == t
  {
    WordRest(white, t);
  }

  lemma {:induction false} WordRest(white: char -> bool, t: string)
    ensures Word(white, t) + Rest(white, t) == t
    ensures forall i :: 0 <= i < |Word(white, t)| ==> !white(Word(white, t)[i])
    ensures Rest(white, t) == "" || white(Rest(white, t)[0])
  {
    if t != "" && !white(t[0]) {
      var w := Word(white, t[1..]);
      WordRest(white, t[1..]);
      assert Word(white, t) == [t[0]] + w;
      assert t == [t[0]] + (w + Rest(white, t[1..]));
    }
  }

  function Clean(white: char -> bool, content: string): string {
    Take(Joined(white, content), MAX_CONTENT_CHARS)
  }

  /** Words separated by single spaces, except that one may trail. */
  ghost predicate Tidy(white: char -> bool, s: string) {
    && (s != "" ==> !white(s[0]))
    && (forall i :: 0 <= i < |s| && white(s[i]) ==> s[i] == ' ')
    && (forall i :: 0 <= i < |s| - 1 && white(s[i]) ==> !white(s[i + 1]))
  }

  lemma {:induction false} JoinedIsTidy(white: char -> bool, s: string)
    requires white(' ')
    ensures var j := Joined(white, s); Tidy(white, j) && (j != "" ==> !white(j[|j| - 1]))
    decreases |s|
  {
    var t := Skip(white, s);
    if t != "" {
      RestShrinks(white, t);
      WordRest(white, t);
      JoinedIsTidy(white, Rest(white, t));
      var w, more := Word(white, t), Joined(white, Rest(white, t));
      GlueTidy(white, w, more);
    }
  }

  lemma GlueTidy(white: char -> bool, w: string, more: string)
    requires white(' ') && w != "" && forall i :: 0 <= i < |w| ==> !white(w[i])
    requires Tidy(white, more)
    ensures Tidy(white, w) && Tidy(white, w + " " + more)
  {
    var j := w + " " + more;
    forall i | 0 <= i < |j| ensures j[i] == if i < |w| then w[i] else if i == |w| then ' ' else more[i - |w| - 1] {
    }
  }

  lemma TidyPrefix(white: char -> bool, s: string, n: nat)
    requires Tidy(white, s)
    ensures Tidy(white, Take(s, n))
  {
  }

  /** Splitting and joining a tidy string only removes a trailing space. */
  lemma {:induction false} TidyStays(white: char -> bool, s: string)
    requires white(' ') && Tidy(white, s)
    ensures Joined(white, s) == if s != "" && white(s[|s| - 1]) then s[..|s| - 1] else s
    decreases |s|
  {
    if s != "" {
      WordRest(white, s);
      if Rest(white, s) == "" {
        FirstWord(white, s);
      } else {
        AfterSpace(white, s);
      }
    }
  }

  lemma TidyTail(white: char -> bool, s: string, n: nat)
    requires Tidy(white, s) && n < |s| && white(s[n])
    ensures s[n] == ' ' && s[n..] == " " + s[n + 1..] && Tidy(white, s[n + 1..])
  {
    var tail := s[n + 1..];
    forall i | 0 <= i < |tail| ensures tail[i] == s[n + 1 + i] {
    }
    assert s[n..] == [s[n]] + tail;
  }

  lemma SkipOneSpace(white: char -> bool, tail: string)
    requires white(' ') && Tidy(white, tail)
    ensures Joined(white, " " + tail) == Joined(white, tail)
  {
    assert (" " + tail)[1..] == tail;
    assert Skip(white, " " + tail) == Skip(white, tail) == tail;
  }

  lemma FirstWord(white: char -> bool, s: string)
    requires s != "" && !white(s[0])
    ensures Joined(white, s) ==
      var more := Joined(white, Rest(white, s));
      if more == "" then Word(white, s) else Word(white, s) + " " + more
  {
    assert Skip(white, s) == s;
  }

  lemma SplitAtSpace(white: char -> bool, s: string, w: string, rest: string)
    requires Tidy(white, s) && s == w + rest && rest != "" && white(rest[0])
    ensures rest == " " + s[|w| + 1..] && s == w + " " + s[|w| + 1..] && Tidy(white, s[|w| + 1..])
  {
    assert s[|w|] == rest[0] && s[|w|..] == rest;
    TidyTail(white, s, |w|);
  }

  lemma WordThenTail(white: char -> bool, s: string) returns (tail: string)
    requires white(' ') && Tidy(white, s) && s != "" && Rest(white, s) != ""
    ensures |tail| < |s| && Tidy(white, tail) && Rest(white, s) == " " + tail && s == Word(white, s) + " " + tail
  {
    WordRest(white, s);
    SplitAtSpace(white, s, Word(white, s), Rest(white, s));
    tail := s[|Word(white, s)| + 1..];
  }

  lemma AfterSpace(white: char -> bool, s: string)
    requires white(' ') && Tidy(white, s) && s != "" && !white(s[0]) && Rest(white, s) != ""
    ensures Joined(white, s) == if white(s[|s| - 1]) then s[..|s| - 1] else s
    decreases |s|, 0
  {
    var tail := WordThenTail(white, s);
    FirstWord(white, s);
    SkipOneSpace(white, tail);
    TidyStays(white, tail);
    TrimmedTail(white, s, Word(white, s), tail);
  }

  lemma TrimmedTail(white: char -> bool, s: string, w: string, tail: string)
    requires s == w + " " + tail && white(' ') && Tidy(white, tail)
    ensures var more := if tail != "" && white(tail[|tail| - 1]) then tail[..|tail| - 1] else tail;
      (if more == "" then w else w + " " + more) == if white(s[|s| - 1]) then s[..|s| - 1] else s
  {
    if tail == "" {
      assert s[..|s| - 1] == w;
    } else {
      assert s[|s| - 1] == tail[|tail| - 1];
      if white(s[|s| - 1]) {
        assert s[..|s| - 1] == w + " " + tail[..|tail| - 1];
      }
    }
  }

  /** The clean-up is not idempotent: cutting at 4000 characters can leave a space at the end. That
      is the only way it fails. */
  lemma CleanIdempotentIff(white: char -> bool, content: string)
    requires white(' ')
    ensures var joined := Joined(white, content);
      Clean(white, Clean(white, content)) == Clean(white, content) <==>
        |joined| <= MAX_CONTENT_CHARS || !white(joined[MAX_CONTENT_CHARS - 1])
  {
    JoinedIsTidy(white, content);
    TidyPrefix(white, Joined(white, content), MAX_CONTENT_CHARS);
    TidyStays(white, Clean(white, content));
  }

  /** 3999 letters, a space and one more letter: the cut falls right after the space. */
  lemma CleanNotIdempotent(white: char -> bool) returns (content: string)
    requires white(' ') && !white('a')
    ensures Clean(white, Clean(white, content)) != Clean(white, content)
  {
    var run := seq(MAX_CONTENT_CHARS - 1, i => 'a');
    content := run + " a";
    TidyStays(white, content);
    assert Clean(white, content) == run + " ";
    CleanIdempotentIff(white, content);
  }

  // ----- build_proposal -----

  /** _bounded(value or {}) */
  function BoundedOrEmpty(show: Printer, v: Value): Value {
    Bounded(show, if Truthy(v) then v else Dict([]), 0)
  }

  function IdentityOf(h: Host, kind: string, content: string, sources: seq<Value>, action: Value): Identity {
    Identity(Take(kind, 100), h.sha(Clean(h.white, content)), NormalizeSourceIds(h.show, sources), BoundedOrEmpty(h.show, action))
  }

  function ProposalIdOf(h: Host, kind: string, who: Identity): ProposalId {
    "proposal:" + Take(kind, 32) + ":" + h.hex(who)
  }

  function BuildProposal(h: Host, kind: string, content: string, sources: seq<Value>, evidence: Value, action: Value,
                         runKey: string): Proposal
  {
    var who := IdentityOf(h, kind, content, sources, action);
    Proposal(
      ProposalIdOf(h, kind, who), Take(kind, 100), if runKey != "" then runKey else h.defaultRunKey(who),
      Clean(h.white, content), who.contentHash, who.sourceIds,
      h.json(BoundedOrEmpty(h.show, evidence)), h.json(who.action))
  }

  /** The two identities do not collide under the digest, whose length is fixed. */
  ghost predicate NoCollision(h: Host, a: Identity, b: Identity) {
    (h.hex(a) == h.hex(b) ==> a == b) && |h.hex(a)| == |h.hex(b)|
  }

  /** Unless the digests at hand collide, the id stands for kind, cleaned content, source list and
      action: evidence, run key, the order or repetition of the sources, and spacing do not show in it. */
  lemma SameIdIff(
      h: Host, kind: string, c: string, sources: seq<Value>, e: Value, action: Value, r: string,
      kind': string, c': string, sources': seq<Value>, e': Value, action': Value, r': string)
    requires NoCollision(h, IdentityOf(h, kind, c, sources, action), IdentityOf(h, kind', c', sources', action'))
    requires h.sha(Clean(h.white, c)) == h.sha(Clean(h.white, c')) ==> Clean(h.white, c) == Clean(h.white, c')
    ensures BuildProposal(h, kind, c, sources, e, action, r).id == BuildProposal(h, kind', c', sources', e', action', r').id <==>
      (Take(kind, 100) == Take(kind', 100) && Clean(h.white, c) == Clean(h.white, c')
       && NormalizeSourceIds(h.show, sources) == NormalizeSourceIds(h.show, sources')
       && BoundedOrEmpty(h.show, action) == BoundedOrEmpty(h.show, action'))
  {
    var who, who' := IdentityOf(h, kind, c, sources, action), IdentityOf(h, kind', c', sources', action');
    assert BuildProposal(h, kind, c, sources, e, action, r).id == ProposalIdOf(h, kind, who);
    assert BuildProposal(h, kind', c', sources', e', action', r').id == ProposalIdOf(h, kind', who');
    SameHashIff(h, kind, kind', who, who');
    SamePartsIff(who, who');
  }

  lemma SamePartsIff(a: Identity, b: Identity)
    ensures a == b <==> a.kind == b.kind && a.contentHash == b.contentHash && a.sourceIds == b.sourceIds && a.action == b.action
  {
  }

  lemma SameSuffix(a: string, x: string, b: string, y: string)
    requires |x| == |y| && a + x == b + y
    ensures a == b && x == y
  {
    assert (a + x)[|a|..] == x && (b + y)[|b|..] == y;
    assert (a + x)[..|a|] == a && (b + y)[..|b|] == b;
  }

  lemma SameHashIff(h: Host, kind: string, kind': string, who: Identity, who': Identity)
    requires NoCollision(h, who, who') && who.kind == Take(kind, 100) && who'.kind == Take(kind', 100)
    ensures ProposalIdOf(h, kind, who) == ProposalIdOf(h, kind', who') <==> who == who'
  {
    if who == who' {
      assert Take(kind, 32) == Take(who.kind, 32) && Take(kind', 32) == Take(who'.kind, 32);
    }
    if ProposalIdOf(h, kind, who) == ProposalIdOf(h, kind', who') {
      SameSuffix("proposal:" + Take(kind, 32) + ":", h.hex(who), "proposal:" + Take(kind', 32) + ":", h.hex(who'));
    }
  }

  /** So a cycle that rediscovers a cluster, in another order and with other evidence, finds the row
      of its first proposal. */
  lemma RediscoveredIsDeduplicated(
      h: Host, t: Table, now: string, now': string, kind: string, c: string, action: Value,
      sources: seq<Value>, e: Value, r: string, sources': seq<Value>, e': Value, r': string)
    requires forall v :: Truthy(v) ==> (v in sources <==> v in sources')
    ensures var p, p' := BuildProposal(h, kind, c, sources, e, action, r), BuildProposal(h, kind, c, sources', e', action, r');
      InsertOrIgnore(InsertOrIgnore(t, p, now), p', now') == InsertOrIgnore(t, p, now)
  {
    SourceOrderIrrelevant(h.show, sources, sources');
  }
}
