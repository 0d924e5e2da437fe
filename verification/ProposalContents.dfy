/** What a built proposal contains, column by column, in terms of what went in. */
module ProposalContents {
  import opened Text
  import opened Evidence
  import opened EvidenceCuts
  import opened ProposalIdentity

  // ----- the words of a content -----

  ghost predicate Blank(white: char -> bool, s: string) {
    forall i :: 0 <= i < |s| ==> white(s[i])
  }

  ghost predicate IsWord(white: char -> bool, w: string) {
    w != "" && forall i :: 0 <= i < |w| ==> !white(w[i])
  }

  /** The words of s, in order: nothing but white space lies between, before or after them. */
  ghost predicate HasWords(white: char -> bool, s: string, words: seq<string>)
    decreases |words|
  {
    if words == [] then Blank(white, s)
    else
      exists gap, rest :: s == gap + (words[0] + rest) && Blank(white, gap) && IsWord(white, words[0])
        && (rest == "" || white(rest[0])) && HasWords(white, rest, words[1..])
  }

  /** " ".join(words) */
  function Glue(words: seq<string>): string {
    if words == [] then "" else if |words| == 1 then words[0] else words[0] + " " + Glue(words[1..])
  }

  lemma {:induction false} GlueIsEmptyIff(white: char -> bool, s: string, words: seq<string>)
    requires HasWords(white, s, words)
    ensures Glue(words) == "" <==> words == []
  {
  }

  lemma OneMoreBlank(white: char -> bool, s: string, gap: string, t: string)
    requires s != "" && white(s[0]) && s[1..] == gap + t && Blank(white, gap)
    ensures s == ([s[0]] + gap) + t && Blank(white, [s[0]] + gap)
  {
    assert s == [s[0]] + s[1..];
  }

  lemma {:induction false} SkipIsBlank(white: char -> bool, s: string) returns (gap: string)
    ensures s == gap + Skip(white, s) && Blank(white, gap)
  {
    if s != "" && white(s[0]) {
      var rest := SkipIsBlank(white, s[1..]);
      gap := [s[0]] + rest;
      OneMoreBlank(white, s, rest, Skip(white, s[1..]));
    } else {
      gap := "";
    }
  }

  /** Splitting and joining keeps the words, all of them and in order. */
  lemma {:induction false} JoinedGluesWords(white: char -> bool, s: string) returns (words: seq<string>)
    ensures HasWords(white, s, words) && Joined(white, s) == Glue(words)
    decreases |s|
  {
    var gap := SkipIsBlank(white, s);
    var t := Skip(white, s);
    if t == "" {
      words := [];
    } else {
      RestShrinks(white, t);
      WordRest(white, t);
      var more := JoinedGluesWords(white, Rest(white, t));
      GlueIsEmptyIff(white, Rest(white, t), more);
      words := [Word(white, t)] + more;
      assert words[1..] == more;
      assert s == gap + (words[0] + Rest(white, t));
    }
  }

  // ----- the sources -----

  /** The printed ids that count as sources. */
  ghost predicate IsSource(show: Printer, ids: seq<Value>, x: string) {
    exists v :: v in ids && Truthy(v) && x == Take(show(v), 200)
  }

  /** In ascending order, all of them, or the first 64. */
  ghost predicate ListsSources(show: Printer, ids: seq<Value>, xs: seq<string>) {
    && Ascending(xs) && |xs| <= 64 && (forall x :: x in xs ==> IsSource(show, ids, x))
    && forall y :: IsSource(show, ids, y) && y !in xs ==> |xs| == 64 && forall x :: x in xs ==> Less(x, y)
  }

  lemma SourceSetIff(show: Printer, ids: seq<Value>, x: string)
    ensures x in SourceSet(show, ids) <==> IsSource(show, ids, x)
  {
    if v :| v in ids && Truthy(v) && x == Take(show(v), 200) {
      var i :| 0 <= i < |ids| && ids[i] == v;
      assert Take(show(ids[i]), MAX_SOURCE_ID) == x;
    }
  }

  lemma SourcesListed(show: Printer, ids: seq<Value>)
    ensures ListsSources(show, ids, NormalizeSourceIds(show, ids))
  {
    var s := SourceSet(show, ids);
    var all, xs := Sorted(s), NormalizeSourceIds(show, ids);
    NormalizedShape(show, ids);
    forall x ensures x in s <==> IsSource(show, ids, x) {
      SourceSetIff(show, ids, x);
    }
    forall x | x in xs ensures IsSource(show, ids, x) {
      ListedOnly(s, x, 64);
    }
    forall y | IsSource(show, ids, y) && y !in xs ensures |xs| == 64 && forall x :: x in xs ==> Less(x, y) {
      assert y in Elements(all);
      var j :| 0 <= j < |all| && all[j] == y;
      assert all == xs + all[|xs|..];
    }
  }

  // ----- all of it -----

  /** Content: the words joined by single spaces, cut at 4000 characters. */
  lemma ContentTells(h: Host, kind: string, content: string, sources: seq<Value>, e: Value, action: Value, runKey: string)
    returns (words: seq<string>)
    ensures HasWords(h.white, content, words)
    ensures var p := BuildProposal(h, kind, content, sources, e, action, runKey);
      p.content == Take(Glue(words), 4000) && p.digest == h.sha(p.content)
  {
    words := JoinedGluesWords(h.white, content);
  }

  /** The other columns. The id is a digest of the stored kind, content digest, sources and action. */
  lemma ProposalTells(h: Host, kind: string, content: string, sources: seq<Value>, e: Value, action: Value, runKey: string)
    returns (evidence: Value, act: Value)
    ensures IsCutOf(h.show, if Truthy(e) then e else Dict([]), 0, evidence)
    ensures IsCutOf(h.show, if Truthy(action) then action else Dict([]), 0, act)
    ensures var p := BuildProposal(h, kind, content, sources, e, action, runKey);
      && p.kind == Take(kind, 100) && ListsSources(h.show, sources, p.sourceIds)
      && p.evidence == h.json(evidence) && p.action == h.json(act)
      && p.id == "proposal:" + Take(kind, 32) + ":" + h.hex(Identity(p.kind, p.digest, p.sourceIds, act))
      && p.runKey == if runKey == "" then h.defaultRunKey(Identity(p.kind, p.digest, p.sourceIds, act)) else runKey
  {
    evidence, act := BoundedOrEmpty(h.show, e), BoundedOrEmpty(h.show, action);
    BoundedIsCut(h.show, if Truthy(e) then e else Dict([]), 0);
    BoundedIsCut(h.show, if Truthy(action) then action else Dict([]), 0);
    SourcesListed(h.show, sources);
  }
}
