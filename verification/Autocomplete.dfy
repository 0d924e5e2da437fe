/**
 The autocomplete index. A rebuild clears the table and fills it word by word and prefix by prefix;
 what it leaves is exactly a count of rows. Stripping and word splitting are parameters.
 */
module Autocomplete {
  import opened Finite
  import opened Text

  datatype Row = Row(id: string, content: string, kind: string)
  datatype Key = Key(prefix: string, id: string)
  datatype Entry = Entry(content: string, frequency: nat, kind: string)
  type Index = map<Key, Entry>

  /** content.strip(), and re.split(r"\W+", content.lower()). */
  datatype Host = Host(strip: string -> string, split: string -> seq<string>)

  const MIN_CONTENT := 3
  const MIN_PREFIX := 2
  const MAX_PREFIX := 15
  const MAX_SHOWN := 200

  // ----- the plain definition -----

  ghost predicate PrefixOf(p: string, word: string) {
    2 <= |p| <= 15 && p <= word
  }

  ghost predicate PrefixIn(p: string, words: seq<string>) {
    exists i :: 0 <= i < |words| && PrefixOf(p, words[i])
  }

  /** The row contributes to the entry of that prefix. */
  ghost predicate Contributes(h: Host, r: Row, key: Key) {
    r.id == key.id && |h.strip(r.content)| >= 3 && PrefixIn(key.prefix, h.split(h.strip(r.content)))
  }

  ghost function Contributors(h: Host, rows: seq<Row>, key: Key): nat {
    if rows == [] then 0
    else Contributors(h, rows[..|rows| - 1], key) + if Contributes(h, rows[|rows| - 1], key) then 1 else 0
  }

  function Shown(h: Host, r: Row): string {
    Take(h.strip(r.content), MAX_SHOWN)
  }

  /** The index holds a key exactly if some row contributes to it; the frequency is the number of
      such rows, and what is shown comes from the first of them. */
  ghost predicate Exact(h: Host, rows: seq<Row>, index: Index) {
    && (forall key :: key in index <==> Contributors(h, rows, key) > 0)
    && (forall key :: key in index ==> index[key].frequency == Contributors(h, rows, key))
    && (forall key :: key in index ==> FromFirst(h, rows, key, index[key]))
  }

  ghost predicate FromFirst(h: Host, rows: seq<Row>, key: Key, e: Entry) {
    exists n :: 0 <= n < |rows| && Contributes(h, rows[n], key) && Contributors(h, rows[..n], key) == 0
      && e.content == Take(h.strip(rows[n].content), 200) && e.kind == rows[n].kind
  }

  // ----- the sum of all frequencies -----

  ghost function Total(index: Index): nat
    decreases |index|
  {
    if index == map[] then 0
    else
      var k :| k in index;
      index[k].frequency + Total(index - {k})
  }

  lemma {:induction false} TotalWithout(index: Index, k: Key)
    requires k in index
    ensures Total(index) == index[k].frequency + Total(index - {k})
    decreases |index|
  {
    var j :| j in index && Total(index) == index[j].frequency + Total(index - {j});
    if j != k {
      TotalWithout(index - {j}, k);
      TotalWithout(index - {k}, j);
      assert index - {j} - {k} == index - {k} - {j};
    }
  }

  lemma TotalAfter(index: Index, k: Key, e: Entry)
    ensures Total(index[k := e]) == Total(index) + e.frequency - if k in index then index[k].frequency else 0
  {
    TotalWithout(index[k := e], k);
    assert index[k := e] - {k} == index - {k};
    if k in index {
      TotalWithout(index, k);
    } else {
      assert index - {k} == index;
    }
  }

  // ----- one row -----

  /** Every key in seen was inserted or had its frequency raised by one, and nothing else changed. */
  ghost predicate Bumped(before: Index, after: Index, seen: set<Key>, content: string, kind: string) {
    && after.Keys == before.Keys + seen
    && forall k :: k in after ==> after[k] == BumpedEntry(before, seen, k, content, kind)
  }

  ghost function BumpedEntry(before: Index, seen: set<Key>, k: Key, content: string, kind: string): Entry
    requires k in before.Keys + seen
  {
    if k !in seen then before[k]
    else if k in before then before[k].(frequency := before[k].frequency + 1)
    else Entry(content, 1, kind)
  }

  ghost predicate SeenExactly(seen: set<Key>, id: string, words: seq<string>) {
    forall k :: k in seen <==> k.id == id && PrefixIn(k.prefix, words)
  }

  class AutocompleteIndex {
    var entries: Index

    constructor ()
      ensures entries == map[]
    {
      entries := map[];
    }

    /** UPDATE ... SET frequency=frequency+1, or INSERT. */
    method Upsert(prefix: string, id: string, content: string, kind: string)
      modifies this
      ensures var k := Key(prefix, id);
        entries == old(entries)[k := if k in old(entries) then old(entries)[k].(frequency := old(entries)[k].frequency + 1) else Entry(content, 1, kind)]
      ensures Total(entries) == Total(old(entries)) + 1
    {
      var k := Key(prefix, id);
      var e := if k in entries then entries[k].(frequency := entries[k].frequency + 1) else Entry(content, 1, kind);
      TotalAfter(entries, k, e);
      entries := entries[k := e];
    }

    /** The inner loop over the prefixes of one word. */
    method IndexWord(word: string, r: Row, content: string, seen: set<Key>, inserted: nat, ghost before: Index)
      returns (seen': set<Key>, inserted': nat)
      requires Bumped(before, entries, seen, content, r.kind) && inserted == Total(entries)
      modifies this
      ensures Bumped(before, entries, seen', content, r.kind) && inserted' == Total(entries)
      ensures forall k :: k in seen' <==> k in seen || (k.id == r.id && PrefixOf(k.prefix, word))
    {
      seen', inserted' := seen, inserted;
      if |word| < MIN_PREFIX {
        return;
      }
      var last := if |word| < MAX_PREFIX then |word| else MAX_PREFIX;
      for i := MIN_PREFIX to last + 1
        invariant Bumped(before, entries, seen', content, r.kind) && inserted' == Total(entries)
        invariant forall k :: k in seen' <==> k in seen || (k.id == r.id && PrefixOf(k.prefix, word) && |k.prefix| < i)
      {
        var key := Key(word[..i], r.id);
        PrefixOfLength(word, i);
        if key in seen' {
          continue;
        }
        seen' := seen' + {key};
        Upsert(word[..i], r.id, content, r.kind);
        inserted' := inserted' + 1;
      }
    }

    method IndexRow(h: Host, r: Row, inserted: nat) returns (inserted': nat, ghost seen: set<Key>)
      requires inserted == Total(entries)
      modifies this
      ensures Bumped(old(entries), entries, seen, Shown(h, r), r.kind) && inserted' == Total(entries)
      ensures forall k :: k in seen <==> Contributes(h, r, k)
    {
      inserted', seen := inserted, {};
      var content := h.strip(r.content);
      if |content| < MIN_CONTENT {
        return;
      }
      var words := h.split(content);
      var met: set<Key> := {};
      ghost var before := entries;
      for i := 0 to |words|
        invariant Bumped(before, entries, met, Shown(h, r), r.kind) && inserted' == Total(entries)
        invariant SeenExactly(met, r.id, words[..i])
      {
        PrefixInSnoc(words[..i], words[i]);
        assert words[..i + 1] == words[..i] + [words[i]];
        met, inserted' := IndexWord(words[i], r, Shown(h, r), met, inserted', before);
      }
      assert words[..|words|] == words;
      seen := met;
    }

    /** _rebuild_prefixes on the active rows, newest first: the first so many of them are indexed, but at
        least one. */
    method Rebuild(h: Host, active: seq<Row>, maxMemories: int) returns (inserted: nat, ghost n: nat)
      modifies this
      ensures n <= |active| && Exact(h, active[..n], entries)
      ensures n == |active| || (n == maxMemories > 0) || (n == 1 && maxMemories <= 0)
      ensures n <= maxMemories || n <= 1
      ensures inserted == Total(entries)
    {
      entries, inserted := map[], 0;
      var rows := First(active, if maxMemories < 1 then 1 else maxMemories);
      n := |rows|;
      for i := 0 to |rows|
        invariant Exact(h, rows[..i], entries) && inserted == Total(entries)
      {
        ghost var before, seen := entries, {};
        inserted, seen := IndexRow(h, rows[i], inserted);
        ExactNext(h, rows, i, before, entries, seen);
      }
      assert rows[..|rows|] == rows;
    }
  }

  lemma PrefixOfLength(word: string, n: nat)
    requires MIN_PREFIX <= n <= MAX_PREFIX && n <= |word|
    ensures forall p :: PrefixOf(p, word) && |p| == n <==> p == word[..n]
  {
  }

  lemma PrefixInSnoc(words: seq<string>, word: string)
    ensures forall p :: PrefixIn(p, words + [word]) <==> PrefixIn(p, words) || PrefixOf(p, word)
  {
    var more := words + [word];
    forall p ensures PrefixIn(p, more) <==> PrefixIn(p, words) || PrefixOf(p, word) {
      if PrefixIn(p, words) {
        var i :| 0 <= i < |words| && PrefixOf(p, words[i]);
        assert more[i] == words[i];
      }
      assert more[|words|] == word;
    }
  }

  lemma ContributorsSnoc(h: Host, rows: seq<Row>, r: Row, key: Key)
    ensures Contributors(h, rows + [r], key) == Contributors(h, rows, key) + if Contributes(h, r, key) then 1 else 0
  {
    assert (rows + [r])[..|rows|] == rows;
  }

  lemma FromFirstSnoc(h: Host, rows: seq<Row>, r: Row, key: Key, e: Entry)
    requires FromFirst(h, rows, key, e)
    ensures FromFirst(h, rows + [r], key, e)
  {
    var n :| 0 <= n < |rows| && Contributes(h, rows[n], key) && Contributors(h, rows[..n], key) == 0
      && e.content == Take(h.strip(rows[n].content), 200) && e.kind == rows[n].kind;
    assert (rows + [r])[n] == rows[n] && (rows + [r])[..n] == rows[..n];
  }

  lemma FirstContributor(h: Host, rows: seq<Row>, r: Row, key: Key)
    requires Contributes(h, r, key) && Contributors(h, rows, key) == 0
    ensures FromFirst(h, rows + [r], key, Entry(Shown(h, r), 1, r.kind))
  {
    assert (rows + [r])[|rows|] == r && (rows + [r])[..|rows|] == rows;
  }

  lemma ExactSnoc(h: Host, rows: seq<Row>, r: Row, before: Index, after: Index, seen: set<Key>)
    requires Exact(h, rows, before) && Bumped(before, after, seen, Shown(h, r), r.kind)
    requires forall k :: k in seen <==> Contributes(h, r, k)
    ensures Exact(h, rows + [r], after)
  {
    forall key
      ensures key in after <==> Contributors(h, rows + [r], key) > 0
      ensures key in after ==> after[key].frequency == Contributors(h, rows + [r], key)
    {
      ContributorsSnoc(h, rows, r, key);
    }
    forall key | key in after ensures FromFirst(h, rows + [r], key, after[key]) {
      if key in before {
        FromFirstSnoc(h, rows, r, key, before[key]);
      } else {
        FirstContributor(h, rows, r, key);
      }
    }
  }

  lemma ExactNext(h: Host, rows: seq<Row>, n: nat, before: Index, after: Index, seen: set<Key>)
    requires n < |rows| && Exact(h, rows[..n], before) && Bumped(before, after, seen, Shown(h, rows[n]), rows[n].kind)
    requires forall k :: k in seen <==> Contributes(h, rows[n], k)
    ensures Exact(h, rows[..n + 1], after)
  {
    ExactGrown(h, rows[..n], rows[n], rows[..n + 1], before, after, seen);
  }

  lemma ExactGrown(h: Host, rows: seq<Row>, r: Row, more: seq<Row>, before: Index, after: Index, seen: set<Key>)
    requires more == rows + [r] && Exact(h, rows, before) && Bumped(before, after, seen, Shown(h, r), r.kind)
    requires forall k :: k in seen <==> Contributes(h, r, k)
    ensures Exact(h, more, after)
  {
    ExactSnoc(h, rows, r, before, after, seen);
  }

  // ----- consequences -----

  /** The order of the rows shows only in what is displayed, not in keys or frequencies. */
  lemma FrequenciesIgnoreOrder(h: Host, xs: seq<Row>, ys: seq<Row>, a: Index, b: Index)
    requires multiset(xs) == multiset(ys) && Exact(h, xs, a) && Exact(h, ys, b)
    ensures a.Keys == b.Keys
    ensures forall k :: k in a ==> a[k].frequency == b[k].frequency
  {
    forall k ensures Contributors(h, xs, k) == Contributors(h, ys, k) {
      ContributorsReordered(h, xs, ys, k);
    }
  }

  lemma {:induction false} ContributorsReordered(h: Host, xs: seq<Row>, ys: seq<Row>, key: Key)
    requires multiset(xs) == multiset(ys)
    ensures Contributors(h, xs, key) == Contributors(h, ys, key)
    decreases |xs|
  {
    if xs == [] {
      assert |multiset(ys)| == 0;
    } else {
      var r, n := xs[|xs| - 1], |xs| - 1;
      assert r in multiset(xs);
      var j :| 0 <= j < |ys| && ys[j] == r;
      var rest := ys[..j] + ys[j + 1..];
      assert ys == ys[..j] + [r] + ys[j + 1..];
      assert xs == xs[..n] + [r];
      assert multiset(xs[..n]) == multiset(xs) - multiset{r};
      assert multiset(rest) == multiset(ys) - multiset{r};
      ContributorsReordered(h, xs[..n], rest, key);
      ContributorsConcat(h, ys[..j] + [r], ys[j + 1..], key);
      ContributorsConcat(h, ys[..j], ys[j + 1..], key);
      ContributorsSnoc(h, ys[..j], r, key);
    }
  }

  lemma {:induction false} ContributorsConcat(h: Host, xs: seq<Row>, ys: seq<Row>, key: Key)
    ensures Contributors(h, xs + ys, key) == Contributors(h, xs, key) + Contributors(h, ys, key)
    decreases |ys|
  {
    if ys == [] {
      assert xs + ys == xs;
    } else {
      var n := |ys| - 1;
      assert (xs + ys)[..|xs + ys| - 1] == xs + ys[..n];
      ContributorsConcat(h, xs, ys[..n], key);
    }
  }

  /** Frequencies are monotone: a longer prefix is never more frequent than a shorter one of it. */
  lemma {:induction false} LongerIsRarer(h: Host, rows: seq<Row>, p: string, q: string, id: string)
    requires p <= q && |p| >= MIN_PREFIX
    ensures Contributors(h, rows, Key(q, id)) <= Contributors(h, rows, Key(p, id))
  {
    if rows != [] {
      LongerIsRarer(h, rows[..|rows| - 1], p, q, id);
    }
  }
}
