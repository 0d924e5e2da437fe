/**
 What a dream cycle proposes: the human-origin rows it reads, the clusters it finds in them, the
 insight it writes about each, and the proposal it builds. Reading order, window and word splitting,
 the noise filter, the quality score and the session count are parameters.
 */
module DreamPlan {
  import opened Finite
  import opened Text
  import opened Proposals
  import opened Evidence
  import opened EvidenceCuts
  import opened ProposalIdentity
  import opened ProposalContents
  import opened Patterns
  import opened PatternTheorems

  // ----- the rows read -----

  /** SQLite's lower(), which knows ASCII only. */
  function Lower(s: string): string {
    if s == "" then ""
    else [if 'A' <= s[0] <= 'Z' then (s[0] as int + 32) as char else s[0]] + Lower(s[1..])
  }

  predicate Generated(m: Memory) {
    || m.agent == "dream-engine" || m.agent == "self-improvement-engine"
    || "super-memory.dream" <= Lower(m.source) || "self-improvement" <= Lower(m.source)
    || m.generatedBy != "" || m.governedBy != ""
  }

  predicate Human(m: Memory) {
    !m.deleted && !Generated(m)
  }

  function HumanRows(memories: Memories): Memories {
    map m | m in memories && Human(memories[m]) :: memories[m]
  }

  /** s starts with the lower-case text p, in whatever case it writes the letters a to z. */
  ghost predicate StartsLike(s: string, p: string) {
    |p| <= |s| && forall i :: 0 <= i < |p| ==> s[i] == p[i] || ('a' <= p[i] <= 'z' && s[i] as int + 32 == p[i] as int)
  }

  lemma {:induction false} LowerStartsIff(s: string, p: string)
    requires forall i :: 0 <= i < |p| ==> !('A' <= p[i] <= 'Z')
    ensures p <= Lower(s) <==> StartsLike(s, p)
  {
    if p != "" && s != "" {
      LowerStartsIff(s[1..], p[1..]);
      assert p <= Lower(s) <==> p[0] == Lower(s)[0] && p[1..] <= Lower(s[1..]) by {
        assert Lower(s)[1..] == Lower(s[1..]) && p == [p[0]] + p[1..] && Lower(s) == [Lower(s)[0]] + Lower(s)[1..];
      }
      assert StartsLike(s, p) <==> StartsLike([s[0]], [p[0]]) && StartsLike(s[1..], p[1..]) by {
        forall i | 0 < i < |p| && |p| <= |s| ensures s[1..][i - 1] == s[i] && p[1..][i - 1] == p[i] {
        }
      }
    }
  }

  /** A cycle reads exactly the active rows that no generator wrote. */
  lemma HumanRowsIff(memories: Memories, m: MemoryId)
    ensures m in HumanRows(memories) <==>
      && m in memories && !memories[m].deleted
      && memories[m].agent != "dream-engine" && memories[m].agent != "self-improvement-engine"
      && !StartsLike(memories[m].source, "super-memory.dream") && !StartsLike(memories[m].source, "self-improvement")
      && memories[m].generatedBy == "" && memories[m].governedBy == ""
    ensures m in HumanRows(memories) ==> HumanRows(memories)[m] == memories[m]
  {
    if m in memories {
      LowerStartsIff(memories[m].source, "super-memory.dream");
      LowerStartsIff(memories[m].source, "self-improvement");
    }
  }

  /** A row as the cycle reads it. */
  datatype Source = Source(item: Item, content: string)

  /** The query: the rows of the window, in its order and up to its limit. */
  type Reader = Memories -> seq<Source>

  function Items(sources: seq<Source>): seq<Item> {
    seq(|sources|, i requires 0 <= i < |sources| => sources[i].item)
  }

  /** by_id[id]["content"]: of several rows of one id the last. */
  function ContentOf(sources: seq<Source>, id: Id): string {
    if sources == [] then ""
    else if sources[|sources| - 1].item.id == id then sources[|sources| - 1].content
    else ContentOf(sources[..|sources| - 1], id)
  }

  // ----- insights -----

  datatype Cluster = Cluster(pattern: Pattern, samples: seq<string>, sessions: nat)

  const MAX_SAMPLES := 3
  const MAX_SAMPLE := 150

  datatype Settings = Settings(
    host: Host,
    minClusterSize: int,
    threshold: real,
    noise: string -> bool,
    quality: string -> real,
    sessions: (set<Source>, Pattern) -> nat)

  function ClusterOf(st: Settings, sources: seq<Source>, p: Pattern): Cluster {
    var ids := First(p.memoryIds, MAX_SAMPLES);
    Cluster(p, seq(|ids|, i requires 0 <= i < |ids| => Take(ContentOf(sources, ids[i]), MAX_SAMPLE)), st.sessions(Elements(sources), p))
  }

  /** max(samples, key=lambda sample: (len(sample), sample)), ignoring empty ones. */
  function Best(samples: seq<string>): string {
    if samples == [] then ""
    else
      var rest := Best(samples[1..]);
      if |samples[0]| > |rest| || (|samples[0]| == |rest| && AtMost(rest, samples[0])) then samples[0] else rest
  }

  /** generate_insight */
  function Insight(c: Cluster): string {
    var best := Best(c.samples);
    if best == "" then ""
    else Take(
      "[Dream Consolidation] " + (if c.sessions > 1 then "Cross-session" else "Single-session") + " pattern \U{2014} "
      + Decimal(c.pattern.size) + " related memories across " + Decimal(c.sessions)
      + " session(s). Representative observation (extractive): " + best, 4_000)
  }

  // ----- proposals -----

  /** One cluster's insight with the verdicts of the noise filter and the quality score. */
  datatype Candidate = Candidate(insight: string, noise: bool, quality: real, proposal: Proposal)

  function ActionValue(): Value {
    Dict([Entry(Str("type"), Str("create_memory")), Entry(Str("memory_type"), Str("insight")), Entry(Str("scope"), Str("project"))])
  }

  function EvidenceOf(c: Cluster, quality: real): Value {
    Dict([Entry(Str("cluster_size"), Whole(c.pattern.size)), Entry(Str("cross_session"), Flag(c.sessions > 1)),
          Entry(Str("sessions"), Whole(c.sessions)), Entry(Str("quality_overall"), Float(quality))])
  }

  function CandidateOf(st: Settings, runKey: string, c: Cluster): Candidate {
    var insight := Insight(c);
    Candidate(insight, st.noise(insight), st.quality(insight),
      BuildProposal(st.host, "dream_insight", insight, AsValues(c.pattern.memoryIds),
                    EvidenceOf(c, st.quality(insight)), ActionValue(), runKey))
  }

  /** The run key hashes the limit and all source ids of the chosen clusters, among other inputs. */
  type RunKey = (nat, seq<string>) -> string

  const MAX_PROPOSALS_PER_RUN := 50

  function Limit(maxInsights: int): nat {
    if maxInsights < 0 then 0 else if maxInsights > MAX_PROPOSALS_PER_RUN then MAX_PROPOSALS_PER_RUN else maxInsights
  }

  function SourceIdSet(ps: seq<Pattern>): set<Id> {
    set i, k | 0 <= i < |ps| && 0 <= k < |ps[i].memoryIds| :: ps[i].memoryIds[k]
  }

  function PlanOf(st: Settings, key: RunKey, sources: seq<Source>, ps: seq<Pattern>, maxInsights: int): seq<Candidate> {
    var chosen := First(ps, Limit(maxInsights));
    var runKey := key(Limit(maxInsights), Sorted(SourceIdSet(chosen)));
    seq(|chosen|, i requires 0 <= i < |chosen| => CandidateOf(st, runKey, ClusterOf(st, sources, chosen[i])))
  }

  /** The candidates of a cycle on these rows, in order. */
  ghost function Plan(st: Settings, key: RunKey, sources: seq<Source>, maxInsights: int): seq<Candidate> {
    PlanOf(st, key, sources, PatternsOf(Items(sources), st.minClusterSize, st.threshold), maxInsights)
  }

  /** The plan is about the first so many of the clusters found in the rows, in the order of their list ps. */
  method MakePlan(st: Settings, key: RunKey, sources: seq<Source>, maxInsights: int)
    returns (plan: seq<Candidate>, ghost ps: seq<Pattern>)
    ensures plan == Plan(st, key, sources, maxInsights)
    ensures LargestFirst(ps) && forall p :: p in ps <==> Describes(Items(sources), st.minClusterSize, st.threshold, p)
    ensures IsCut(|plan|, |ps|, maxInsights) && OneRun(key, ps, maxInsights, plan)
    ensures PrintsStrings(st.host.show) ==> forall i :: 0 <= i < |plan| ==> IsAbout(st, sources, ps[i], plan[i])
  {
    var found := DetectPatterns(Items(sources), st.minClusterSize, st.threshold);
    ps := found;
    plan := PlanOf(st, key, sources, found, maxInsights);
    PlanIsOneRun(st, key, sources, ps, maxInsights);
    if PrintsStrings(st.host.show) {
      PlanIsAbout(st, key, sources, ps, maxInsights);
    }
  }

  // ----- what a plan is about -----

  /** n is the least of the number of patterns, the limit asked for, and 50. */
  ghost predicate IsCut(n: nat, found: nat, maxInsights: int) {
    && n <= found && n <= 50 && (n <= maxInsights || (n == 0 && maxInsights < 0))
    && (n == found || n == 50 || n >= maxInsights)
  }

  /** The start of what the last row read with that id says. */
  ghost predicate Excerpt(sources: seq<Source>, id: Id, text: string) {
    exists i :: IsLastRow(sources, id, i) && text == Take(sources[i].content, 150)
  }

  ghost predicate IsLastRow(sources: seq<Source>, id: Id, i: int) {
    0 <= i < |sources| && sources[i].item.id == id && forall j :: i < j < |sources| ==> sources[j].item.id != id
  }

  ghost predicate IsSample(sources: seq<Source>, p: Pattern, text: string) {
    exists k :: 0 <= k < 3 && k < |p.memoryIds| && Excerpt(sources, p.memoryIds[k], text)
  }

  /** The longest excerpt of the first three members, and of several the last in order. */
  ghost predicate Represents(sources: seq<Source>, p: Pattern, best: string) {
    IsSample(sources, p, best) && forall text :: IsSample(sources, p, text) ==> |text| < |best| || (|text| == |best| && AtMost(text, best))
  }

  /** The insight tells size and sessions of the cluster and quotes its representative, if that says anything. */
  ghost predicate SpeaksOf(st: Settings, sources: seq<Source>, p: Pattern, insight: string) {
    var sessions := st.sessions(Elements(sources), p);
    exists best :: Represents(sources, p, best)
      && insight == if best == "" then "" else Take(
        "[Dream Consolidation] " + (if sessions >= 2 then "Cross-session" else "Single-session") + " pattern \U{2014} "
        + Decimal(p.size) + " related memories across " + Decimal(sessions)
        + " session(s). Representative observation (extractive): " + best, 4000)
  }

  ghost predicate Names(p: Pattern, sourceIds: seq<string>) {
    Ascending(sourceIds) && forall x :: x in sourceIds <==> exists id :: id in p.memoryIds && id != "" && x == Take(id, 200)
  }

  /** The candidate speaks of the pattern and proposes that insight, naming the members as its sources. */
  ghost predicate IsAbout(st: Settings, sources: seq<Source>, p: Pattern, c: Candidate) {
    && SpeaksOf(st, sources, p, c.insight) && c.noise == st.noise(c.insight) && c.quality == st.quality(c.insight)
    && c.proposal.kind == "dream_insight" && c.proposal.content == Clean(st.host.white, c.insight) && Names(p, c.proposal.sourceIds)
    && Reports(st, sources, p, c)
  }

  ghost predicate IsMember(ps: seq<Pattern>, id: Id) {
    exists p :: p in ps && id in p.memoryIds
  }

  /** All candidates of a plan bear the run key of the limit and of all their members, in order. */
  ghost predicate OneRun(key: RunKey, ps: seq<Pattern>, maxInsights: int, plan: seq<Candidate>)
    requires |plan| <= |ps|
  {
    exists limit, ids ::
      && limit == (if maxInsights < 0 then 0 else if maxInsights < 50 then maxInsights else 50)
      && Ascending(ids) && (forall id :: id in ids <==> IsMember(ps[..|plan|], id))
      && forall i :: 0 <= i < |plan| && key(limit, ids) != "" ==> plan[i].proposal.runKey == key(limit, ids)
  }

  lemma PlanIsOneRun(st: Settings, key: RunKey, sources: seq<Source>, ps: seq<Pattern>, maxInsights: int)
    ensures |PlanOf(st, key, sources, ps, maxInsights)| <= |ps|
    ensures OneRun(key, ps, maxInsights, PlanOf(st, key, sources, ps, maxInsights))
  {
    var chosen := First(ps, Limit(maxInsights));
    var ids := Sorted(SourceIdSet(chosen));
    forall id ensures id in ids <==> IsMember(chosen, id) {
      assert id in ids <==> id in Elements(ids);
      if p :| p in chosen && id in p.memoryIds {
        var i :| 0 <= i < |chosen| && chosen[i] == p;
        var k :| 0 <= k < |p.memoryIds| && p.memoryIds[k] == id;
        assert chosen[i].memoryIds[k] == id;
      }
      if id in ids {
        var i, k :| 0 <= i < |chosen| && 0 <= k < |chosen[i].memoryIds| && chosen[i].memoryIds[k] == id;
        assert chosen[i] in chosen;
      }
    }
    assert chosen == ps[..|chosen|];
  }

  /** The columns that tell where it comes from and what is to be done, as far as bounding keeps them. */
  ghost predicate Reports(st: Settings, sources: seq<Source>, p: Pattern, c: Candidate) {
    var sessions := st.sessions(Elements(sources), p);
    exists evidence, action ::
      && IsCutOf(st.host.show,
           Dict([Entry(Str("cluster_size"), Whole(p.size)), Entry(Str("cross_session"), Flag(sessions >= 2)),
                 Entry(Str("sessions"), Whole(sessions)), Entry(Str("quality_overall"), Float(c.quality))]), 0, evidence)
      && IsCutOf(st.host.show,
           Dict([Entry(Str("type"), Str("create_memory")), Entry(Str("memory_type"), Str("insight")), Entry(Str("scope"), Str("project"))]), 0, action)
      && c.proposal.evidence == st.host.json(evidence) && c.proposal.action == st.host.json(action)
  }

  lemma CandidateReports(st: Settings, runKey: string, sources: seq<Source>, p: Pattern)
    ensures Reports(st, sources, p, CandidateOf(st, runKey, ClusterOf(st, sources, p)))
  {
    var c := ClusterOf(st, sources, p);
    var insight := Insight(c);
    var evidence, action := ProposalTells(st.host, "dream_insight", insight, AsValues(p.memoryIds),
                                          EvidenceOf(c, st.quality(insight)), ActionValue(), runKey);
  }

  lemma {:induction false} ContentIsLast(sources: seq<Source>, id: Id)
    requires exists s :: s in sources && s.item.id == id
    ensures Excerpt(sources, id, Take(ContentOf(sources, id), 150))
    ensures forall text :: Excerpt(sources, id, text) ==> text == Take(ContentOf(sources, id), 150)
  {
    var n := |sources| - 1;
    if sources[n].item.id != id {
      assert sources == sources[..n] + [sources[n]];
      ContentIsLast(sources[..n], id);
      forall text ensures Excerpt(sources, id, text) <==> Excerpt(sources[..n], id, text) {
        ExcerptBefore(sources, id, text);
      }
    }
  }

  lemma ExcerptBefore(sources: seq<Source>, id: Id, text: string)
    requires sources != [] && sources[|sources| - 1].item.id != id
    ensures Excerpt(sources, id, text) <==> Excerpt(sources[..|sources| - 1], id, text)
  {
    var n := |sources| - 1;
    if i :| IsLastRow(sources[..n], id, i) && text == Take(sources[..n][i].content, 150) {
      assert forall j :: i < j < n ==> sources[j] == sources[..n][j];
      assert IsLastRow(sources, id, i) && sources[i] == sources[..n][i];
    }
    if i :| IsLastRow(sources, id, i) && text == Take(sources[i].content, 150) {
      assert IsLastRow(sources[..n], id, i) && sources[..n][i] == sources[i];
    }
  }

  ghost predicate AllRead(sources: seq<Source>, p: Pattern) {
    p.memoryIds != [] && forall k :: 0 <= k < |p.memoryIds| ==> exists s :: s in sources && s.item.id == p.memoryIds[k]
  }

  lemma SamplesExact(st: Settings, sources: seq<Source>, p: Pattern, text: string)
    requires AllRead(sources, p)
    ensures text in ClusterOf(st, sources, p).samples <==> IsSample(sources, p, text)
  {
    var ids, samples := First(p.memoryIds, MAX_SAMPLES), ClusterOf(st, sources, p).samples;
    forall k | 0 <= k < |ids|
      ensures Excerpt(sources, p.memoryIds[k], samples[k])
      ensures Excerpt(sources, p.memoryIds[k], text) ==> text == samples[k]
    {
      ContentIsLast(sources, p.memoryIds[k]);
    }
  }

  lemma BestRepresents(st: Settings, sources: seq<Source>, p: Pattern)
    requires AllRead(sources, p)
    ensures Represents(sources, p, Best(ClusterOf(st, sources, p).samples))
  {
    var samples := ClusterOf(st, sources, p).samples;
    BestIsMaximal(samples);
    forall text ensures text in samples <==> IsSample(sources, p, text) {
      SamplesExact(st, sources, p, text);
    }
    assert samples[0] in samples;
  }

  lemma InsightSpeaks(st: Settings, sources: seq<Source>, p: Pattern)
    requires AllRead(sources, p)
    ensures SpeaksOf(st, sources, p, Insight(ClusterOf(st, sources, p)))
  {
    BestRepresents(st, sources, p);
  }

  lemma MembersNamed(show: Printer, p: Pattern)
    requires PrintsStrings(show) && |p.memoryIds| <= 64
    ensures Names(p, NormalizeSourceIds(show, AsValues(p.memoryIds)))
  {
    var ids := p.memoryIds;
    var s := SourceSet(show, AsValues(ids));
    forall x ensures x in s <==> exists id :: id in ids && id != "" && x == Take(id, 200) {
      if id :| id in ids && id != "" && x == Take(id, 200) {
        var i :| 0 <= i < |ids| && ids[i] == id;
        assert Truthy(AsValues(ids)[i]) && Take(show(AsValues(ids)[i]), MAX_SOURCE_ID) == x;
      }
    }
    ImageSize(ids, s);
    assert forall x :: x in Sorted(s) <==> x in Elements(Sorted(s));
  }

  lemma {:induction false} ImageSize(ids: seq<Id>, s: set<string>)
    requires forall x :: x in s ==> exists id :: id in ids && x == Take(id, 200)
    ensures |s| <= |ids|
    decreases |ids|
  {
    if ids == [] {
      assert s == {};
    } else {
      var n := |ids| - 1;
      var x := Take(ids[n], 200);
      assert ids == ids[..n] + [ids[n]];
      ImageSize(ids[..n], s - {x});
    }
  }

  lemma PatternIsRead(st: Settings, sources: seq<Source>, ps: seq<Pattern>, i: nat)
    requires ps == PatternsOf(Items(sources), st.minClusterSize, st.threshold) && i < |ps|
    ensures AllRead(sources, ps[i]) && |ps[i].memoryIds| <= 64
  {
    var items := Items(sources);
    PatternsAreClusters(items, st.minClusterSize, st.threshold, ps[i]);
    var group :| IsCluster(items, st.threshold, group) && |group| >= 2 && ps[i].size == |group| && ps[i].memoryIds == First(group, 64);
    forall k | 0 <= k < |ps[i].memoryIds| ensures exists s :: s in sources && s.item.id == ps[i].memoryIds[k] {
      assert group[k] in group;
      ClusterMemberIsRead(sources, st.threshold, group, group[k]);
    }
  }

  lemma ClusterMemberIsRead(sources: seq<Source>, t: real, group: seq<Id>, id: Id)
    requires IsCluster(Items(sources), t, group) && id in group
    ensures exists s :: s in sources && s.item.id == id
  {
    var items := Items(sources);
    var u :| IsId(items, u) && forall v :: v in group <==> Chained(items, t, u, v);
    var p :| IsChain(items, t, p, u, id);
    assert IsId(items, p[|p| - 1]);
    var a :| a in items && a.id == id;
    var i :| 0 <= i < |items| && items[i] == a;
    assert sources[i] in sources;
  }

  lemma PlanIsAbout(st: Settings, key: RunKey, sources: seq<Source>, ps: seq<Pattern>, maxInsights: int)
    requires PrintsStrings(st.host.show) && ps == PatternsOf(Items(sources), st.minClusterSize, st.threshold)
    ensures var plan := PlanOf(st, key, sources, ps, maxInsights);
      |plan| <= |ps| && forall i :: 0 <= i < |plan| ==> IsAbout(st, sources, ps[i], plan[i])
  {
    var plan := PlanOf(st, key, sources, ps, maxInsights);
    forall i | 0 <= i < |plan| ensures IsAbout(st, sources, ps[i], plan[i]) {
      PatternIsRead(st, sources, ps, i);
      InsightSpeaks(st, sources, ps[i]);
      CandidateReports(st, key(Limit(maxInsights), Sorted(SourceIdSet(First(ps, Limit(maxInsights))))), sources, ps[i]);
      MembersNamed(st.host.show, ps[i]);
    }
  }

  predicate Passes(c: Candidate) {
    c.insight != "" && !c.noise && c.quality >= 0.5
  }

  /** The longest nonempty sample, and of several the last in order. */
  lemma {:induction false} BestIsMaximal(samples: seq<string>)
    ensures Best(samples) == "" || Best(samples) in samples
    ensures forall s :: s in samples ==> |s| < |Best(samples)| || (|s| == |Best(samples)| && AtMost(s, Best(samples)))
  {
    if samples != [] {
      BestIsMaximal(samples[1..]);
      var rest, best := Best(samples[1..]), Best(samples);
      Trichotomy(rest, samples[0]);
      forall s | s in samples ensures |s| < |best| || (|s| == |best| && AtMost(s, best)) {
        if s != samples[0] {
          assert s in samples[1..];
          AtMostTransitiveIf(s, rest, samples[0]);
        }
      }
    }
  }

  lemma AtMostTransitiveIf(a: string, b: string, c: string)
    ensures AtMost(a, b) && AtMost(b, c) ==> AtMost(a, c)
  {
    if AtMost(a, b) && AtMost(b, c) {
      AtMostTransitive(a, b, c);
    }
  }

  // ----- the same rows give the same proposals -----

  /** Rows of one id agree; layer replicas do, unless one of them is stale. */
  ghost predicate Agreeing(sources: seq<Source>) {
    forall i, j :: 0 <= i < j < |sources| && sources[i].item.id == sources[j].item.id ==> sources[i] == sources[j]
  }

  /** The same rows: in the same order, or in any order if replicas agree. */
  ghost predicate SameRows(xs: seq<Source>, ys: seq<Source>) {
    xs == ys || (Elements(xs) == Elements(ys) && Agreeing(xs))
  }

  lemma {:induction false} ContentOfRow(sources: seq<Source>, id: Id)
    ensures (forall s :: s in sources ==> s.item.id != id) ==> ContentOf(sources, id) == ""
    ensures (exists s :: s in sources && s.item.id == id) ==>
      exists s :: s in sources && s.item.id == id && s.content == ContentOf(sources, id)
  {
    if sources != [] {
      var n := |sources| - 1;
      ContentOfRow(sources[..n], id);
      assert forall s :: s in sources <==> s in sources[..n] || s == sources[n];
    }
  }

  lemma SameContent(xs: seq<Source>, ys: seq<Source>, id: Id)
    requires Elements(xs) == Elements(ys) && Agreeing(xs)
    ensures ContentOf(xs, id) == ContentOf(ys, id)
  {
    ContentOfRow(xs, id);
    ContentOfRow(ys, id);
    assert forall s :: s in xs <==> s in Elements(xs);
    assert forall s :: s in ys <==> s in Elements(ys);
    if s :| s in xs && s.item.id == id {
      var x :| x in xs && x.item.id == id && x.content == ContentOf(xs, id);
      var y :| y in ys && y.item.id == id && y.content == ContentOf(ys, id);
      AgreeingRows(xs, x, y);
    }
  }

  lemma AgreeingRows(xs: seq<Source>, x: Source, y: Source)
    requires Agreeing(xs) && x in xs && y in xs && x.item.id == y.item.id
    ensures x == y
  {
    var i :| 0 <= i < |xs| && xs[i] == x;
    var j :| 0 <= j < |xs| && xs[j] == y;
  }

  lemma SameCluster(st: Settings, xs: seq<Source>, ys: seq<Source>, p: Pattern)
    requires SameRows(xs, ys)
    ensures ClusterOf(st, xs, p) == ClusterOf(st, ys, p)
  {
    if xs != ys {
      var ids := First(p.memoryIds, MAX_SAMPLES);
      forall i | 0 <= i < |ids| ensures ClusterOf(st, xs, p).samples[i] == ClusterOf(st, ys, p).samples[i] {
        SameContent(xs, ys, ids[i]);
      }
    }
  }

  lemma SamePatterns(st: Settings, xs: seq<Source>, ys: seq<Source>)
    requires SameRows(xs, ys)
    ensures PatternsOf(Items(xs), st.minClusterSize, st.threshold) == PatternsOf(Items(ys), st.minClusterSize, st.threshold)
  {
    if xs != ys {
      ItemsWithin(xs, ys);
      ItemsWithin(ys, xs);
      RowOrderIrrelevant(Items(xs), Items(ys), st.minClusterSize, st.threshold);
    }
  }

  lemma ItemsWithin(xs: seq<Source>, ys: seq<Source>)
    requires Elements(xs) <= Elements(ys)
    ensures Elements(Items(xs)) <= Elements(Items(ys))
  {
    forall x | x in Elements(Items(xs)) ensures x in Elements(Items(ys)) {
      var i :| 0 <= i < |xs| && Items(xs)[i] == x;
      assert xs[i] in Elements(xs);
      var j :| 0 <= j < |ys| && ys[j] == xs[i];
      assert Items(ys)[j] == x;
    }
  }

  /** Id and digest of a proposal depend on kind, content, action and the set of sources alone. */
  lemma SameSubject(h: Host, kind: string, content: string, action: Value,
                    sources: seq<Value>, e: Value, r: string, sources': seq<Value>, e': Value, r': string)
    requires forall v :: Truthy(v) ==> (v in sources <==> v in sources')
    ensures
      var p, p' := BuildProposal(h, kind, content, sources, e, action, r), BuildProposal(h, kind, content, sources', e', action, r');
      p.id == p'.id && p.digest == p'.digest
  {
    SourceOrderIrrelevant(h.show, sources, sources');
  }

  /** The second plan proposes nothing that the first did not: same id and same content. */
  ghost predicate Covers(first: seq<Candidate>, second: seq<Candidate>) {
    forall j :: 0 <= j < |second| && Passes(second[j]) ==>
      exists i :: 0 <= i < |first| && Passes(first[i])
        && first[i].proposal.id == second[j].proposal.id && first[i].proposal.digest == second[j].proposal.digest
  }

  lemma SameCandidate(st: Settings, k: string, k': string, c: Cluster)
    ensures var x, y := CandidateOf(st, k, c), CandidateOf(st, k', c);
      x.insight == y.insight && x.noise == y.noise && x.quality == y.quality
      && x.proposal.id == y.proposal.id && x.proposal.digest == y.proposal.digest
  {
    var insight, sources := Insight(c), AsValues(c.pattern.memoryIds);
    var e := EvidenceOf(c, st.quality(insight));
    SameSubject(st.host, "dream_insight", insight, ActionValue(), sources, e, k, sources, e, k');
  }

  /** On the same rows, under the same settings, a plan with the same or a smaller limit proposes
      nothing new, whatever the two run keys are made of. */
  lemma SameRowsCover(st: Settings, key: RunKey, key': RunKey, xs: seq<Source>, ys: seq<Source>, max: int, max': int)
    requires SameRows(xs, ys) && max' <= max
    ensures Covers(Plan(st, key, xs, max), Plan(st, key', ys, max'))
  {
    var ps := PatternsOf(Items(xs), st.minClusterSize, st.threshold);
    SamePatterns(st, xs, ys);
    SamePatternsCover(st, key, key', xs, ys, ps, max, max');
  }

  lemma SamePatternsCover(st: Settings, key: RunKey, key': RunKey, xs: seq<Source>, ys: seq<Source>, ps: seq<Pattern>, max: int, max': int)
    requires SameRows(xs, ys) && max' <= max
    ensures Covers(PlanOf(st, key, xs, ps, max), PlanOf(st, key', ys, ps, max'))
  {
    var first, second := PlanOf(st, key, xs, ps, max), PlanOf(st, key', ys, ps, max');
    var chosen, chosen' := First(ps, Limit(max)), First(ps, Limit(max'));
    var k, k' := key(Limit(max), Sorted(SourceIdSet(chosen))), key'(Limit(max'), Sorted(SourceIdSet(chosen')));
    forall j | 0 <= j < |second|
      ensures j < |first| && first[j].proposal.id == second[j].proposal.id && first[j].proposal.digest == second[j].proposal.digest
      ensures Passes(second[j]) ==> Passes(first[j])
    {
      assert chosen'[j] == chosen[j];
      SameCluster(st, xs, ys, chosen[j]);
      SameCandidate(st, k, k', ClusterOf(st, xs, chosen[j]));
    }
  }
}
