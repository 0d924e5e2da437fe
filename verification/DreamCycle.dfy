/**
 The dream cycle on the store: every candidate that passes the gates and is not already canonical is
 offered to the queue. The cycle never writes a memory.
 */
module DreamCycle {
  import opened Finite
  import opened LeaseClock
  import opened Proposals
  import opened LeaseProtocol
  import opened ProposalStore
  import opened DreamPlan
  import opened Evidence
  import opened PatternTheorems

  /** The proposals offered to the queue by the first n candidates. */
  ghost function Wanted(plan: seq<Candidate>, memories: Memories, fails: nat -> bool, n: nat): seq<Proposal>
    requires n <= |plan|
  {
    if n == 0 then []
    else
      var p := plan[n - 1].proposal;
      Wanted(plan, memories, fails, n - 1)
      + if Passes(plan[n - 1]) && (fails(n - 1) || !Active(memories, p.digest)) then [p] else []
  }

  function InsertAll(t: Table, ps: seq<Proposal>, now: string): Table {
    if ps == [] then t else InsertOrIgnore(InsertAll(t, ps[..|ps| - 1], now), ps[|ps| - 1], now)
  }

  lemma InsertAllSnoc(t: Table, ps: seq<Proposal>, p: Proposal, now: string)
    ensures InsertAll(t, ps + [p], now) == InsertOrIgnore(InsertAll(t, ps, now), p, now)
  {
    assert (ps + [p])[..|ps|] == ps;
  }

  lemma GrowsByOne(t: Table, p: Proposal, now: string)
    ensures |InsertOrIgnore(t, p, now)| == |t| + if p.id in t then 0 else 1
  {
  }

  // ----- the cycle -----

  datatype Report = Report(
    offered: nat, queued: nat, deduplicated: nat, skippedQuality: nat, skippedNoise: nat, skippedCanonical: nat, empty: nat)

  function Accounted(r: Report): nat {
    r.offered + r.skippedQuality + r.skippedNoise + r.skippedCanonical + r.empty
  }

  /** What a cycle over one plan does: a dry run queues nothing; a real one grows the table by
      exactly the number it reports. */
  ghost predicate Ran(report: Report, dryRun: bool, before: Table, after: Table, wanted: seq<Proposal>, now: string) {
    && after == (if dryRun then before else InsertAll(before, wanted, now))
    && report.offered == |wanted|
    && report.queued == |after| - |before|
    && (!dryRun ==> report.queued + report.deduplicated == report.offered)
  }

  /** One more proposal offered. */
  method Offer(store: Store, p: Proposal, dryRun: bool, report: Report, ghost s: State, ghost trace: seq<Label>, ghost t: State, ghost wanted: seq<Proposal>)
    returns (report': Report, ghost trace': seq<Label>, ghost t': State)
    requires Leads(s, trace, t) && t == store.View()
    requires Ran(report, dryRun, s.table, store.table, wanted, Iso(store.clock))
    modifies store`table, store`procs
    ensures Leads(s, trace', t') && t' == store.View()
    ensures Ran(report', dryRun, s.table, store.table, wanted + [p], Iso(store.clock))
    ensures Accounted(report') == Accounted(report) + 1
    ensures report' == report.(offered := report.offered + 1, queued := report'.queued, deduplicated := report'.deduplicated)
  {
    InsertAllSnoc(s.table, wanted, p, Iso(store.clock));
    GrowsByOne(store.table, p, Iso(store.clock));
    var outcome;
    outcome, trace' := store.EnqueueProposal(FreshNat(store.procs.Keys), p, dryRun);
    t' := store.View();
    LeadsThrough(s, trace, t, trace', t');
    trace' := trace + trace';
    report' := report.(
      offered := report.offered + 1,
      queued := report.queued + if outcome.Created? then 1 else 0,
      deduplicated := report.deduplicated + if outcome.Deduplicated? then 1 else 0);
  }

  datatype Verdict = Empty | Noise | LowQuality | Canonical | Offered

  /** The fate of a candidate. */
  ghost function FateOf(c: Candidate, memories: Memories, lookupFails: bool): Verdict {
    if c.insight == "" then Empty
    else if c.noise then Noise
    else if c.quality < 0.5 then LowQuality
    else if !lookupFails && Active(memories, c.proposal.digest) then Canonical
    else Offered
  }

  /** The fates of the first n candidates. */
  ghost function FatesOf(plan: seq<Candidate>, memories: Memories, fails: nat -> bool, n: nat): seq<Verdict>
    requires n <= |plan|
  {
    if n == 0 then [] else FatesOf(plan, memories, fails, n - 1) + [FateOf(plan[n - 1], memories, fails(n - 1))]
  }

  /** Every counter is the number of candidates with its fate. */
  ghost predicate Counts(r: Report, vs: seq<Verdict>) {
    && r.empty == multiset(vs)[Empty] && r.skippedNoise == multiset(vs)[Noise] && r.skippedQuality == multiset(vs)[LowQuality]
    && r.skippedCanonical == multiset(vs)[Canonical] && r.offered == multiset(vs)[Offered]
  }

  lemma CountsNext(r: Report, r': Report, vs: seq<Verdict>, v: Verdict)
    requires Counts(r, vs)
    requires r'.offered == r.offered + (if v == Offered then 1 else 0) && r'.empty == r.empty + (if v == Empty then 1 else 0)
    requires r'.skippedNoise == r.skippedNoise + (if v == Noise then 1 else 0)
    requires r'.skippedQuality == r.skippedQuality + (if v == LowQuality then 1 else 0)
    requires r'.skippedCanonical == r.skippedCanonical + (if v == Canonical then 1 else 0)
    ensures Counts(r', vs + [v])
  {
  }

  /** What the fate of candidate i adds to what is offered. */
  lemma WantedNext(plan: seq<Candidate>, memories: Memories, fails: nat -> bool, i: nat)
    requires i < |plan|
    ensures Wanted(plan, memories, fails, i + 1) == Wanted(plan, memories, fails, i)
      + if FateOf(plan[i], memories, fails(i)) == Offered then [plan[i].proposal] else []
    ensures FatesOf(plan, memories, fails, i + 1) == FatesOf(plan, memories, fails, i) + [FateOf(plan[i], memories, fails(i))]
  {
  }

  function Skip(r: Report, v: Verdict): Report {
    match v
    case Empty => r.(empty := r.empty + 1)
    case Noise => r.(skippedNoise := r.skippedNoise + 1)
    case LowQuality => r.(skippedQuality := r.skippedQuality + 1)
    case Canonical => r.(skippedCanonical := r.skippedCanonical + 1)
    case Offered => r
  }

  lemma SkipKeeps(r: Report, v: Verdict, dryRun: bool, before: Table, after: Table, wanted: seq<Proposal>, now: string)
    requires Ran(r, dryRun, before, after, wanted, now) && v != Offered
    ensures Ran(Skip(r, v), dryRun, before, after, wanted, now) && Accounted(Skip(r, v)) == Accounted(r) + 1
  {
  }

  /** The gates, in order. */
  method Judge(store: Store, c: Candidate, lookupFails: bool) returns (v: Verdict)
    ensures v == FateOf(c, store.memories, lookupFails)
  {
    if c.insight == "" {
      return Empty;
    }
    if c.noise {
      return Noise;
    }
    if c.quality < 0.5 {
      return LowQuality;
    }
    var known := store.CanonicalContentExists(c.proposal.digest, lookupFails);
    v := if known.Some? then Canonical else Offered;
  }

  /** One turn of the loop over the plan. */
  method Consider(store: Store, plan: seq<Candidate>, i: nat, dryRun: bool, fails: nat -> bool, report: Report,
                  ghost s: State, ghost trace: seq<Label>, ghost t: State)
    returns (report': Report, ghost trace': seq<Label>, ghost t': State)
    requires i < |plan| && Leads(s, trace, t) && t == store.View()
    requires Ran(report, dryRun, s.table, store.table, Wanted(plan, store.memories, fails, i), Iso(store.clock))
    requires Counts(report, FatesOf(plan, store.memories, fails, i))
    modifies store`table, store`procs
    ensures Leads(s, trace', t') && t' == store.View()
    ensures Ran(report', dryRun, s.table, store.table, Wanted(plan, store.memories, fails, i + 1), Iso(store.clock))
    ensures Accounted(report') == Accounted(report) + 1 && Counts(report', FatesOf(plan, store.memories, fails, i + 1))
  {
    ghost var wanted, fates := Wanted(plan, store.memories, fails, i), FatesOf(plan, store.memories, fails, i);
    WantedNext(plan, store.memories, fails, i);
    var v := Judge(store, plan[i], fails(i));
    report', trace', t' := Handle(store, plan[i].proposal, v, dryRun, report, s, trace, t, wanted, fates);
  }

  /** A candidate of that fate is offered or skipped, and counted. */
  method Handle(store: Store, p: Proposal, v: Verdict, dryRun: bool, report: Report,
                ghost s: State, ghost trace: seq<Label>, ghost t: State, ghost wanted: seq<Proposal>, ghost fates: seq<Verdict>)
    returns (report': Report, ghost trace': seq<Label>, ghost t': State)
    requires Leads(s, trace, t) && t == store.View()
    requires Ran(report, dryRun, s.table, store.table, wanted, Iso(store.clock)) && Counts(report, fates)
    modifies store`table, store`procs
    ensures Leads(s, trace', t') && t' == store.View()
    ensures Ran(report', dryRun, s.table, store.table, wanted + (if v == Offered then [p] else []), Iso(store.clock))
    ensures Accounted(report') == Accounted(report) + 1 && Counts(report', fates + [v])
  {
    if v == Offered {
      report', trace', t' := Offer(store, p, dryRun, report, s, trace, t, wanted);
    } else {
      SkipKeeps(report, v, dryRun, s.table, store.table, wanted, Iso(store.clock));
      report', trace', t' := Skip(report, v), trace, t;
      assert wanted + [] == wanted;
    }
    CountsNext(report, report', fates, v);
  }

  method RunPlan(store: Store, plan: seq<Candidate>, dryRun: bool, fails: nat -> bool)
    returns (report: Report, ghost trace: seq<Label>)
    modifies store`table, store`procs
    ensures Leads(old(store.View()), trace, store.View())
    ensures Ran(report, dryRun, old(store.table), store.table, Wanted(plan, store.memories, fails, |plan|), Iso(store.clock))
    ensures Accounted(report) == |plan| && Counts(report, FatesOf(plan, store.memories, fails, |plan|))
  {
    report, trace := Report(0, 0, 0, 0, 0, 0, 0), [];
    ghost var s := store.View();
    ghost var t := s;
    for i := 0 to |plan|
      invariant t == store.View()
      invariant Leads(s, trace, t)
      invariant Ran(report, dryRun, s.table, store.table, Wanted(plan, store.memories, fails, i), Iso(store.clock))
      invariant Accounted(report) == i && Counts(report, FatesOf(plan, store.memories, fails, i))
    {
      report, trace, t := Consider(store, plan, i, dryRun, fails, report, s, trace, t);
    }
  }

  /** run_dream_cycle, with the rows it reads as sources, the clusters it finds in them as ps, and the
      candidates it makes of these as plan. */
  method RunDreamCycle(store: Store, st: Settings, read: Reader, key: RunKey, maxInsights: int, dryRun: bool, fails: nat -> bool)
    returns (report: Report, ghost trace: seq<Label>, ghost sources: seq<Source>, ghost plan: seq<Candidate>, ghost ps: seq<Pattern>)
    modifies store`table, store`procs
    ensures Leads(old(store.View()), trace, store.View())
    ensures sources == read(HumanRows(store.memories)) && plan == Plan(st, key, sources, maxInsights)
    ensures LargestFirst(ps) && forall p :: p in ps <==> Describes(Items(sources), st.minClusterSize, st.threshold, p)
    ensures IsCut(|plan|, |ps|, maxInsights) && OneRun(key, ps, maxInsights, plan)
    ensures PrintsStrings(st.host.show) ==> forall i :: 0 <= i < |plan| ==> IsAbout(st, sources, ps[i], plan[i])
    ensures Accounted(report) == |plan| && Counts(report, FatesOf(plan, store.memories, fails, |plan|))
    ensures Ran(report, dryRun, old(store.table), store.table, Wanted(plan, store.memories, fails, |plan|), Iso(store.clock))
    ensures report.queued <= if maxInsights < 0 then 0 else if maxInsights < 50 then maxInsights else 50
  {
    var rows := read(HumanRows(store.memories));
    sources := rows;
    var candidates;
    candidates, ps := MakePlan(st, key, rows, maxInsights);
    plan := candidates;
    report, trace := RunPlan(store, candidates, dryRun, fails);
  }
}
