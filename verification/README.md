# Super Memory, verified

A Dafny model of the parts of Super Memory whose correctness is hardest to see: the governance of
machine-generated proposals, spreading activation over the cognitive graph, clustering and duplicate
removal, the dream cycle, and five smaller mechanisms. `dafny verify dfyconfig.toml` checks
everything.

## What is modelled

**Proposal governance** (`Proposals`, `LeaseProtocol`, `LeaseSafety`, `LeaseTheorems`,
`LeaseEffects`, `LeaseHistory`, `LeaseNames`, `LeaseProgress`, `LeaseWitnesses`, `LeaseClock`,
`ProposalStore`).
`resolve_proposal` and `enqueue_proposal` are a concurrent protocol over one table. `LeaseProtocol`
has one step for every SQL statement, executor action and clock reading; between two steps of a call
any other call may run, die, or let its lease expire. `ProposalStore.Store` is the store as an object
whose methods are the SQL statements; each is proved to be exactly one step of the protocol, and
`ResolveProposal` and `EnqueueProposal` to be runs of it. Leases are the text that
`datetime.isoformat` prints, and guards compare text; `LeaseClock` proves that this is comparing
times. The executor is `_save_approved_dream`, with the save it calls and that save's check for
repetitions. `LeaseHistory` reads the columns of rows and memories back as statements about the run.

**Spreading activation** (`SpreadingActivation`, `ActivationTheorems`, `ActivationFactors`,
`Arrivals`, `GraphStore`, `SeedMatching`). The synapse and neuron tables, the choice of seeds, and the
frontier loop as written, over exact reals. The listing order of Python's sets is a parameter, so the
theorems hold for every order.

**Clusters and duplicates** (`Jaccard`, `Patterns`, `PatternTheorems`, `Duplicates`,
`DuplicateTheorems`, `DuplicateCriteria`). The stack loop of `detect_patterns`, its size filter and
final sort; greedy star clustering and the merge that follows it; the Jaccard distance that both
depend on.

**The dream cycle** (`DreamPlan`, `DreamCycle`, `CycleTheorems`, `Evidence`, `EvidenceCuts`,
`ProposalIdentity`, `ProposalContents`). `run_dream_cycle` on top of the store: the rows it reads, the patterns in them, `generate_insight`,
`build_proposal` with `_bounded` and `normalize_source_ids`, the gates and the queue. The main result is
idempotence: after a cycle and any run of the protocol, a second cycle on the same human-origin rows,
read in any order and under another run key, queues nothing.

**Smaller mechanisms** (`CanonicalId`, `Autocomplete`, `RateLimiter`, `DeriverQueue`). `Text`,
`Finite` and `Options` hold what they share: strings in code-point order, `sorted`, decimal numerals.

Constants, factors and comparisons of the source are written out once more in the specifications that
name them, apart from the functions that compute with them.

## What the code does not do

Where a docstring or a plausible reading promises more than the code keeps, the model follows the
code and says exactly when the promise holds.

- A rejected proposal can leave a canonical memory behind. Of the two restrictions one can put on runs,
  no takeover of a lease and no storing by an executor that then raises, both together exclude it and
  nothing less does (`CleanRejectionIff`).
- An approved proposal can name a memory that is not stored. The save may take the content for a
  repetition, also of a deleted memory or of a merely similar text; then it writes nothing and reports
  success, and the executor returns the id of the memory it would have written. `ApprovedNameIff`
  says exactly when the named id is stored and `ApprovedContentIff` when the content is, under any id;
  `ApprovedButNotStored` is a run in which neither ever is.
- The docstring of `spreading_activation` says each hop multiplies by 0.55. Hop h multiplies an already
  decayed value by 0.55^h, so a path of h hops has decayed by 0.55^(h(h+1)/2) (`CumulativeIsPower`),
  which is the promised 0.55^h for no path of more than one hop (`EachHopDecaysAlikeIff`), and nothing is activated beyond three hops.
- Its inner loop compares with the best value so far, but the first arrival also marks the neuron as
  reached, so over a whole hop the first qualifying arrival is kept, however many follow
  (`Arrivals.FirstDiscoveryWins`). It is the largest exactly if no later one is stronger
  (`KeepsLargestIff`), and which one comes first depends on the listing order of a set
  (`SetOrderDecides`).
- If one id occurs in two rows, duplicate removal can list a memory as its own duplicate
  (`SelfDuplicateIff`). A merge loses something exactly if some cluster does that
  (`MergeLosesNothing`), as it does for every replicated first row that has words
  (`ReplicasAreLost`).
- Content clean-up is idempotent exactly if the cut at 4000 characters does not fall right after a space
  (`CleanIdempotentIff`, `CleanNotIdempotent`), and source normalisation exactly if no truthy id prints
  as the empty string (`NormalizeIdempotentIff`, `NormalizeNotIdempotent`).
- `jaccard_similarity` of two empty sets is 1 in `compat.py` and 0 in `consolidation.py` and
  `dream_engine.py` (`VariantsAgreeIff`).
- `enqueue_proposal` reports `created` even when its INSERT was ignored, so of two racing callers both
  may hear it (`TwoCallersCreate`). What the caller was told is true exactly if nobody inserted the
  same id between its read and its INSERT (`CreatedIff`).

## Model

| member | source | states |
|---|---|---|
| `LeaseClock.IsoOrder` | super_memory/dream_governance.py:368-382 | for all instants up to the year 9999, `isoformat` texts compare as the instants do, although whole seconds print without a fraction |
| `LeaseClock.IsoTells` | super_memory/dream_governance.py:368-382 | the text of an instant names its date and time of day by the Gregorian calendar, so it reads back as the same microsecond |
| `LeaseSafety.TerminalStep` | super_memory/dream_governance.py:371-383 | no step of any call, however interleaved, changes a resolved row, removes a row or alters its proposal |
| `LeaseSafety.InvStep` | super_memory/dream_governance.py:306-447 | every step keeps the invariant: row shape, one holder per token, stale reads still name the right proposal, stored memories match their digests, answers already given stay true |
| `LeaseTheorems.InvAlways` | super_memory/dream_governance.py:306-447 | the invariant holds in every reachable state, with any number of calls, crashes and clock ticks |
| `LeaseTheorems.RowKept` | super_memory/dream_governance.py:248-271 | over any stretch of a run rows stay, keep their proposal, and once resolved never change in any field, also under re-enqueue |
| `LeaseTheorems.ResolvedOnce` | super_memory/dream_governance.py:341-429 | in every run at most one rejecting or finalising UPDATE succeeds for a proposal |
| `LeaseTheorems.CallersAgree` | super_memory/dream_governance.py:292-303 | any two finished calls that reported a resolution of one proposal reported the same one, and it is the one stored |
| `LeaseTheorems.ApplyingUnderLatestClaim` | super_memory/dream_governance.py:371-383 | a row is applying exactly if it has a token, and that token is the one of the latest successful claim or takeover |
| `LeaseTheorems.TokenGone` | super_memory/dream_governance.py:402-429 | a token that has left a row never returns to it |
| `LeaseTheorems.OvertakenIsPowerless` | super_memory/dream_governance.py:402-429 | after a takeover the overtaken holder can neither release nor finalise |
| `LeaseTheorems.AttemptsLedger` | super_memory/dream_governance.py:371-429 | attempts = claims + takeovers = releases + takeovers + finalisations + 1 if applying, over every run |
| `LeaseTheorems.CreatedIff` | super_memory/dream_governance.py:248-271 | a caller that read no row and inserts is told `created`; its row is the one stored exactly if nobody inserted that id between the two steps |
| `LeaseTheorems.InsertedOnce` | super_memory/dream_governance.py:258-269 | in every run at most one INSERT on an id stores a row |
| `LeaseEffects.CreatedOnce` | super_memory/dream_engine.py:382-414 | over a whole run at most one dream memory is created per content digest, across retries, concurrent executors and different proposals |
| `LeaseEffects.ApprovedNamesContent` | super_memory/dream_governance.py:419-429 | an approved row names a memory of its digest, or the dream id of its digest, and in every later state some memory with the same normalised content is stored |
| `LeaseNames.ApprovedNameIff` | super_memory/dream_engine.py:382-414 | the id an approved row names is stored exactly unless its save was skipped as a repetition while the id was not stored, and no other save created it since |
| `LeaseNames.ApprovedContentIff` | super_memory/service.py:272-307 | the content of an approved row is stored under some id exactly unless its save was skipped, no memory had the digest then, and nothing saved it since |
| `LeaseEffects.DreamMemoryHasClaim` | super_memory/dream_engine.py:382-414 | every dream memory was written by a call that had claimed a proposal with that digest before |
| `LeaseEffects.ClaimIsUnique` | super_memory/dream_governance.py:367-383 | no two claims of a run share a token |
| `LeaseEffects.ClaimFate` | super_memory/dream_governance.py:371-429 | what can have become of a claim: still applying, approved, taken over, or released by its own call |
| `LeaseEffects.RejectedEffect` | super_memory/dream_governance.py:315-323 | if a proposal is rejected although an executor stored its memory, that executor raised or was overtaken |
| `LeaseEffects.CleanRejection` | super_memory/dream_governance.py:315-323 | without takeover, and if raising executors store nothing, a rejected proposal has no canonical effect |
| `LeaseWitnesses.CleanRejectionIff` | super_memory/dream_governance.py:315-323 | for every choice of the two restrictions: all runs that obey it reject cleanly exactly if both are chosen |
| `LeaseWitnesses.TakeOverDirtiesRejection` | super_memory/dream_governance.py:371-383 | a complete run with a takeover that ends rejected with a stored memory, although every raise was clean |
| `LeaseWitnesses.RaiseAfterStoringDirtiesRejection` | super_memory/dream_governance.py:400-411 | a complete run without takeover that ends rejected with a stored memory |
| `LeaseWitnesses.ApprovedButNotStored` | super_memory/service.py:445-484 | a complete run that ends approved, with neither the named id nor the digest stored |
| `LeaseWitnesses.TwoCallersCreate` | super_memory/dream_governance.py:258-271 | a run in which two racing callers both hear `created` for one inserted row |
| `LeaseProgress.CourseStep` | super_memory/dream_governance.py:367-447 | whatever the world chooses, each step of an undisturbed approval keeps it on course and brings it closer |
| `LeaseProgress.CourseContinues` | super_memory/dream_governance.py:367-447 | until it is done such an approval can always take a step that does not raise |
| `LeaseProgress.UndisturbedApproval` | super_memory/dream_governance.py:367-447 | it takes at most eight steps, and when it has returned the row is approved |
| `LeaseProgress.NeverStuck` | super_memory/dream_governance.py:371-383 | from every reachable state with an open proposal there is an instant, the stored lease, from which on any new approval is on course |
| `LeaseProgress.OpenCanBeApproved` | super_memory/dream_governance.py:371-383 | every run with an open proposal extends by one tick, one new call and at most eight of its steps to a run in which it is approved |
| `LeaseProgress.LeaseExcludes` | super_memory/dream_governance.py:371-383 | before the lease ends only the holder of the token can change the row |
| `LeaseHistory.RowTellsItsInsert` | super_memory/dream_governance.py:258-269 | in every run a row holds the proposal of the call that inserted it and the clock reading of that INSERT |
| `LeaseHistory.FreshOrUpdated` | super_memory/dream_governance.py:248-271 | it is as inserted, or some UPDATE is the latest that matched it |
| `LeaseHistory.RowTellsItsUpdate` | super_memory/dream_governance.py:341-429 | then the row is, column by column, what that UPDATE wrote, with the instant at which that call read the clock |
| `LeaseHistory.LeaseLength` | super_memory/dream_governance.py:367-383 | while a row carries the token of a claim its lease ends exactly as many seconds after the claimer read the clock as it asked for, none if negative |
| `LeaseHistory.LeaseProtects` | super_memory/dream_governance.py:367-383 | before that instant the row still carries the claim, or is approved, or the same call released it: nobody can take it over, however calls interleave |
| `LeaseHistory.DreamMemoryTellsItsProposal` | super_memory/dream_engine.py:388-414 | in every reachable state a dream memory has the content of a stored proposal of its digest, names that proposal, and is marked deleted exactly if it was deleted after the save that wrote it |
| `ProposalStore.Store.RejectPending` | super_memory/dream_governance.py:342-349 | the rejecting UPDATE succeeds exactly on pending rows, is exactly one protocol step, and changes that row alone, to the row written out |
| `ProposalStore.Store.Claim` | super_memory/dream_governance.py:367-384 | the claiming UPDATE succeeds exactly on pending rows and expired leases, is exactly one protocol step, and stores a lease that ends the given number of seconds later |
| `ProposalStore.Store.Release` | super_memory/dream_governance.py:400-411 | the releasing UPDATE succeeds exactly for the holder and is exactly one protocol step |
| `ProposalStore.Store.Finalise` | super_memory/dream_governance.py:419-430 | the finalising UPDATE succeeds exactly for the holder and is exactly one protocol step |
| `ProposalStore.Store.CanonicalContentExists` | super_memory/dream_governance.py:229-245 | a working lookup finds an active memory of the digest exactly if there is one; a failing one finds nothing |
| `ProposalStore.Store.CheckRepetition` | super_memory/service.py:445-484 | the check for repetitions skips exactly if a fingerprint of the normalised content is registered, unless that lookup failed, or an active mirrored memory has the digest |
| `ProposalStore.Store.SaveMemory` | super_memory/service.py:272-307 | a repetition writes nothing and reports success; anything else is stored with the content of the proposal and its origin, other memories untouched, unless something raised first |
| `ProposalStore.Store.SaveApprovedDream` | super_memory/dream_engine.py:382-414 | the executor returns an active memory of the content if its lookup finds one, and otherwise what the save comes to, with the exact memories left behind |
| `ProposalStore.Store.ReadAgain` | super_memory/dream_governance.py:384-394 | the read after an UPDATE that matched nothing: the stored resolution is replayed, or the status in flight with its lease |
| `ProposalStore.Store.Apply` | super_memory/dream_governance.py:396-447 | after a won claim: approved with what the executor answered, otherwise pending again with its error; the trace is a run of the protocol |
| `ProposalStore.Store.ResolveProposal` | super_memory/dream_governance.py:306-447 | a whole undisturbed call is a run of the protocol; answer, every column of the row, all other rows and all memories are given for each case |
| `ProposalStore.Store.EnqueueProposal` | super_memory/dream_governance.py:248-271 | a whole undisturbed enqueue is a run of the protocol, inserts at most its own row and answers exactly |
| `ProposalStore.LeadsKeepsInv` | super_memory/dream_governance.py:306-447 | so any sequence of whole calls on the store keeps the protocol's invariant |
| `GraphStore.Synapses.Upsert` | super_memory/graph.py:158-174 | keeps every weight and confidence within [0, 1], whatever is passed |
| `GraphStore.TableTellsItsWrites` | super_memory/graph.py:158-174 | over any sequence of upserts a synapse is stored exactly if written, with the largest weight and the largest confidence ever written for it, each moved to the nearest number in [0, 1] |
| `GraphStore.UpsertsCommute` | super_memory/graph.py:158-174 | as to the strengths, two upserts may come in either order, and repeating one changes nothing |
| `GraphStore.LoadedIsUnit` | super_memory/graph.py:448-475 | an index loaded from an upserted table meets what the activation bounds need |
| `GraphStore.Neurons.Upsert` | super_memory/graph.py:140-155 | keeps every confidence within [0, 1], never lowers one, and touches no other neuron |
| `GraphStore.SeedsInUnit` | super_memory/graph.py:518-536 | every seed activation of every query lies in [0, 1] |
| `SeedMatching.ScoreExact` | super_memory/graph.py:414-433 | the score in numbers: 0.65 and 0.35 for the part of the text that the query is, or 0.45 for the part of its tokens found |
| `SeedMatching.ScoreRanks` | super_memory/graph.py:414-433 | neurons whose text contains the query precede all others, the shorter the text the better; the others rank by the tokens they share |
| `SeedMatching.SeedMatches` | super_memory/graph.py:478-486 | all scoring rows in the order of the stable sort, cut as the slice cuts |
| `SeedMatching.Seed` | super_memory/graph.py:518-536 | the seeds are the best matching neurons with their scores boosted by confidence and age as written out, and none passed over matches better |
| `GraphStore.QueryIsBounded` | super_memory/graph.py:489-578 | end to end, for every query on stored tables: at most 3 hops, activation at most the decay of the hop number, depth saturates at 3 |
| `SpreadingActivation.LoadGraphIndex` | super_memory/graph.py:460-475 | the index lists, per neuron and in row order, exactly the synapses leaving and entering it |
| `SpreadingActivation.TryEdges` | super_memory/graph.py:549-572 | the inner loops refine the one-edge rule that the theorems are about |
| `SpreadingActivation.SpreadActivation` | super_memory/graph.py:538-578 | the frontier loop refines the recursive definition for every depth and set order |
| `ActivationTheorems.ActivationIsWalkValue` | super_memory/graph.py:538-575 | every activated neuron has a real walk from a seed, its path, and its activation is exactly the value of that walk |
| `ActivationFactors.ActivationIsProduct` | super_memory/graph.py:543-571 | every activation is the score of a seed times, for the i-th stored synapse of its path, 0.55^i, weight, confidence, and 0.75 against its direction; at least 0.01 beyond the seeds, and at least 0.02 before the last hop |
| `ActivationFactors.StrongNeighbours` | super_memory/graph.py:544-572 | conversely a neuron of at least 0.02 before the last hop activates every neighbour to which it passes on at least 0.01, in these numbers |
| `ActivationTheorems.ActivationIsClosed` | super_memory/graph.py:544-572 | every neighbour that an expanded neuron reaches at or above the threshold is activated |
| `ActivationTheorems.TriangleClosedForm` | super_memory/graph.py:543 | the exponent after k hops is k(k+1)/2 |
| `ActivationTheorems.CumulativeIsPower` | super_memory/graph.py:543-554 | the decay accumulated over k hops is 0.55 to that exponent, not 0.55^k |
| `ActivationTheorems.EachHopDecaysAlikeIff` | super_memory/graph.py:502 | the decay over k hops is the 0.55^k of the docstring exactly for k up to 1 |
| `ActivationTheorems.WalkBound` | super_memory/graph.py:543-566 | no walk of k hops is worth more than that, for strengths and seeds in [0, 1] |
| `ActivationTheorems.ActivationBound` | super_memory/graph.py:521-578 | an activated neuron is at most 3 hops from a seed and its activation at most the decay of its hop number |
| `ActivationTheorems.DepthSaturates` | super_memory/graph.py:540-578 | every depth from 3 on gives the same activations and paths as depth 3 |
| `Arrivals.FirstAtIsFirst` | super_memory/graph.py:549-559 | the arrival singled out is a qualifying one with no qualifying one before it, or there is none |
| `Arrivals.FieldAtInv` | super_memory/graph.py:538-578 | after every hop of every activation each activated neuron has a seed walk, what an expanded neuron pushes is activated, and the field is one that `FirstDiscoveryWins` applies to |
| `Arrivals.FirstDiscoveryWins` | super_memory/graph.py:544-575 | over a whole hop, with any number of arrivals: known neurons are left alone, a new one gets value and path of the first qualifying arrival, or nothing |
| `Arrivals.SpreadIsFieldAt` | super_memory/graph.py:538-578 | every activation ends with the field after one of these hops |
| `Arrivals.KeepsLargestIff` | super_memory/graph.py:552-559 | the value kept is the largest of all qualifying arrivals of the hop exactly if no later one exceeds the first |
| `Arrivals.SetOrderDecides` | super_memory/graph.py:539-557 | a graph on which the activation of one neuron depends on the order in which the set of seeds is listed |
| `ActivationTheorems.OverlapScoreRange` | super_memory/graph.py:414-433 | scores lie in [0, 1], at least 0.65 for a contained query and at most 0.45 otherwise |
| `ActivationTheorems.SeedScoreRange` | super_memory/graph.py:529-535 | the confidence and recency boosts never raise a seed above its text score |
| `Jaccard.ComputeSimilarity` | super_memory/compat.py:664-675 | iterating over the smaller set and subtracting gives intersection over union |
| `Jaccard.Triangle` | super_memory/compat.py:651-675 | the Jaccard distance obeys the triangle inequality |
| `Jaccard.Range` | super_memory/compat.py:655-675 | similarity is symmetric, in [0, 1], and 1 exactly for equal sets |
| `Jaccard.VariantsAgreeIff` | super_memory/consolidation.py:23-33 | the variants in the repository agree except on two empty sets |
| `Jaccard.StrictTriangle` | super_memory/consolidation.py:23-33 | triangle inequality, symmetry and range also for the variant that duplicate detection uses |
| `Jaccard.SimilarEnoughIff` | super_memory/dream_engine.py:50-55 | for a positive threshold two contents are similar exactly if both have words and share at least that part of them |
| `Patterns.BuildGraph` | super_memory/dream_engine.py:148-157 | two ids are adjacent exactly if some pair of their rows is similar enough |
| `Patterns.GraphIsUndirected` | super_memory/dream_engine.py:148-157 | that graph is undirected |
| `Patterns.Explore` | super_memory/dream_engine.py:163-167 | the stack loop terminates with exactly the root's component, each id once |
| `Patterns.ConnectedComponents` | super_memory/dream_engine.py:160-168 | the groups before the size filter are exactly the connected components, disjoint, sorted, and cover all ids |
| `PatternTheorems.TogetherIffChained` | super_memory/dream_engine.py:146-147 | two ids share a group exactly if a chain of edges links them |
| `PatternTheorems.ConnectedIffChained` | super_memory/dream_engine.py:148-156 | and a chain of edges is a chain of rows of which each has a row alike to one of the next |
| `PatternTheorems.DetectPatterns` | super_memory/dream_engine.py:122-186 | the result lists, larger ones first and equal ones by their ids, exactly the clusters of ids joined by chains of rows that share the asked part of their words, if they have enough members |
| `PatternTheorems.PatternsAreClusters` | super_memory/dream_engine.py:130-172 | a pattern is found exactly if it describes such a cluster: the threshold cut down to [0, 1], the size to 2 to 50, the first 64 ids |
| `PatternTheorems.InOrderIsUnique` | super_memory/dream_engine.py:185 | the sort key orders clusters strictly, so the listing is unique |
| `PatternTheorems.RowOrderIrrelevant` | super_memory/dream_engine.py:146-147 | the same rows in any order and with any repetition have the same list of patterns |
| `Duplicates.DetectDuplicates` | super_memory/consolidation.py:36-61 | the nested loops refine the recursive definition that the theorems are about |
| `Duplicates.MemoryStore.MergeDuplicates` | super_memory/consolidation.py:129-170 | a dry run changes nothing; a real one is the merge of all clusters in order, which cites nothing at a canonical that is soft-deleted |
| `DuplicateTheorems.ScanExact` | super_memory/consolidation.py:44-51 | a star lists, once each, exactly the unseen ids that a later row near its centre bears |
| `DuplicateTheorems.SelfDuplicateIff` | super_memory/consolidation.py:44-51 | a canonical is its own duplicate exactly if a later replica of it is near it |
| `DuplicateTheorems.StarsAreNear` | super_memory/consolidation.py:41-59 | every duplicate comes after its own canonical and is near it |
| `DuplicateTheorems.MembersUnrepeated` | super_memory/consolidation.py:36-61 | for distinct ids no id occurs twice among all canonicals and duplicates |
| `DuplicateTheorems.CanonicalIsNoDuplicate` | super_memory/consolidation.py:36-61 | then no canonical is a duplicate of any cluster |
| `DuplicateTheorems.UnmarkedAreApart` | super_memory/consolidation.py:36-61 | any two rows that are not duplicates are below the threshold |
| `DuplicateTheorems.SurvivorsAreRows` | super_memory/consolidation.py:36-61 | survivors are exactly the rows that are not duplicates, so survivors and duplicates account for every input |
| `DuplicateCriteria.DroppedIff` | super_memory/consolidation.py:36-61 | for distinct ids a memory is dropped exactly if an earlier one that is kept shares at least the threshold of their words |
| `DuplicateCriteria.ListedIff` | super_memory/consolidation.py:36-61 | and is listed under the first such memory and no other |
| `DuplicateTheorems.RerunIsQuiet` | super_memory/consolidation.py:36-61 | survivors are pairwise below the threshold, and a second run on them finds nothing |
| `DuplicateTheorems.StarDiameter` | super_memory/consolidation.py:44-51 | two rows within threshold t of a third have similarity at least 2t - 1 |
| `DuplicateTheorems.ClusterDiameter` | super_memory/consolidation.py:36-61 | any two members of one cluster, canonical or not, have similarity at least 2t - 1: 0.70 at the default 0.85 |
| `DuplicateTheorems.MergeExact` | super_memory/consolidation.py:145-162 | merging deletes exactly the duplicates and appends them, in full and in order, at their canonicals, as long as those are active |
| `DuplicateTheorems.ClustersAreApart` | super_memory/consolidation.py:36-61 | clusters share no member, even if ids repeat |
| `DuplicateTheorems.MergeLosesNothing` | super_memory/consolidation.py:129-170 | for all active rows, repeated ids or not: every input stays active or is cited by a memory that does, exactly if no cluster lists its canonical among its duplicates |
| `DuplicateTheorems.DistinctMeansNoSelfDuplicate` | super_memory/consolidation.py:36-61 | for distinct ids no cluster does |
| `DuplicateTheorems.ReplicasAreLost` | super_memory/consolidation.py:129-170 | whenever the first row has words and occurs again, its id is lost by the merge |
| `DreamPlan.BestIsMaximal` | super_memory/dream_engine.py:191-194 | the representative sample is a longest one, and of those the last in order |
| `DreamPlan.MakePlan` | super_memory/dream_engine.py:243-287 | the candidates are about the first clusters, as many as asked for but at most 50, one each and in order: the insight quotes the longest excerpt of the first three members, the proposal names the members, and all bear one run key |
| `DreamPlan.HumanRowsIff` | super_memory/dream_engine.py:33-39 | a cycle reads exactly the active rows that no generator wrote, whatever case the source is written in |
| `DreamPlan.SameSubject` | super_memory/dream_governance.py:78-100 | id and digest of a proposal ignore evidence, run key, and order or repetition of its sources |
| `DreamPlan.SameRowsCover` | super_memory/dream_engine.py:243-287 | on the same rows, read in any order, under any two run keys, a plan with the same or a smaller limit proposes no new id or content |
| `DreamCycle.Judge` | super_memory/dream_engine.py:271-290 | the gates in order: empty, noise, low quality, known content, and otherwise offered to the queue |
| `DreamCycle.RunDreamCycle` | super_memory/dream_engine.py:227-325 | from the rows read to the queue, the cycle is a run of the protocol, never writes a memory, counts every candidate under its fate, and reports as queued exactly the growth of the table, which is at most the limit asked for |
| `CycleTheorems.QuietIff` | super_memory/dream_engine.py:271-294 | with working lookups a cycle changes nothing exactly if every candidate has a row or a canonical memory |
| `CycleTheorems.CycleSettles` | super_memory/dream_engine.py:287-294 | a real cycle leaves no candidate without row or canonical memory, even if lookups fail |
| `CycleTheorems.HumanRowsStep` | super_memory/dream_engine.py:33-39 | no step of any approval, rejection or enqueue changes the human-origin rows the next cycle reads |
| `CycleTheorems.SettledStep` | super_memory/dream_governance.py:229-271 | nor does it unsettle a candidate, unless it deletes a memory with its content while it has no row |
| `CycleTheorems.SecondCycleIsQuiet` | super_memory/dream_engine.py:227-325 | after a cycle and any run of the protocol, a second cycle on the same human-origin rows, read in any order, with the same or a smaller limit and another run key, leaves the proposal table as it is |
| `CycleTheorems.SettledIsNeverInserted` | super_memory/dream_engine.py:288-291 | also with every step of the second cycle interleaved with other calls |
| `CycleTheorems.InterleavedCycleIsQuiet` | super_memory/dream_engine.py:227-325 | in every run, with any other calls between its steps, no call that the second cycle makes changes the table, for every plan, offer and lookup result on the same human-origin rows |
| `CycleTheorems.KnownIsNeverInserted` | super_memory/dream_governance.py:248-252 | a proposal with a row is never inserted again, whatever is deleted: deleting an approved insight does not bring it back |
| `Evidence.BoundedIsNormal` | super_memory/dream_governance.py:40-55 | whatever comes in, the result is in the normal form: limits met at every level, keys strictly ascending |
| `Evidence.FixedIffNormal` | super_memory/dream_governance.py:40-55 | the values left alone are exactly the normal ones |
| `Evidence.BoundedIdempotent` | super_memory/dream_governance.py:40-55 | bounding twice is bounding once, at every depth |
| `Evidence.BoundedSize` | super_memory/dream_governance.py:40-55 | the result nests at most 4 deep and has at most 64^4 leaves |
| `EvidenceCuts.BoundedIsCut` | super_memory/dream_governance.py:40-55 | what is left of any value: the first 64 items of a list, the 64 entries of a dict that come first by printed key, of entries whose cut keys coincide the last, and the start of each text |
| `ProposalIdentity.SourceOrderIrrelevant` | super_memory/dream_governance.py:58-59 | reordering or repeating sources, or adding falsy ones, does not change the list |
| `ProposalIdentity.NormalizedShape` | super_memory/dream_governance.py:58-59 | the list is strictly ascending, with at most 64 ids of at most 200 characters |
| `ProposalIdentity.NormalizeIdempotentIff` | super_memory/dream_governance.py:58-59 | normalising again changes nothing exactly if no truthy id passed in prints as the empty string |
| `ProposalIdentity.NormalizeNotIdempotent` | super_memory/dream_governance.py:58-59 | a truthy object that prints as the empty string is such a case |
| `ProposalIdentity.StringIdsAreFixed` | super_memory/dream_governance.py:58-59 | for string ids it is always idempotent |
| `ProposalIdentity.CleanIdempotentIff` | super_memory/dream_governance.py:78 | cleaning again changes nothing exactly if the joined words fit or their 4000th character is not white space |
| `ProposalIdentity.CleanNotIdempotent` | super_memory/dream_governance.py:78 | 3999 letters, a space and a letter are such content |
| `ProposalIdentity.SameIdIff` | super_memory/dream_governance.py:78-90 | unless the two digests at hand collide, two proposals have one id exactly if kind, cleaned content, source list and bounded action agree |
| `ProposalContents.ContentTells` | super_memory/dream_governance.py:78-82 | the content is the words passed in, all and in order, joined by single spaces and cut at 4000 characters, and the digest is its own |
| `ProposalContents.ProposalTells` | super_memory/dream_governance.py:79-100 | every other column of a built proposal in terms of what went in; the id is a digest of the stored kind, content digest, sources and action |
| `ProposalIdentity.RediscoveredIsDeduplicated` | super_memory/dream_governance.py:248-271 | a cluster rediscovered in another order, with other evidence and run key, adds no second row |
| `CanonicalId.ParsePrint` | super_memory/canonical_contract.py:25-32 | a parser of the length prefix recovers layer and id, for all strings including ones full of digits and colons |
| `CanonicalId.PrintParse` | super_memory/canonical_contract.py:25-32 | only printed ids parse |
| `CanonicalId.ParseIff` | super_memory/canonical_contract.py:25-32 | the strings accepted are exactly those of the documented format with a layer and an id that are not empty |
| `CanonicalId.PrintTells` | super_memory/canonical_contract.py:25-32 | only an empty id prints nothing, and an empty layer prints as the default one |
| `CanonicalId.PrintInjective` | super_memory/canonical_contract.py:25-32 | two rows print alike exactly if they are the same row |
| `CanonicalId.ProjectionSlotIff` | super_memory/canonical_contract.py:75-96 | unless the two digests at hand collide, projection ids agree exactly if row, adapter, version and type do: the content never shows |
| `CanonicalId.RevisionTracksContent` | super_memory/canonical_contract.py:56-72 | while, unless the two contents collide, the revision of a row changes exactly when its content does |
| `CanonicalId.RevisionTells` | super_memory/canonical_contract.py:58-96 | what a revision and a projection id are made of |
| `Autocomplete.AutocompleteIndex.IndexRow` | super_memory/autocomplete.py:60-87 | one row raises by one exactly the entries it contributes to |
| `Autocomplete.AutocompleteIndex.Rebuild` | super_memory/autocomplete.py:46-88 | over the first so many rows, at least one, an entry exists exactly if some row contributes to it, its frequency is their number, its text that of the first, and the reported count is the sum of all frequencies |
| `Autocomplete.TotalAfter` | super_memory/autocomplete.py:76-87 | the sum of frequencies changes by exactly what one write changes |
| `Autocomplete.FrequenciesIgnoreOrder` | super_memory/autocomplete.py:51-55 | keys and frequencies do not depend on the order of the rows |
| `Autocomplete.LongerIsRarer` | super_memory/autocomplete.py:67-68 | a longer prefix is never more frequent than a shorter one of it |
| `RateLimiter.Limiter.RateLimitIp` | super_memory/api.py:31-47 | the method answers and updates as the specification that the theorems are about |
| `RateLimiter.BucketIsRecent` | super_memory/api.py:41-46 | pruning never forgets an admission that a later call still has to count |
| `RateLimiter.WindowBound` | super_memory/api.py:24-25 | in every clock-ordered run an address has at most 200 admissions in every window (x, x+60] |
| `RateLimiter.AnswerIsExact` | super_memory/api.py:42-47 | a call is refused exactly if its address has 200 admissions in the last 60 seconds |
| `RateLimiter.RemainingIsExact` | super_memory/api.py:42-47 | an admitted call is told exactly how many are left |
| `RateLimiter.EveryAnswer` | super_memory/api.py:31-47 | every answer in terms of the earlier ones: the three local names are always allowed, any other address is refused exactly after 200 admissions in the last 60 seconds, and is otherwise told what is left |
| `RateLimiter.Independent` | super_memory/api.py:38-46 | what happens to an address depends on its own calls alone |
| `DeriverQueue.FifoStep` | super_memory/deriver.py:278-341 | every step takes from the front of the queue only and appends at its end only |
| `DeriverQueue.InvAlways` | super_memory/deriver.py:254-341 | in every interleaving each item taken is in exactly one pair of hands or finished, and started items are exactly the running and the finished |
| `DeriverQueue.OrderOfLeaving` | super_memory/deriver.py:254-341 | items leave the queue in the order in which they entered it |
| `DeriverQueue.Conservation` | super_memory/deriver.py:254-341 | enqueued = queued + in flight + finished, and no item starts its pipeline more than once |
| `DeriverQueue.SharedQueue.EnrichAsync` | super_memory/deriver.py:278-290 | the locked append is exactly one step of the interleaving model, followed by the start of a worker unless one is alive |
| `DeriverQueue.SharedQueue.TakeBatch` | super_memory/deriver.py:331-333 | the locked part of the worker is exactly one step of the interleaving model: the batch is the front of the queue, five items or all of them |
| `DeriverQueue.SharedQueue.RunWorker` | super_memory/deriver.py:321-341 | an undisturbed worker is a run of that model in which the whole queue is finished in order, whatever raises, and the worker exits |
| `DeriverQueue.SharedQueue.FlushQueue` | super_memory/deriver.py:294-312 | an undisturbed flush is a run of that model: it takes a prefix and finishes each item before the next, counts the pipelines that did not raise, and stops exactly when the queue is empty or the limit is reached |
| `DeriverQueue.SharedQueue.NothingLost` | super_memory/deriver.py:254-341 | so after any calls on the queue: enqueued = queued + in flight + finished |

## Left out

- SQLite, FTS5, files, threads, FastAPI, the command line, MCP and the JavaScript plugin: a table is a map, a statement an atomic step.
- The executor of `self_improve`, and edits of the content of existing memories by other components: other components only add and soft-delete memories in the model.
- `invalid_decision`, `approval_executor_required` and `wrong_proposal_kind`: refusals before anything is read.
- `_time_decay`: only its range of 0.05 to 1 for timestamps that are not in the future is used.
- SHA-256: a parameter. Statements about ids assume that the two digests at hand do not collide, also as truncated; the protocol takes equal digests for equal content.
- `SuperMemoryService.save` beyond its check for repetitions and what it stores: whatever its guards refuse or its layers fail at is a raising save in the model, and write intents are not tracked. That the copy in a layer or the fingerprint of a saved memory may be missing is modelled.
- GraphStore.UpsertsCommute: is about the strengths; `metadata_json` and `updated_at` are overwritten by the last writer and are not modelled.
- `secrets.token_hex`: tokens are assumed fresh.
- Runs of the protocol start from an empty proposal table and no dream memories; other memories may exist.
- Instants beyond the year 9999, where Python raises an OverflowError.
- The truncation of executor errors at 2000 characters.
- Word splitting, the CJK part of `tokenize`, quality scoring and noise keywords: parameters, or token sets given with the rows.
- The `agent_ids` and average fields of a pattern, and `rank_by_surprisal`: reporting only. The number of sessions of a cluster is a parameter, some function of the rows read and the pattern; so are the window, order and limit of the query.
- The final sort, rounding and truncation of activation results: presentation.
- Floating-point rounding: reals are exact, and the quality in the evidence is not rounded to four places.
- CycleTheorems.SecondCycleIsQuiet: assumes that between the cycles no human row is added or deleted and no active memory is deleted that holds the content of a candidate without a row, because that reopens the candidate; `QuietIff` is exact at every moment.
- CycleTheorems.InterleavedCycleIsQuiet: under the same assumption, human rows being unchanged up to the moment the second cycle reads them, and with working lookups in that cycle.
- DuplicateCriteria.DroppedIff: for distinct ids only; with replicas of one id `StarsAreNear` and `MergeLosesNothing` say what holds.
- DuplicateTheorems.MembersUnrepeated: for distinct ids only; with replicas of one id it fails, see `SelfDuplicateIff`.
- RateLimiter.WindowBound: for clock-ordered runs, because the code reads the clock before it takes the lock.
- DeriverQueue.Conservation: says nothing about eventual processing, because a worker can exit between an append and the check that it is alive.
- `is_generated_record`: it differs from the SQL filter, which is the one modelled.
- The conversation miner, graph rebuilds and the execution lifecycle.
