/**
 Runs that show what the protocol does not promise. A rejected proposal can leave a canonical
 memory behind when a claim is overtaken, or when an executor raises after it stored; and two
 callers can both be told that they created one proposal. Every lease here is zero seconds long,
 so a claim can be overtaken at once.
 */
module LeaseWitnesses {
  import opened Options
  import opened LeaseClock
  import opened Proposals
  import opened LeaseProtocol
  import opened LeaseEffects

  const P := Proposal("p", "dream_insight", "run", "text", Digest(7, 7), [], "", "")
  const DREAM := DreamId(P.digest)
  const FULL := Marks(true, true)

  ghost predicate EndsIn(labels: seq<Label>, states: seq<State>, s: State) {
    Run(labels, states) && states[|labels|] == s
  }

  ghost predicate Goes(s: State, l: Label, s': State) {
    Enabled(s, l) && s' == Effect(s, l)
  }

  lemma Extend(labels: seq<Label>, states: seq<State>, s: State, l: Label, s': State)
    returns (labels': seq<Label>, states': seq<State>)
    requires EndsIn(labels, states, s) && Goes(s, l, s')
    ensures EndsIn(labels', states', s') && labels' == labels + [l]
  {
    ExtendRun(labels, states, l);
    labels', states' := labels + [l], states + [s'];
  }

  const EMPTY := State(0, map[], map[], {}, map[])

  function Origin(memories: Memories): State {
    EMPTY.(memories := memories)
  }

  function Moved(s: State, pid: ProcId, call: Call, pc: Pc): State {
    s.(procs := s.procs[pid := Proc(call, pc)])
  }

  // ----- single steps -----

  lemma SpawnStep(s: State, pid: ProcId, call: Call)
    requires pid !in s.procs
    ensures Goes(s, Spawn(pid, call), Moved(s, pid, call, Start))
  {
  }

  lemma ReadStep(s: State, pid: ProcId, call: Call)
    ensures Goes(Moved(s, pid, call, Start), Read(pid), Moved(s, pid, call, AfterRead(s.table, call)))
  {
    SamePid(s, pid, call, Start, AfterRead(s.table, call));
  }

  lemma StampStep(s: State, pid: ProcId, call: Call, r: Row)
    ensures Goes(Moved(s, pid, call, Seen(r)), Stamp(pid), Moved(s, pid, call, Stamped(r, s.clock)))
  {
    SamePid(s, pid, call, Seen(r), Stamped(r, s.clock));
  }

  lemma InsertStep(s: State, pid: ProcId, p: Proposal)
    ensures Goes(Moved(s, pid, Enqueue(p, false), Inserting), Insert(pid),
      Moved(s.(table := InsertOrIgnore(s.table, p, Iso(s.clock))), pid, Enqueue(p, false), Done(Created)))
  {
    SamePid(s, pid, Enqueue(p, false), Inserting, Done(Created));
  }

  lemma RejectStep(s: State, pid: ProcId, r: Row)
    requires "p" in s.table && s.table["p"].status.Pending?
    ensures Goes(Moved(s, pid, Reject("p", ""), Stamped(r, 0)), RejectPending(pid, "p"),
      Moved(s.(table := s.table["p" := RejectedRow(s.table["p"], Iso(0), "")]), pid, Reject("p", ""), Done(RejectedNow)))
  {
    SamePid(s, pid, Reject("p", ""), Stamped(r, 0), Done(RejectedNow));
  }

  lemma LoadStep(s: State, pid: ProcId, before: Row)
    requires "p" in s.table
    ensures Goes(Moved(s, pid, Zero(), Claimed(0, pid, before)), Load(pid), Moved(s, pid, Zero(), Owned(0, pid, s.table["p"])))
  {
    SamePid(s, pid, Zero(), Claimed(0, pid, before), Owned(0, pid, s.table["p"]));
  }

  lemma MissStep(s: State, pid: ProcId, r: Row)
    ensures Goes(Moved(s, pid, Zero(), Owned(0, pid, r)), Miss(pid), Moved(s, pid, Zero(), Checked(0, pid, r)))
  {
    SamePid(s, pid, Zero(), Owned(0, pid, r), Checked(0, pid, r));
  }

  lemma ClearStep(s: State, pid: ProcId, r: Row)
    requires !SkipsSave(s.memories, r.proposal, false)
    ensures Goes(Moved(s, pid, Zero(), Checked(0, pid, r)), Clear(pid, false), Moved(s, pid, Zero(), Cleared(0, pid, r)))
  {
    SamePid(s, pid, Zero(), Checked(0, pid, r), Cleared(0, pid, r));
  }

  lemma SkipStep(s: State, pid: ProcId, r: Row)
    requires r.proposal == P && SkipsSave(s.memories, P, false)
    ensures Goes(Moved(s, pid, Zero(), Checked(0, pid, r)), SaveSkips(pid, "p"), Moved(s, pid, Zero(), Executed(0, pid, DREAM)))
  {
    SamePid(s, pid, Zero(), Checked(0, pid, r), Executed(0, pid, DREAM));
  }

  function Storing(s: State): State {
    s.(memories := s.memories[DREAM := DreamMemory(P, FULL)])
  }

  lemma SaveStep(s: State, pid: ProcId, r: Row)
    requires r.proposal == P
    ensures Goes(Moved(s, pid, Zero(), Cleared(0, pid, r)), Save(pid, "p", FULL), Moved(Storing(s), pid, Zero(), Executed(0, pid, DREAM)))
  {
    SamePid(s, pid, Zero(), Cleared(0, pid, r), Executed(0, pid, DREAM));
  }

  /** Raising before anything is written, and after. */
  lemma RaiseStep(s: State, pid: ProcId, r: Row)
    ensures Goes(Moved(s, pid, Zero(), Checked(0, pid, r)), SaveRaises(pid, "p", false, FULL, "error"), Moved(s, pid, Zero(), Raised(pid, "error")))
  {
    SamePid(s, pid, Zero(), Checked(0, pid, r), Raised(pid, "error"));
  }

  lemma LateRaiseStep(s: State, pid: ProcId, r: Row)
    requires r.proposal == P
    ensures Goes(Moved(s, pid, Zero(), Cleared(0, pid, r)), SaveRaises(pid, "p", true, FULL, "error"), Moved(Storing(s), pid, Zero(), Raised(pid, "error")))
  {
    SamePid(s, pid, Zero(), Cleared(0, pid, r), Raised(pid, "error"));
  }

  function Releasing(s: State): State
    requires "p" in s.table
  {
    s.(table := s.table["p" := ReleasedRow(s.table["p"], "error")])
  }

  lemma ReleaseStep(s: State, pid: ProcId)
    requires Holds(s.table, "p", pid)
    ensures Goes(Moved(s, pid, Zero(), Raised(pid, "error")), Release(pid, "p"), Moved(Releasing(s), pid, Zero(), Done(ApplyFailed(true))))
  {
    SamePid(s, pid, Zero(), Raised(pid, "error"), Done(ApplyFailed(true)));
  }

  lemma FinaliseStep(s: State, pid: ProcId, m: MemoryId)
    requires Holds(s.table, "p", pid)
    ensures Goes(Moved(s, pid, Zero(), Executed(0, pid, m)), Finalise(pid, "p"),
      Moved(s.(table := s.table["p" := ApprovedRow(s.table["p"], Iso(0), "", Some(m))]), pid, Zero(), Done(ApprovedNow(Some(m)))))
  {
    var s0, l := Moved(s, pid, Zero(), Executed(0, pid, m)), Finalise(pid, "p");
    SamePid(s, pid, Zero(), Executed(0, pid, m), Done(ApprovedNow(Some(m))));
    assert At(s0, pid) == Executed(0, pid, m) && CanUpdate(s0, pid, "p");
    assert Enabled(s0, l);
    assert UpdatedRow(s0, l) == ApprovedRow(s.table["p"], Iso(0), "", Some(m));
  }

  lemma SamePid(s: State, pid: ProcId, call: Call, pc: Pc, pc': Pc)
    ensures Moved(s, pid, call, pc).procs[pid := Proc(call, pc')] == s.procs[pid := Proc(call, pc')]
  {
  }

  // ----- stretches -----

  function Queued(memories: Memories): State {
    Moved(Origin(memories).(table := map["p" := NewRow(P, Iso(0))]), 0, Enqueue(P, false), Done(Created))
  }

  /** An enqueued proposal at instant 0, in a store that holds these memories. */
  lemma Enqueued(memories: Memories) returns (labels: seq<Label>, states: seq<State>)
    requires forall m :: m in memories ==> m.OtherId?
    ensures EndsIn(labels, states, Queued(memories))
    ensures labels == [Spawn(0, Enqueue(P, false)), Read(0), Insert(0)]
  {
    var call, s := Enqueue(P, false), Origin(memories);
    labels, states := [], [s];
    assert InRange(0);
    SpawnStep(s, 0, call);
    labels, states := Extend(labels, states, s, Spawn(0, call), Moved(s, 0, call, Start));
    ReadStep(s, 0, call);
    labels, states := Extend(labels, states, Moved(s, 0, call, Start), Read(0), Moved(s, 0, call, Inserting));
    InsertStep(s, 0, P);
    labels, states := Extend(labels, states, Moved(s, 0, call, Inserting), Insert(0), Queued(memories));
  }

  ghost predicate Fresh(labels: seq<Label>, states: seq<State>, s: State, pid: ProcId) {
    && EndsIn(labels, states, s) && s.clock == 0 && pid !in s.procs && "p" in s.table && !Terminal(s.table["p"])
  }

  /** A new call that has read the row and the clock. */
  lemma Arrive(labels: seq<Label>, states: seq<State>, s: State, pid: ProcId, call: Call)
    returns (labels': seq<Label>, states': seq<State>)
    requires Fresh(labels, states, s, pid) && IdOf(call) == "p" && !call.Enqueue?
    ensures EndsIn(labels', states', Moved(s, pid, call, Stamped(s.table["p"], 0)))
    ensures labels' == labels + [Spawn(pid, call), Read(pid), Stamp(pid)]
  {
    SpawnStep(s, pid, call);
    labels', states' := Extend(labels, states, s, Spawn(pid, call), Moved(s, pid, call, Start));
    ReadStep(s, pid, call);
    labels', states' := Extend(labels', states', Moved(s, pid, call, Start), Read(pid), Moved(s, pid, call, Seen(s.table["p"])));
    StampStep(s, pid, call, s.table["p"]);
    labels', states' := Extend(labels', states', Moved(s, pid, call, Seen(s.table["p"])), Stamp(pid), Moved(s, pid, call, Stamped(s.table["p"], 0)));
  }

  function Zero(): Call {
    Approve("p", "", 0)
  }

  /** The state once pid has the row and found no canonical memory. */
  function Holding(s: State, pid: ProcId, pc: Pc): State
    requires "p" in s.table
  {
    Moved(Taken(s, pid), pid, Zero(), pc)
  }

  function Taken(s: State, pid: ProcId): State
    requires "p" in s.table
  {
    s.(table := s.table["p" := ClaimedRow(s.table["p"], pid, Iso(0))], issued := s.issued + {pid})
  }

  function TakeLabel(s: State, pid: ProcId): Label
    requires "p" in s.table
  {
    if s.table["p"].status.Pending? then Claim(pid, "p", pid) else TakeOver(pid, "p", pid)
  }

  lemma TakeNow(labels: seq<Label>, states: seq<State>, s: State, pid: ProcId)
    returns (labels': seq<Label>, states': seq<State>)
    requires Fresh(labels, states, s, pid) && pid !in s.issued && CanClaim(s.table, "p", Iso(0))
    ensures EndsIn(labels', states', Holding(s, pid, Claimed(0, pid, s.table["p"])))
    ensures labels' == labels + [Spawn(pid, Zero()), Read(pid), Stamp(pid)] + [TakeLabel(s, pid)]
  {
    labels', states' := Arrive(labels, states, s, pid, Zero());
    var s0 := Moved(s, pid, Zero(), Stamped(s.table["p"], 0));
    var s1 := Holding(s, pid, Claimed(0, pid, s.table["p"]));
    TakeStep(s, pid);
    labels', states' := Extend(labels', states', s0, TakeLabel(s, pid), s1);
  }

  lemma TakeStep(s: State, pid: ProcId)
    requires "p" in s.table && pid !in s.issued && pid !in s.procs && CanClaim(s.table, "p", Iso(0))
    ensures Goes(Moved(s, pid, Zero(), Stamped(s.table["p"], 0)), TakeLabel(s, pid), Holding(s, pid, Claimed(0, pid, s.table["p"])))
  {
    assert InRange(0);
  }

  lemma LookAndMiss(labels: seq<Label>, states: seq<State>, s: State, pid: ProcId)
    returns (labels': seq<Label>, states': seq<State>)
    requires "p" in s.table && EndsIn(labels, states, Holding(s, pid, Claimed(0, pid, s.table["p"])))
    ensures EndsIn(labels', states', Holding(s, pid, Checked(0, pid, ClaimedRow(s.table["p"], pid, Iso(0)))))
    ensures labels' == labels + [Load(pid), Miss(pid)]
  {
    var r := ClaimedRow(s.table["p"], pid, Iso(0));
    LoadStep(Taken(s, pid), pid, s.table["p"]);
    labels', states' := Extend(labels, states, Holding(s, pid, Claimed(0, pid, s.table["p"])), Load(pid), Holding(s, pid, Owned(0, pid, r)));
    MissStep(Taken(s, pid), pid, r);
    labels', states' := Extend(labels', states', Holding(s, pid, Owned(0, pid, r)), Miss(pid), Holding(s, pid, Checked(0, pid, r)));
  }

  /** A new approval that has claimed the row, or taken it over, and found no canonical memory. */
  lemma Approving(labels: seq<Label>, states: seq<State>, s: State, pid: ProcId)
    returns (labels': seq<Label>, states': seq<State>)
    requires Fresh(labels, states, s, pid) && pid !in s.issued && CanClaim(s.table, "p", Iso(0))
    ensures EndsIn(labels', states', Holding(s, pid, Checked(0, pid, ClaimedRow(s.table["p"], pid, Iso(0)))))
    ensures labels' == labels + [Spawn(pid, Zero()), Read(pid), Stamp(pid)] + [TakeLabel(s, pid)] + [Load(pid), Miss(pid)]
  {
    labels', states' := TakeNow(labels, states, s, pid);
    labels', states' := LookAndMiss(labels', states', s, pid);
  }

  /** The executor of a claimed row raises before it writes, and the call releases its claim. */
  lemma RaiseAndRelease(labels: seq<Label>, states: seq<State>, s: State, pid: ProcId, r: Row)
    returns (labels': seq<Label>, states': seq<State>)
    requires EndsIn(labels, states, Moved(s, pid, Zero(), Checked(0, pid, r))) && Holds(s.table, "p", pid)
    ensures EndsIn(labels', states', Moved(Releasing(s), pid, Zero(), Done(ApplyFailed(true))))
    ensures labels' == labels + [SaveRaises(pid, "p", false, FULL, "error"), Release(pid, "p")]
  {
    RaiseStep(s, pid, r);
    labels', states' := Extend(labels, states, Moved(s, pid, Zero(), Checked(0, pid, r)),
      SaveRaises(pid, "p", false, FULL, "error"), Moved(s, pid, Zero(), Raised(pid, "error")));
    ReleaseStep(s, pid);
    labels', states' := Extend(labels', states', Moved(s, pid, Zero(), Raised(pid, "error")),
      Release(pid, "p"), Moved(Releasing(s), pid, Zero(), Done(ApplyFailed(true))));
  }

  /** The executor writes, then raises, and the call releases its claim. */
  lemma StoreAndRelease(labels: seq<Label>, states: seq<State>, s: State, pid: ProcId, r: Row)
    returns (labels': seq<Label>, states': seq<State>)
    requires EndsIn(labels, states, Moved(s, pid, Zero(), Checked(0, pid, r))) && Holds(s.table, "p", pid)
    requires r.proposal == P && !SkipsSave(s.memories, P, false)
    ensures EndsIn(labels', states', Moved(Releasing(Storing(s)), pid, Zero(), Done(ApplyFailed(true))))
    ensures labels' == labels + [Clear(pid, false), SaveRaises(pid, "p", true, FULL, "error"), Release(pid, "p")]
  {
    ClearStep(s, pid, r);
    labels', states' := Extend(labels, states, Moved(s, pid, Zero(), Checked(0, pid, r)), Clear(pid, false), Moved(s, pid, Zero(), Cleared(0, pid, r)));
    LateRaiseStep(s, pid, r);
    labels', states' := Extend(labels', states', Moved(s, pid, Zero(), Cleared(0, pid, r)),
      SaveRaises(pid, "p", true, FULL, "error"), Moved(Storing(s), pid, Zero(), Raised(pid, "error")));
    ReleaseStep(Storing(s), pid);
    labels', states' := Extend(labels', states', Moved(Storing(s), pid, Zero(), Raised(pid, "error")),
      Release(pid, "p"), Moved(Releasing(Storing(s)), pid, Zero(), Done(ApplyFailed(true))));
  }

  /** A stalled executor wakes up and saves. */
  lemma WakeAndSave(labels: seq<Label>, states: seq<State>, s: State, pid: ProcId, r: Row)
    returns (labels': seq<Label>, states': seq<State>)
    requires EndsIn(labels, states, Moved(s, pid, Zero(), Checked(0, pid, r))) && r.proposal == P && !SkipsSave(s.memories, P, false)
    ensures EndsIn(labels', states', Moved(Storing(s), pid, Zero(), Executed(0, pid, DREAM)))
    ensures labels' == labels + [Clear(pid, false), Save(pid, "p", FULL)]
  {
    ClearStep(s, pid, r);
    labels', states' := Extend(labels, states, Moved(s, pid, Zero(), Checked(0, pid, r)), Clear(pid, false), Moved(s, pid, Zero(), Cleared(0, pid, r)));
    SaveStep(s, pid, r);
    labels', states' := Extend(labels', states', Moved(s, pid, Zero(), Cleared(0, pid, r)), Save(pid, "p", FULL), Moved(Storing(s), pid, Zero(), Executed(0, pid, DREAM)));
  }

  lemma RejectAtEnd(labels: seq<Label>, states: seq<State>, s: State, pid: ProcId)
    returns (labels': seq<Label>, states': seq<State>)
    requires Fresh(labels, states, s, pid) && s.table["p"].status.Pending?
    ensures EndsRejected(labels', states')
    ensures labels' == labels + [Spawn(pid, Reject("p", "")), Read(pid), Stamp(pid)] + [RejectPending(pid, "p")]
  {
    labels', states' := Arrive(labels, states, s, pid, Reject("p", ""));
    RejectStep(s, pid, s.table["p"]);
    labels', states' := Extend(labels', states', Moved(s, pid, Reject("p", ""), Stamped(s.table["p"], 0)), RejectPending(pid, "p"),
      Moved(s.(table := s.table["p" := RejectedRow(s.table["p"], Iso(0), "")]), pid, Reject("p", ""), Done(RejectedNow)));
  }

  ghost predicate EndsRejected(labels: seq<Label>, states: seq<State>) {
    Run(labels, states) && "p" in states[|labels|].table && states[|labels|].table["p"].status.Rejected?
  }

  ghost predicate HasEffect(labels: seq<Label>) {
    exists i :: 0 <= i < |labels| && Saves(labels[i]) && labels[i].id == "p"
  }

  ghost predicate DirtyRejection(labels: seq<Label>, states: seq<State>) {
    EndsRejected(labels, states) && HasEffect(labels)
  }

  // ----- the two dirty runs -----

  /** The row as the first claim left it, and the state in which it left the store. */
  function FirstClaim(): Row {
    ClaimedRow(NewRow(P, Iso(0)), 1, Iso(0))
  }

  function SecondClaim(): Row {
    ClaimedRow(FirstClaim(), 2, Iso(0))
  }

  function Stalled(): State {
    Holding(Queued(map[]), 1, Checked(0, 1, FirstClaim()))
  }

  /** P1 claims, finds nothing, and stalls before it saves. */
  lemma StallsBeforeSaving() returns (labels: seq<Label>, states: seq<State>)
    ensures EndsIn(labels, states, Stalled()) && Fresh(labels, states, Stalled(), 2)
    ensures labels == [Spawn(0, Enqueue(P, false)), Read(0), Insert(0)]
      + [Spawn(1, Zero()), Read(1), Stamp(1)] + [Claim(1, "p", 1)] + [Load(1), Miss(1)]
  {
    labels, states := Enqueued(map[]);
    assert TakeLabel(Queued(map[]), 1) == Claim(1, "p", 1);
    labels, states := Approving(labels, states, Queued(map[]), 1);
  }

  /** The state after P2 has taken over, raised and released, seen from P1. */
  function Overtaken(): State {
    Moved(Releasing(Taken(Stalled(), 2)), 2, Zero(), Done(ApplyFailed(true)))
  }

  lemma OvertakenFacts()
    ensures "p" in Overtaken().table && Overtaken().table["p"] == ReleasedRow(SecondClaim(), "error")
    ensures Overtaken() == Moved(Overtaken(), 1, Zero(), Checked(0, 1, FirstClaim()))
    ensures Overtaken().memories == map[] && Overtaken().clock == 0 && 3 !in Overtaken().procs
  {
    assert Overtaken().procs == Overtaken().procs[1 := Proc(Zero(), Checked(0, 1, FirstClaim()))];
  }

  lemma StalledFacts()
    ensures "p" in Stalled().table && Stalled().table["p"] == FirstClaim() && CanClaim(Stalled().table, "p", Iso(0))
    ensures 2 !in Stalled().issued && TakeLabel(Stalled(), 2) == TakeOver(2, "p", 2)
    ensures Holds(Taken(Stalled(), 2).table, "p", 2)
  {
  }

  lemma TakesOver() returns (labels: seq<Label>, states: seq<State>)
    ensures "p" in Stalled().table
    ensures EndsIn(labels, states, Holding(Stalled(), 2, Checked(0, 2, SecondClaim()))) && RaisesCleanly(labels, "p")
  {
    StalledFacts();
    labels, states := StallsBeforeSaving();
    labels, states := Approving(labels, states, Stalled(), 2);
  }

  lemma TakenOver() returns (labels: seq<Label>, states: seq<State>)
    ensures EndsIn(labels, states, Overtaken()) && RaisesCleanly(labels, "p")
  {
    StalledFacts();
    labels, states := TakesOver();
    labels, states := RaiseAndRelease(labels, states, Taken(Stalled(), 2), 2, SecondClaim());
  }

  /** P1 claims and stalls; P2 takes the expired lease over, raises before storing and releases; P1
      wakes up and saves; P3 rejects. */
  lemma TakeOverDirtiesRejection() returns (labels: seq<Label>, states: seq<State>)
    ensures DirtyRejection(labels, states) && RaisesCleanly(labels, "p")
  {
    labels, states := TakenOver();
    OvertakenFacts();
    labels, states := WakeAndSave(labels, states, Overtaken(), 1, FirstClaim());
    var saved := |labels| - 1;
    var s := Moved(Storing(Overtaken()), 1, Zero(), Executed(0, 1, DREAM));
    labels, states := RejectAtEnd(labels, states, s, 3);
    assert Saves(labels[saved]) && labels[saved].id == "p";
  }

  /** P1 claims, stores, raises and releases; P2 rejects. */
  lemma RaiseAfterStoringDirtiesRejection() returns (labels: seq<Label>, states: seq<State>)
    ensures DirtyRejection(labels, states) && NoTakeOver(labels, "p")
  {
    labels, states := StoredAndReleased();
    labels, states := RejectAtEnd(labels, states, Dirtied(), 2);
    assert Saves(labels[10]) && labels[10].id == "p";
  }

  function Dirtied(): State {
    Moved(Releasing(Storing(Taken(Queued(map[]), 1))), 1, Zero(), Done(ApplyFailed(true)))
  }

  lemma DirtiedFacts()
    ensures Holds(Taken(Queued(map[]), 1).table, "p", 1)
    ensures "p" in Dirtied().table && Dirtied().table["p"] == ReleasedRow(FirstClaim(), "error")
    ensures Dirtied().clock == 0 && 2 !in Dirtied().procs
  {
  }

  lemma StoredAndReleased() returns (labels: seq<Label>, states: seq<State>)
    ensures Fresh(labels, states, Dirtied(), 2) && Dirtied().table["p"].status.Pending?
    ensures |labels| == 12 && NoTakeOver(labels, "p") && labels[10] == SaveRaises(1, "p", true, FULL, "error")
  {
    DirtiedFacts();
    labels, states := StallsBeforeSaving();
    labels, states := StoreAndRelease(labels, states, Taken(Queued(map[]), 1), 1, FirstClaim());
  }

  // ----- an approval that stores nothing -----

  /** A human memory with another text that deduplication normalises to the same. */
  const SIMILAR := Memory("TEXT", Digest(7, 8), false, FULL, "user", "direct", "", "")

  /** Its save is skipped for the sake of that memory; the proposal ends approved, names the dream id
      of its content, and neither that id nor its content is stored. */
  lemma ApprovedButNotStored() returns (labels: seq<Label>, states: seq<State>)
    ensures Run(labels, states)
    ensures var s := states[|labels|];
      && "p" in s.table && s.table["p"].status.Approved? && s.table["p"].canonicalId == Some(DREAM)
      && DREAM !in s.memories && forall m :: m in s.memories ==> s.memories[m].digest != P.digest
  {
    var memories := map[OtherId("h") := SIMILAR];
    var q := Queued(memories);
    labels, states := Enqueued(memories);
    labels, states := Approving(labels, states, q, 1);
    assert Repeats(q.memories[OtherId("h")], P, false);
    SkipStep(Taken(q, 1), 1, FirstClaim());
    labels, states := Extend(labels, states, Holding(q, 1, Checked(0, 1, FirstClaim())), SaveSkips(1, "p"), Holding(q, 1, Executed(0, 1, DREAM)));
    FinaliseStep(Taken(q, 1), 1, DREAM);
    labels, states := Extend(labels, states, Holding(q, 1, Executed(0, 1, DREAM)), Finalise(1, "p"),
      Moved(Taken(q, 1).(table := Taken(q, 1).table["p" := ApprovedRow(FirstClaim(), Iso(0), "", Some(DREAM))]), 1, Zero(), Done(ApprovedNow(Some(DREAM)))));
  }

  // ----- two callers told `created` -----

  /** Both have read, neither has inserted. */
  lemma BothReady() returns (labels: seq<Label>, states: seq<State>)
    ensures EndsIn(labels, states, Moved(Moved(EMPTY, 0, Enqueue(P, false), Inserting), 1, Enqueue(P, false), Inserting))
  {
    var call := Enqueue(P, false);
    labels, states := [], [EMPTY];
    assert InRange(0);
    SpawnStep(EMPTY, 0, call);
    labels, states := Extend(labels, states, EMPTY, Spawn(0, call), Moved(EMPTY, 0, call, Start));
    ReadStep(EMPTY, 0, call);
    var s := Moved(EMPTY, 0, call, Inserting);
    labels, states := Extend(labels, states, Moved(EMPTY, 0, call, Start), Read(0), s);
    SpawnStep(s, 1, call);
    labels, states := Extend(labels, states, s, Spawn(1, call), Moved(s, 1, call, Start));
    ReadStep(s, 1, call);
    labels, states := Extend(labels, states, Moved(s, 1, call, Start), Read(1), Moved(s, 1, call, Inserting));
  }

  /** Of two racing callers both hear `created`, though only one row was inserted. */
  lemma TwoCallersCreate() returns (labels: seq<Label>, states: seq<State>)
    ensures Run(labels, states)
    ensures var s := states[|labels|];
      && At(s, 0) == At(s, 1) == Done(Created) && 0 in s.procs && 1 in s.procs
      && s.table == map["p" := NewRow(P, Iso(0))]
  {
    var call := Enqueue(P, false);
    labels, states := BothReady();
    var s := Moved(Moved(EMPTY, 0, call, Inserting), 1, call, Inserting);
    var other := Moved(EMPTY, 1, call, Inserting);
    assert s == Moved(other, 0, call, Inserting);
    var t := Moved(other.(table := map["p" := NewRow(P, Iso(0))]), 0, call, Done(Created));
    InsertStep(other, 0, P);
    labels, states := Extend(labels, states, s, Insert(0), t);
    var first := Moved(EMPTY.(table := t.table), 0, call, Done(Created));
    assert t == Moved(first, 1, call, Inserting);
    InsertStep(first, 1, P);
    labels, states := Extend(labels, states, t, Insert(1), Moved(first, 1, call, Done(Created)));
  }

  // ----- which restrictions make rejections clean -----

  ghost predicate Restricted(labels: seq<Label>, id: ProposalId, noTakeOver: bool, cleanRaises: bool) {
    (noTakeOver ==> NoTakeOver(labels, id)) && (cleanRaises ==> RaisesCleanly(labels, id))
  }

  /** If the run ends with the proposal rejected, no executor stored anything for it. */
  ghost predicate RejectsCleanly(labels: seq<Label>, states: seq<State>, id: ProposalId)
    requires |states| == |labels| + 1
  {
    id in states[|labels|].table && states[|labels|].table[id].status.Rejected? ==>
      forall i :: 0 <= i < |labels| && Saves(labels[i]) ==> labels[i].id != id
  }

  ghost predicate AlwaysClean(noTakeOver: bool, cleanRaises: bool) {
    forall labels, states, id ::
      Run(labels, states) && Restricted(labels, id, noTakeOver, cleanRaises) ==> RejectsCleanly(labels, states, id)
  }

  lemma DirtyIsNotClean(labels: seq<Label>, states: seq<State>, noTakeOver: bool, cleanRaises: bool)
    requires DirtyRejection(labels, states) && Restricted(labels, "p", noTakeOver, cleanRaises)
    ensures !AlwaysClean(noTakeOver, cleanRaises)
  {
    var i :| 0 <= i < |labels| && Saves(labels[i]) && labels[i].id == "p";
    assert !RejectsCleanly(labels, states, "p");
  }

  /** Of the two restrictions one can put on runs, both together make every rejection clean, and
      nothing less does. */
  lemma CleanRejectionIff(noTakeOver: bool, cleanRaises: bool)
    ensures AlwaysClean(noTakeOver, cleanRaises) <==> noTakeOver && cleanRaises
  {
    if noTakeOver && cleanRaises {
      forall labels: seq<Label>, states: seq<State>, id: ProposalId | Run(labels, states) && Restricted(labels, id, true, true)
        ensures RejectsCleanly(labels, states, id)
      {
        if id in states[|labels|].table && states[|labels|].table[id].status.Rejected? {
          CleanRejection(labels, states, id);
        }
      }
    } else if noTakeOver {
      var labels, states := RaiseAfterStoringDirtiesRejection();
      DirtyIsNotClean(labels, states, noTakeOver, cleanRaises);
    } else {
      var labels, states := TakeOverDirtiesRejection();
      DirtyIsNotClean(labels, states, noTakeOver, cleanRaises);
    }
  }
}
