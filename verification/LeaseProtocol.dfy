/**
 `resolve_proposal` and `enqueue_proposal` as a concurrent protocol. Any number of calls run at
 once; each SQL statement, each executor action and each clock reading is one atomic step, and
 between two steps of one call anything else may happen, including the death of the caller.
 A label fixes every choice the outside world makes, so a step is a function of state and label.
 */
module LeaseProtocol {
  import opened Options
  import opened LeaseClock
  import opened Proposals

  type ProcId = nat

  datatype Call =
    | Approve(id: ProposalId, note: string, leaseSeconds: int)
    | Reject(id: ProposalId, note: string)
    | Enqueue(proposal: Proposal, dryRun: bool)

  /** The dictionaries the two functions return. */
  datatype Outcome =
    | NotFound
    | Replay(ok: bool, status: Status, canonicalId: Option<MemoryId>)
    | RejectedNow
    | ResolutionInFlight(status: Status)
    | ApplicationInFlight(status: Status, leaseUntil: Option<string>)
    | ApplyFailed(released: bool)
    | OwnershipLost(status: Status, canonicalId: Option<MemoryId>)
    | ApprovedNow(canonicalId: Option<MemoryId>)
    | Deduplicated
    | Previewed
    | Created
    | Crashed

  /** Where a call is, with the locals it still needs. */
  datatype Pc =
    | Start
    | Seen(row: Row)
    | Stamped(row: Row, now: Instant)
    | Claimed(now: Instant, token: Token, before: Row)
    | Owned(now: Instant, token: Token, row: Row)
    | Checked(now: Instant, token: Token, row: Row)
    | Cleared(now: Instant, token: Token, row: Row)
    | Executed(now: Instant, token: Token, memory: MemoryId)
    | Raised(token: Token, error: string)
    | RejectionLost
    | ClaimFailed
    | FinaliseFailed
    | Inserting
    | Done(outcome: Outcome)

  datatype Proc = Proc(call: Call, pc: Pc)

  datatype State = State(
    clock: Instant,
    table: Table,
    memories: map<MemoryId, Memory>,
    issued: set<Token>,
    procs: map<ProcId, Proc>)

  datatype Label =
    | Spawn(pid: ProcId, call: Call)
    | Read(pid: ProcId)
    | Stamp(pid: ProcId)
    | RejectPending(pid: ProcId, id: ProposalId)
    | LoseRejection(pid: ProcId)
    | Claim(pid: ProcId, id: ProposalId, token: Token)
    | TakeOver(pid: ProcId, id: ProposalId, token: Token)
    | LoseClaim(pid: ProcId)
    | Load(pid: ProcId)
    | Find(pid: ProcId, memory: MemoryId)
    | Miss(pid: ProcId)
    | SaveSkips(pid: ProcId, id: ProposalId)
    | Clear(pid: ProcId, lookupRaised: bool)
    | Save(pid: ProcId, id: ProposalId, marks: Marks)
    | SaveRaises(pid: ProcId, id: ProposalId, stored: bool, marks: Marks, error: string)
    | Release(pid: ProcId, id: ProposalId)
    | LoseRelease(pid: ProcId)
    | Finalise(pid: ProcId, id: ProposalId)
    | LoseFinalise(pid: ProcId)
    | ReadAgain(pid: ProcId)
    | Insert(pid: ProcId)
    | Crash(pid: ProcId)
    | Tick(now: Instant)
    | SaveOther(name: string, saved: Memory)
    | SoftDelete(memory: MemoryId)

  // ----- helpers -----

  function At(s: State, pid: ProcId): Pc {
    if pid in s.procs then s.procs[pid].pc else Done(Crashed)
  }

  function IdOf(c: Call): ProposalId {
    match c
    case Approve(id, _, _) => id
    case Reject(id, _) => id
    case Enqueue(p, _) => p.id
  }

  /** The proposal the call of pid is about. */
  function Subject(s: State, pid: ProcId): ProposalId
    requires pid in s.procs
  {
    IdOf(s.procs[pid].call)
  }

  /** _terminal_resolution */
  function ReplayOf(c: Call, r: Row): Outcome {
    Replay((r.status.Approved? && c.Approve?) || (r.status.Rejected? && c.Reject?), r.status, r.canonicalId)
  }

  function AfterRead(t: Table, c: Call): Pc {
    if IdOf(c) in t then
      var r := t[IdOf(c)];
      if c.Enqueue? then Done(Deduplicated)
      else if Terminal(r) then Done(ReplayOf(c, r))
      else Seen(r)
    else if !c.Enqueue? then Done(NotFound)
    else if c.dryRun then Done(Previewed)
    else Inserting
  }

  /** The read after an UPDATE that matched no row. */
  function AfterReplay(t: Table, c: Call, pc: Pc): Pc
    requires pc.RejectionLost? || pc.ClaimFailed? || pc.FinaliseFailed?
    requires IdOf(c) in t
  {
    var r := t[IdOf(c)];
    match pc
    case RejectionLost => Done(if Terminal(r) then ReplayOf(c, r) else ResolutionInFlight(r.status))
    case ClaimFailed => Done(if Terminal(r) then ReplayOf(c, r) else ApplicationInFlight(r.status, r.leaseUntil))
    case FinaliseFailed => Done(if r.status.Approved? then ReplayOf(c, r) else OwnershipLost(r.status, r.canonicalId))
  }

  // ----- steps -----

  ghost predicate CanUpdate(s: State, pid: ProcId, id: ProposalId) {
    pid in s.procs && Subject(s, pid) == id && id in s.table
  }

  ghost predicate Enabled(s: State, l: Label) {
    match l
    case Spawn(pid, _) => pid !in s.procs
    case Read(pid) => At(s, pid).Start?
    case Stamp(pid) => At(s, pid).Seen?
    case RejectPending(pid, id) =>
      At(s, pid).Stamped? && CanUpdate(s, pid, id) && s.procs[pid].call.Reject? && CanReject(s.table, id)
    case LoseRejection(pid) =>
      At(s, pid).Stamped? && s.procs[pid].call.Reject? && !CanReject(s.table, Subject(s, pid))
    case Claim(pid, id, token) => CanTake(s, pid, id, token) && s.table[id].status.Pending?
    case TakeOver(pid, id, token) => CanTake(s, pid, id, token) && s.table[id].status.Applying?
    case LoseClaim(pid) =>
      At(s, pid).Stamped? && s.procs[pid].call.Approve?
      && !CanClaim(s.table, Subject(s, pid), Iso(At(s, pid).now))
    case Load(pid) => At(s, pid).Claimed?
    case Find(pid, m) =>
      At(s, pid).Owned? && m in s.memories && !s.memories[m].deleted
      && s.memories[m].digest == At(s, pid).row.proposal.digest
    case Miss(pid) => At(s, pid).Owned?   // nothing matched, or the lookup failed and was swallowed
    case SaveSkips(pid, id) =>
      At(s, pid).Checked? && Subject(s, pid) == id && SkipsSave(s.memories, At(s, pid).row.proposal, false)
    case Clear(pid, lookupRaised) => At(s, pid).Checked? && !SkipsSave(s.memories, At(s, pid).row.proposal, lookupRaised)
    case Save(pid, id, _) => At(s, pid).Cleared? && Subject(s, pid) == id
    case SaveRaises(pid, id, stored, _, _) =>
      (At(s, pid).Cleared? || (At(s, pid).Checked? && !stored)) && Subject(s, pid) == id
    case Release(pid, id) =>
      At(s, pid).Raised? && CanUpdate(s, pid, id) && Holds(s.table, id, At(s, pid).token)
    case LoseRelease(pid) =>
      At(s, pid).Raised? && !Holds(s.table, Subject(s, pid), At(s, pid).token)
    case Finalise(pid, id) =>
      At(s, pid).Executed? && CanUpdate(s, pid, id) && Holds(s.table, id, At(s, pid).token)
    case LoseFinalise(pid) =>
      At(s, pid).Executed? && !Holds(s.table, Subject(s, pid), At(s, pid).token)
    case ReadAgain(pid) =>
      (At(s, pid).RejectionLost? || At(s, pid).ClaimFailed? || At(s, pid).FinaliseFailed?)
      && Subject(s, pid) in s.table
    case Insert(pid) => At(s, pid).Inserting? && s.procs[pid].call.Enqueue?
    case Crash(pid) => !At(s, pid).Done?
    case Tick(now) => s.clock <= now && InRange(now)
    case SaveOther(name, m) => OtherId(name) !in s.memories
    case SoftDelete(m) => m in s.memories
  }

  ghost predicate CanTake(s: State, pid: ProcId, id: ProposalId, token: Token) {
    && At(s, pid).Stamped? && CanUpdate(s, pid, id) && s.procs[pid].call.Approve?
    && CanClaim(s.table, id, Iso(At(s, pid).now))
    && token !in s.issued
    && InRange(LeaseEnd(At(s, pid).now, s.procs[pid].call.leaseSeconds))
  }

  /** The five guarded UPDATE statements. */
  predicate UpdatesRow(l: Label) {
    l.RejectPending? || l.Claim? || l.TakeOver? || l.Release? || l.Finalise?
  }

  ghost function UpdatedRow(s: State, l: Label): Row
    requires UpdatesRow(l) && Enabled(s, l)
  {
    var r, pc, call := s.table[l.id], At(s, l.pid), s.procs[l.pid].call;
    match l
    case RejectPending(_, _) => RejectedRow(r, Iso(pc.now), BoundedNote(call.note))
    case Claim(_, _, token) => ClaimedRow(r, token, Iso(LeaseEnd(pc.now, call.leaseSeconds)))
    case TakeOver(_, _, token) => ClaimedRow(r, token, Iso(LeaseEnd(pc.now, call.leaseSeconds)))
    case Release(_, _) => ReleasedRow(r, pc.error)
    case Finalise(_, _) => ApprovedRow(r, Iso(pc.now), if call.Enqueue? then "" else BoundedNote(call.note), Some(pc.memory))
  }

  ghost function TableAfter(s: State, l: Label): Table
    requires Enabled(s, l)
  {
    if UpdatesRow(l) then s.table[l.id := UpdatedRow(s, l)]
    else if l.Insert? then InsertOrIgnore(s.table, s.procs[l.pid].call.proposal, Iso(s.clock))
    else s.table
  }

  /** The executor writes the canonical memory; a raising executor may or may not have got that far, and
      one whose content is taken for a repetition does not, though it returns the same id. */
  predicate Saves(l: Label) {
    l.Save? || (l.SaveRaises? && l.stored)
  }

  ghost function MemoriesAfter(s: State, l: Label): map<MemoryId, Memory>
    requires Enabled(s, l)
  {
    if Saves(l) then
      var p := At(s, l.pid).row.proposal;
      s.memories[DreamId(p.digest) := DreamMemory(p, l.marks)]
    else match l
      case SaveOther(name, m) => s.memories[OtherId(name) := m]
      case SoftDelete(m) => s.memories[m := s.memories[m].(deleted := true)]
      case _ => s.memories
  }

  /** Steps of the world rather than of a call. */
  predicate Ambient(l: Label) {
    l.Tick? || l.SaveOther? || l.SoftDelete?
  }

  ghost function PcAfter(s: State, l: Label): Pc
    requires Enabled(s, l) && !Ambient(l) && !l.Spawn?
  {
    var pc, call := At(s, l.pid), s.procs[l.pid].call;
    match l
    case Read(_) => AfterRead(s.table, call)
    case Stamp(_) => Stamped(pc.row, s.clock)
    case RejectPending(_, _) => Done(RejectedNow)
    case LoseRejection(_) => RejectionLost
    case Claim(_, _, token) => Claimed(pc.now, token, pc.row)
    case TakeOver(_, _, token) => Claimed(pc.now, token, pc.row)
    case LoseClaim(_) => ClaimFailed
    case Load(_) => Owned(pc.now, pc.token, if IdOf(call) in s.table then s.table[IdOf(call)] else pc.before)
    case Find(_, m) => Executed(pc.now, pc.token, m)
    case Miss(_) => Checked(pc.now, pc.token, pc.row)
    case SaveSkips(_, _) => Executed(pc.now, pc.token, DreamId(pc.row.proposal.digest))
    case Clear(_, _) => Cleared(pc.now, pc.token, pc.row)
    case Save(_, _, _) => Executed(pc.now, pc.token, DreamId(pc.row.proposal.digest))
    case SaveRaises(_, _, _, _, error) => Raised(pc.token, error)
    case Release(_, _) => Done(ApplyFailed(true))
    case LoseRelease(_) => Done(ApplyFailed(false))
    case Finalise(_, _) => Done(ApprovedNow(Some(pc.memory)))
    case LoseFinalise(_) => FinaliseFailed
    case ReadAgain(_) => AfterReplay(s.table, call, pc)
    case Insert(_) => Done(Created)
    case Crash(_) => Done(Crashed)
  }

  ghost function ProcsAfter(s: State, l: Label): map<ProcId, Proc>
    requires Enabled(s, l)
  {
    if Ambient(l) then s.procs
    else if l.Spawn? then s.procs[l.pid := Proc(l.call, Start)]
    else s.procs[l.pid := Proc(s.procs[l.pid].call, PcAfter(s, l))]
  }

  function IssuedAfter(s: State, l: Label): set<Token> {
    if l.Claim? || l.TakeOver? then s.issued + {l.token} else s.issued
  }

  ghost function Effect(s: State, l: Label): State
    requires Enabled(s, l)
  {
    State(
      if l.Tick? then l.now else s.clock,
      TableAfter(s, l),
      MemoriesAfter(s, l),
      IssuedAfter(s, l),
      ProcsAfter(s, l))
  }

  ghost predicate Init(s: State) {
    && s.table == map[] && s.procs == map[] && s.issued == {}
    && InRange(s.clock)
    && forall m :: m in s.memories ==> m.OtherId?
  }

  ghost predicate StepAt(labels: seq<Label>, states: seq<State>, i: nat)
    requires i < |labels| < |states|
  {
    Enabled(states[i], labels[i]) && states[i + 1] == Effect(states[i], labels[i])
  }

  /** |labels| steps through |labels| + 1 states. */
  ghost predicate Steps(labels: seq<Label>, states: seq<State>) {
    |states| == |labels| + 1 && forall i: nat :: i < |labels| ==> StepAt(labels, states, i)
  }

  ghost predicate Run(labels: seq<Label>, states: seq<State>) {
    Steps(labels, states) && Init(states[0])
  }

  lemma RunPrefix(labels: seq<Label>, states: seq<State>, n: nat)
    requires Run(labels, states) && n <= |labels|
    ensures Run(labels[..n], states[..n + 1])
  {
    var labels', states' := labels[..n], states[..n + 1];
    forall i: nat | i < n ensures StepAt(labels', states', i) {
      assert StepAt(labels, states, i);
    }
  }

  lemma ExtendRun(labels: seq<Label>, states: seq<State>, l: Label)
    requires Run(labels, states) && Enabled(states[|labels|], l)
    ensures Run(labels + [l], states + [Effect(states[|labels|], l)])
  {
    var labels', states' := labels + [l], states + [Effect(states[|labels|], l)];
    forall i: nat | i < |labels'| ensures StepAt(labels', states', i) {
      if i < |labels| {
        assert StepAt(labels, states, i);
      }
    }
  }
}
