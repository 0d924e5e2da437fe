/**
 What a stored row says about the past. In every run the columns of a row are determined by the
 INSERT that brought it and by the latest UPDATE that matched it, and every instant in them is the
 clock reading of the call that wrote it. How long a claim is protected follows.
 */
module LeaseHistory {
  import opened Options
  import opened Text
  import opened LeaseClock
  import opened Proposals
  import opened LeaseProtocol
  import opened LeaseSafety
  import opened LeaseTheorems
  import opened LeaseEffects
  import LeaseProgress

  // ----- the INSERT -----

  lemma InsertedRowStep(s: State, l: Label, id: ProposalId)
    requires Enabled(s, l) && id !in s.table && id in TableAfter(s, l)
    ensures l.Insert? && l.pid in s.procs && s.procs[l.pid].call.Enqueue? && s.procs[l.pid].call.proposal.id == id
    ensures TableAfter(s, l)[id]
      == Row(s.procs[l.pid].call.proposal, Pending, Iso(s.clock), None, None, None, None, None, 0, None)
  {
  }

  lemma CreatedAtStep(s: State, l: Label, id: ProposalId)
    requires Enabled(s, l) && id in s.table
    ensures id in TableAfter(s, l) && TableAfter(s, l)[id].createdAt == s.table[id].createdAt
  {
  }

  /** The INSERT of step j, and what is left of it in the row r. */
  ghost predicate InsertedAs(labels: seq<Label>, states: seq<State>, j: nat, id: ProposalId, r: Row)
    requires j < |labels| < |states|
  {
    && labels[j].Insert? && labels[j].pid in states[j].procs && id !in states[j].table
    && states[j].procs[labels[j].pid].call.Enqueue?
    && r.proposal == states[j].procs[labels[j].pid].call.proposal && r.createdAt == Iso(states[j].clock)
  }

  function Fresh(p: Proposal, createdAt: string): Row {
    Row(p, Pending, createdAt, None, None, None, None, None, 0, None)
  }

  lemma InsertedRunStep(labels: seq<Label>, states: seq<State>, j: nat, id: ProposalId)
    requires Steps(labels, states) && j < |labels| && id !in states[j].table && id in states[j + 1].table
    ensures InsertedAs(labels, states, j, id, states[j + 1].table[id])
    ensures states[j + 1].table[id] == Fresh(states[j + 1].table[id].proposal, states[j + 1].table[id].createdAt)
  {
    assert StepAt(labels, states, j);
    InsertedRowStep(states[j], labels[j], id);
  }

  lemma InsertKeptRunStep(labels: seq<Label>, states: seq<State>, i: nat, id: ProposalId)
    requires Steps(labels, states) && i < |labels| && id in states[i].table
    ensures id in states[i + 1].table && states[i + 1].table[id].createdAt == states[i].table[id].createdAt
    ensures states[i + 1].table[id].proposal == states[i].table[id].proposal
  {
    assert StepAt(labels, states, i);
    CreatedAtStep(states[i], labels[i], id);
    TerminalStep(states[i], labels[i], id);
  }

  /** A row holds the proposal of the call that inserted it, and when that was. */
  lemma {:induction false} RowTellsItsInsert(labels: seq<Label>, states: seq<State>, n: nat, id: ProposalId) returns (j: nat)
    requires Run(labels, states) && n <= |labels| && id in states[n].table
    ensures j < n && InsertedAs(labels, states, j, id, states[n].table[id])
    ensures id in states[j + 1].table && states[j + 1].table[id] == Fresh(states[n].table[id].proposal, states[n].table[id].createdAt)
  {
    if id !in states[n - 1].table {
      j := n - 1;
      InsertedRunStep(labels, states, j, id);
    } else {
      j := RowTellsItsInsert(labels, states, n - 1, id);
      InsertKeptRunStep(labels, states, n - 1, id);
    }
  }

  // ----- the UPDATEs -----

  predicate Updates(l: Label, id: ProposalId) {
    UpdatesRow(l) && l.id == id
  }

  ghost predicate LatestUpdate(labels: seq<Label>, u: nat, n: nat, id: ProposalId) {
    u < n <= |labels| && Updates(labels[u], id) && forall k :: u < k < n ==> !Updates(labels[k], id)
  }

  lemma UntouchedStep(s: State, l: Label, id: ProposalId)
    requires Enabled(s, l) && id in s.table && !Updates(l, id)
    ensures id in TableAfter(s, l) && TableAfter(s, l)[id] == s.table[id]
  {
  }

  lemma {:induction false} Untouched(labels: seq<Label>, states: seq<State>, i: nat, n: nat, id: ProposalId)
    requires Steps(labels, states) && i <= n <= |labels| && id in states[i].table
    requires forall k :: i <= k < n ==> !Updates(labels[k], id)
    ensures id in states[n].table && states[n].table[id] == states[i].table[id]
    decreases n
  {
    if i < n {
      Untouched(labels, states, i, n - 1, id);
      assert StepAt(labels, states, n - 1);
      UntouchedStep(states[n - 1], labels[n - 1], id);
    }
  }

  // What the UPDATE of a call with clock reading `now` makes of the row q, column by column.

  ghost predicate WroteRejection(call: Call, now: Instant, q: Row, r: Row) {
    && call.Reject? && q.status.Pending?
    && r == Row(q.proposal, Rejected, q.createdAt, Some(Iso(now)), Some(Take(call.note, 1000)), q.canonicalId,
                None, None, q.attempts, q.error)
  }

  ghost predicate WroteClaim(call: Call, token: Token, now: Instant, q: Row, r: Row) {
    && call.Approve?
    && r == Row(q.proposal, Applying, q.createdAt, q.resolvedAt, q.note, q.canonicalId,
                Some(token), Some(Iso(LeaseOver(now, call.leaseSeconds))), q.attempts + 1, None)
  }

  ghost predicate WroteRelease(pc: Pc, q: Row, r: Row) {
    && q.status.Applying? && HeldToken(pc) == q.token && pc.Raised?
    && r == Row(q.proposal, Pending, q.createdAt, q.resolvedAt, q.note, q.canonicalId, None, None, q.attempts, Some(pc.error))
  }

  ghost predicate WroteApproval(call: Call, pc: Pc, now: Instant, q: Row, r: Row) {
    && call.Approve? && q.status.Applying? && HeldToken(pc) == q.token && pc.Executed?
    && r == Row(q.proposal, Approved, q.createdAt, Some(Iso(now)), Some(Take(call.note, 1000)), Some(pc.memory),
                None, None, q.attempts, None)
  }

  ghost predicate Wrote(l: Label, call: Call, pc: Pc, now: Instant, q: Row, r: Row) {
    match l
    case RejectPending(_, _) => WroteRejection(call, now, q, r)
    case Claim(_, _, token) => q.status.Pending? && WroteClaim(call, token, now, q, r)
    case TakeOver(_, _, token) => q.status.Applying? && LeaseRanOut(q, now) && WroteClaim(call, token, now, q, r)
    case Release(_, _) => WroteRelease(pc, q, r)
    case Finalise(_, _) => WroteApproval(call, pc, now, q, r)
    case _ => false
  }

  predicate LeaseRanOut(q: Row, now: Instant) {
    q.leaseUntil.Some? ==> AtMost(q.leaseUntil.value, Iso(now))
  }

  /** Microseconds, and no negative leases. */
  function LeaseOver(now: Instant, leaseSeconds: int): Instant {
    now + 1_000_000 * (if leaseSeconds > 0 then leaseSeconds else 0)
  }

  function ReadingOf(pc: Pc): Option<Instant> {
    match pc
    case Stamped(_, now) => Some(now)
    case Claimed(now, _, _) => Some(now)
    case Owned(now, _, _) => Some(now)
    case Checked(now, _, _) => Some(now)
    case Cleared(now, _, _) => Some(now)
    case Executed(now, _, _) => Some(now)
    case _ => None
  }

  lemma RejectionWrites(s: State, pid: ProcId, id: ProposalId)
    requires Enabled(s, RejectPending(pid, id))
    ensures At(s, pid).Stamped? && pid in s.procs && id in s.table
    ensures WroteRejection(s.procs[pid].call, At(s, pid).now, s.table[id], UpdatedRow(s, RejectPending(pid, id)))
  {
  }

  lemma LeaseOverIsLeaseEnd(now: Instant, leaseSeconds: int)
    ensures LeaseOver(now, leaseSeconds) == LeaseEnd(now, leaseSeconds)
  {
  }

  /** A claim or takeover is made by an approval that has read the clock, of a row that is free. */
  lemma ClaimIsAllowed(s: State, l: Label)
    requires Enabled(s, l) && (l.Claim? || l.TakeOver?)
    ensures CanTake(s, l.pid, l.id, l.token)
    ensures if l.Claim? then s.table[l.id].status.Pending? else s.table[l.id].status.Applying?
  {
  }

  lemma ClaimWrites(s: State, l: Label)
    requires Enabled(s, l) && (l.Claim? || l.TakeOver?)
    ensures At(s, l.pid).Stamped? && l.pid in s.procs && l.id in s.table
    ensures WroteClaim(s.procs[l.pid].call, l.token, At(s, l.pid).now, s.table[l.id], UpdatedRow(s, l))
    ensures if l.Claim? then s.table[l.id].status.Pending?
            else s.table[l.id].status.Applying? && LeaseRanOut(s.table[l.id], At(s, l.pid).now)
  {
    ClaimIsAllowed(s, l);
    LeaseOverIsLeaseEnd(At(s, l.pid).now, s.procs[l.pid].call.leaseSeconds);
  }

  lemma ReleaseWrites(s: State, pid: ProcId, id: ProposalId)
    requires Enabled(s, Release(pid, id))
    ensures pid in s.procs && id in s.table && WroteRelease(At(s, pid), s.table[id], UpdatedRow(s, Release(pid, id)))
  {
  }

  lemma ApprovalWrites(s: State, pid: ProcId, id: ProposalId)
    requires ProcsShape(s) && Enabled(s, Finalise(pid, id))
    ensures At(s, pid).Executed? && pid in s.procs && id in s.table
    ensures WroteApproval(s.procs[pid].call, At(s, pid), At(s, pid).now, s.table[id], UpdatedRow(s, Finalise(pid, id)))
  {
    assert ProcShape(s.table, s.issued, s.procs[pid]);
  }

  /** The reading an UPDATE stores; a release stores none. */
  ghost function StoredReading(s: State, l: Label): Instant
    requires UpdatesRow(l)
  {
    if ReadingOf(At(s, l.pid)).Some? then ReadingOf(At(s, l.pid)).value else 0
  }

  lemma WroteStep(s: State, l: Label)
    requires ProcsShape(s) && Enabled(s, l) && UpdatesRow(l)
    ensures l.pid in s.procs && l.id in s.table && (ReadingOf(At(s, l.pid)).Some? || l.Release?)
    ensures Wrote(l, s.procs[l.pid].call, At(s, l.pid), StoredReading(s, l), s.table[l.id], UpdatedRow(s, l))
  {
    match l
    case RejectPending(pid, id) => RejectionWrites(s, pid, id);
    case Claim(_, _, _) => ClaimWrites(s, l);
    case TakeOver(_, _, _) => ClaimWrites(s, l);
    case Release(pid, id) => ReleaseWrites(s, pid, id);
    case Finalise(pid, id) => ApprovalWrites(s, pid, id);
  }

  lemma WroteRunStep(labels: seq<Label>, states: seq<State>, u: nat)
    requires Run(labels, states) && u < |labels| && UpdatesRow(labels[u])
    ensures labels[u].pid in states[u].procs && labels[u].id in states[u].table && labels[u].id in states[u + 1].table
    ensures ReadingOf(At(states[u], labels[u].pid)).Some? || labels[u].Release?
    ensures Wrote(labels[u], states[u].procs[labels[u].pid].call, At(states[u], labels[u].pid), StoredReading(states[u], labels[u]),
                  states[u].table[labels[u].id], states[u + 1].table[labels[u].id])
  {
    InvAlways(labels, states, u);
    assert StepAt(labels, states, u);
    WroteStep(states[u], labels[u]);
  }

  lemma ReadingStep(s: State, l: Label, pid: ProcId)
    requires Enabled(s, l) && pid in ProcsAfter(s, l) && ReadingOf(ProcsAfter(s, l)[pid].pc).Some?
    ensures pid in s.procs
    ensures ReadingOf(ProcsAfter(s, l)[pid].pc) == if l == Stamp(pid) then Some(s.clock) else ReadingOf(s.procs[pid].pc)
  {
  }

  /** The instant a call goes by is its one reading of the clock. */
  lemma {:induction false} ReadingIsStamp(labels: seq<Label>, states: seq<State>, n: nat, pid: ProcId) returns (t: nat)
    requires Run(labels, states) && n <= |labels| && pid in states[n].procs && ReadingOf(At(states[n], pid)).Some?
    ensures t < n && labels[t] == Stamp(pid) && ReadingOf(At(states[n], pid)) == Some(states[t].clock)
  {
    assert StepAt(labels, states, n - 1);
    ReadingStep(states[n - 1], labels[n - 1], pid);
    if labels[n - 1] == Stamp(pid) {
      t := n - 1;
    } else {
      t := ReadingIsStamp(labels, states, n - 1, pid);
    }
  }

  /** A row is what the latest UPDATE that matched it wrote, column by column; the instant in it is when
      the call read the clock. */
  lemma RowTellsItsUpdate(labels: seq<Label>, states: seq<State>, u: nat, n: nat, id: ProposalId) returns (now: Instant)
    requires Run(labels, states) && LatestUpdate(labels, u, n, id)
    ensures labels[u].pid in states[u].procs && id in states[u].table && id in states[n].table
    ensures labels[u].Release? || exists t: nat :: t < u && labels[t] == Stamp(labels[u].pid) && states[t].clock == now
    ensures Wrote(labels[u], states[u].procs[labels[u].pid].call, At(states[u], labels[u].pid), now,
                  states[u].table[id], states[n].table[id])
  {
    WroteRunStep(labels, states, u);
    Untouched(labels, states, u + 1, n, id);
    now := StoredReading(states[u], labels[u]);
    if ReadingOf(At(states[u], labels[u].pid)).Some? {
      var t := ReadingIsStamp(labels, states, u, labels[u].pid);
    }
  }

  /** Either no UPDATE has matched the row, and it is as inserted, or there is a latest one. */
  lemma {:induction false} FreshOrUpdated(labels: seq<Label>, states: seq<State>, n: nat, id: ProposalId)
    requires Run(labels, states) && n <= |labels| && id in states[n].table
    ensures (exists u :: LatestUpdate(labels, u, n, id))
      || states[n].table[id] == Fresh(states[n].table[id].proposal, states[n].table[id].createdAt)
  {
    var j := RowTellsItsInsert(labels, states, n, id);
    if k :| j < k < n && Updates(labels[k], id) {
      var u := LastUpdate(labels, k, n, id);
    } else {
      Untouched(labels, states, j + 1, n, id);
    }
  }

  lemma {:induction false} LastUpdate(labels: seq<Label>, k: nat, n: nat, id: ProposalId) returns (u: nat)
    requires k < n <= |labels| && Updates(labels[k], id)
    ensures LatestUpdate(labels, u, n, id)
    decreases n
  {
    if Updates(labels[n - 1], id) {
      u := n - 1;
    } else {
      u := LastUpdate(labels, k, n - 1, id);
    }
  }

  // ----- how long a claim is protected -----

  lemma TakingStep(labels: seq<Label>, states: seq<State>, c: nat, id: ProposalId)
    requires Steps(labels, states) && c < |labels| && Takes(labels[c], id)
    ensures labels[c].pid in states[c].procs && states[c].procs[labels[c].pid].call.Approve? && At(states[c], labels[c].pid).Stamped?
    ensures InRange(LeaseOver(At(states[c], labels[c].pid).now, states[c].procs[labels[c].pid].call.leaseSeconds))
  {
    assert StepAt(labels, states, c);
    ClaimIsAllowed(states[c], labels[c]);
    LeaseOverIsLeaseEnd(At(states[c], labels[c].pid).now, states[c].procs[labels[c].pid].call.leaseSeconds);
  }

  /** When the lease that step c stores ends: so many seconds after the claimer's clock reading. */
  ghost function OverAt(labels: seq<Label>, states: seq<State>, c: nat): Instant
    requires c < |labels| < |states| && (labels[c].Claim? || labels[c].TakeOver?)
    requires labels[c].pid in states[c].procs && states[c].procs[labels[c].pid].call.Approve? && At(states[c], labels[c].pid).Stamped?
  {
    LeaseOver(At(states[c], labels[c].pid).now, states[c].procs[labels[c].pid].call.leaseSeconds)
  }

  lemma LeaseAtClaim(labels: seq<Label>, states: seq<State>, c: nat, id: ProposalId)
    requires Run(labels, states) && c < |labels| && Takes(labels[c], id)
    ensures labels[c].pid in states[c].procs && states[c].procs[labels[c].pid].call.Approve? && At(states[c], labels[c].pid).Stamped?
    ensures id in states[c + 1].table && states[c + 1].table[id].leaseUntil == Some(Iso(OverAt(labels, states, c)))
    ensures InRange(OverAt(labels, states, c))
  {
    TakingStep(labels, states, c, id);
    WroteRunStep(labels, states, c);
  }

  /** While a row carries the token of a claim, its lease ends as many seconds after the claimer's
      clock reading as it asked for. */
  lemma LeaseLength(labels: seq<Label>, states: seq<State>, c: nat, n: nat, id: ProposalId) returns (t: nat)
    requires Run(labels, states) && c < n <= |labels| && Takes(labels[c], id)
    requires id in states[n].table && states[n].table[id].token == Some(labels[c].token)
    ensures labels[c].pid in states[c].procs && states[c].procs[labels[c].pid].call.Approve? && At(states[c], labels[c].pid).Stamped?
    ensures t < c && labels[t] == Stamp(labels[c].pid) && At(states[c], labels[c].pid).now == states[t].clock
    ensures InRange(OverAt(labels, states, c)) && states[n].table[id].leaseUntil == Some(Iso(OverAt(labels, states, c)))
  {
    LeaseAtClaim(labels, states, c, id);
    TokenStays(labels, states, c, n, id);
    Untouched(labels, states, c + 1, n, id);
    t := ReadingIsStamp(labels, states, c, labels[c].pid);
  }

  lemma TokenStayedStep(labels: seq<Label>, states: seq<State>, c: nat, n: nat, id: ProposalId)
    requires Run(labels, states) && c + 1 < n <= |labels| && Takes(labels[c], id)
    requires id in states[n].table && states[n].table[id].token == Some(labels[c].token)
    ensures !Updates(labels[n - 1], id) && id in states[n - 1].table && states[n - 1].table[id].token == Some(labels[c].token)
  {
    TakeIsFresh(labels, states, c);
    IssuedKept(labels, states, c + 1, n - 1);
    TokenAfterRunStep(labels, states, n - 1, id);
    UpdatesOnly(labels, states, n - 1, id);
  }

  lemma UpdatesOnly(labels: seq<Label>, states: seq<State>, i: nat, id: ProposalId)
    requires Steps(labels, states) && i < |labels| && id in states[i + 1].table && states[i + 1].table[id].token.Some?
    ensures Updates(labels[i], id) ==> Takes(labels[i], id)
  {
    assert StepAt(labels, states, i);
    if Updates(labels[i], id) {
      SameTokenMeansUntouched(states[i], labels[i], id);
    }
  }

  /** A row that still carries the token has not been updated since. */
  lemma {:induction false} TokenStays(labels: seq<Label>, states: seq<State>, c: nat, n: nat, id: ProposalId)
    requires Run(labels, states) && c < n <= |labels| && Takes(labels[c], id)
    requires id in states[n].table && states[n].table[id].token == Some(labels[c].token)
    ensures LatestUpdate(labels, c, n, id)
  {
    if c < n - 1 {
      TokenStayedStep(labels, states, c, n, id);
      TokenStays(labels, states, c, n - 1, id);
    }
  }

  lemma SameTokenMeansUntouched(s: State, l: Label, id: ProposalId)
    requires Enabled(s, l) && Updates(l, id) && TableAfter(s, l)[id].token.Some?
    ensures Takes(l, id)
  {
  }

  lemma {:induction false} ClockNeverGoesBack(labels: seq<Label>, states: seq<State>, i: nat, n: nat)
    requires Steps(labels, states) && i <= n <= |labels|
    ensures states[i].clock <= states[n].clock
    decreases n
  {
    if i < n {
      ClockNeverGoesBack(labels, states, i, n - 1);
      assert StepAt(labels, states, n - 1);
    }
  }

  /** Before that instant the claim is nobody else's: the row still carries it, or is approved, or the
      same call has released it. No other call can take it over, however they interleave. */
  lemma LeaseProtects(labels: seq<Label>, states: seq<State>, c: nat, n: nat, id: ProposalId)
    requires Run(labels, states) && c < n <= |labels| && Takes(labels[c], id)
    ensures labels[c].pid in states[c].procs && states[c].procs[labels[c].pid].call.Approve? && At(states[c], labels[c].pid).Stamped?
    ensures id in states[n].table
    ensures states[n].clock < OverAt(labels, states, c) ==>
      || states[n].table[id].token == Some(labels[c].token)
      || states[n].table[id].status.Approved?
      || exists k: nat :: c < k < n && ReleasedBy(labels, k, id, labels[c].pid)
  {
    LeaseAtClaim(labels, states, c, id);
    ClaimFate(labels, states, c, n, id);
    forall k: nat | c < k < n && Displaces(labels, states, k, id, labels[c].token)
      ensures OverAt(labels, states, c) <= states[n].clock
    {
      ClockNeverGoesBack(labels, states, k, n);
      TakenOverLate(labels, states, c, k, id);
    }
  }

  lemma TakenOverLate(labels: seq<Label>, states: seq<State>, c: nat, k: nat, id: ProposalId)
    requires Run(labels, states) && c < k < |labels| && Takes(labels[c], id) && Displaces(labels, states, k, id, labels[c].token)
    requires labels[c].pid in states[c].procs && states[c].procs[labels[c].pid].call.Approve? && At(states[c], labels[c].pid).Stamped?
    ensures OverAt(labels, states, c) <= states[k].clock
  {
    var t := LeaseLength(labels, states, c, k, id);
    TakeOverStep(labels, states, k, id);
    if states[k].clock < OverAt(labels, states, c) {
      LeaseProgress.LeaseExcludes(labels, states, id, k, OverAt(labels, states, c));
    }
  }

  // ----- canonical memories -----

  /** The save of step i wrote p under the dream id of its digest. */
  ghost predicate SavedBy(s: State, l: Label, p: Proposal) {
    Saves(l) && l.pid in s.procs && Snapshot(At(s, l.pid)).Some? && Snapshot(At(s, l.pid)).value.proposal == p
  }

  /** The columns of a dream memory, apart from whether it has been deleted since. */
  ghost predicate Tells(m: Memory, p: Proposal, marks: Marks) {
    m == Memory(p.content, p.digest, m.deleted, marks, "dream-engine", "super-memory.dream.approved", "dream_engine", p.id)
  }

  lemma SaveWrites(s: State, l: Label)
    requires Enabled(s, l) && Saves(l)
    ensures l.pid in s.procs && Snapshot(At(s, l.pid)).Some? && IdOf(s.procs[l.pid].call) == l.id
    ensures var p := Snapshot(At(s, l.pid)).value.proposal;
      && MemoriesAfter(s, l).Keys == s.memories.Keys + {DreamId(p.digest)}
      && (forall m :: m in s.memories && m != DreamId(p.digest) ==> MemoriesAfter(s, l)[m] == s.memories[m])
      && Tells(MemoriesAfter(s, l)[DreamId(p.digest)], p, l.marks) && !MemoriesAfter(s, l)[DreamId(p.digest)].deleted
  {
  }

  lemma OtherwiseKept(s: State, l: Label, d: Digest)
    requires Enabled(s, l) && !Saves(l)
    ensures DreamId(d) in MemoriesAfter(s, l) <==> DreamId(d) in s.memories
    ensures DreamId(d) in s.memories ==>
      var m := s.memories[DreamId(d)];
      MemoriesAfter(s, l)[DreamId(d)] == m.(deleted := m.deleted || l == SoftDelete(DreamId(d)))
  {
  }

  /** The proposal a save writes is that of the row it was called for. */
  lemma SavedRow(s: State, l: Label)
    requires TableShape(s) && ProcsShape(s) && Enabled(s, l) && Saves(l)
    ensures l.id in s.table && SavedBy(s, l, s.table[l.id].proposal) && s.table[l.id].proposal.id == l.id
  {
    SaveWrites(s, l);
    assert ProcShape(s.table, s.issued, s.procs[l.pid]);
  }

  lemma SaveRunStep(labels: seq<Label>, states: seq<State>, i: nat, d: Digest)
    requires Run(labels, states) && i < |labels| && Saves(labels[i])
    ensures labels[i].id in states[i].table && states[i].table[labels[i].id].proposal.id == labels[i].id
    ensures var p := states[i].table[labels[i].id].proposal;
      if p.digest == d then
        && DreamId(d) in states[i + 1].memories && !states[i + 1].memories[DreamId(d)].deleted
        && Tells(states[i + 1].memories[DreamId(d)], p, labels[i].marks)
      else
        && (DreamId(d) in states[i + 1].memories <==> DreamId(d) in states[i].memories)
        && (DreamId(d) in states[i].memories ==> states[i + 1].memories[DreamId(d)] == states[i].memories[DreamId(d)])
  {
    InvAlways(labels, states, i);
    assert StepAt(labels, states, i);
    SavedRow(states[i], labels[i]);
    SaveWrites(states[i], labels[i]);
  }

  lemma OtherRunStep(labels: seq<Label>, states: seq<State>, i: nat, d: Digest)
    requires Steps(labels, states) && i < |labels| && !Saves(labels[i])
    ensures DreamId(d) in states[i + 1].memories <==> DreamId(d) in states[i].memories
    ensures DreamId(d) in states[i].memories ==>
      var m := states[i].memories[DreamId(d)];
      states[i + 1].memories[DreamId(d)] == m.(deleted := m.deleted || labels[i] == SoftDelete(DreamId(d)))
  {
    assert StepAt(labels, states, i);
    OtherwiseKept(states[i], labels[i], d);
  }

  /** Save i was made for a row with the digest, and m is what it left, deleted or not since. */
  ghost predicate LeftBy(labels: seq<Label>, states: seq<State>, i: nat, n: nat, m: Memory)
    requires i < n <= |labels| < |states|
  {
    && Saves(labels[i]) && labels[i].id in states[i].table && states[i].table[labels[i].id].proposal.id == labels[i].id
    && Tells(m, states[i].table[labels[i].id].proposal, labels[i].marks)
    && (m.deleted <==> exists k :: i < k < n && labels[k] == SoftDelete(DreamId(m.digest)))
  }

  lemma {:induction false} LastSave(labels: seq<Label>, states: seq<State>, n: nat, d: Digest) returns (i: nat)
    requires Run(labels, states) && n <= |labels| && DreamId(d) in states[n].memories
    ensures i < n && states[n].memories[DreamId(d)].digest == d && LeftBy(labels, states, i, n, states[n].memories[DreamId(d)])
  {
    if Saves(labels[n - 1]) {
      SaveRunStep(labels, states, n - 1, d);
    } else {
      OtherRunStep(labels, states, n - 1, d);
    }
    if Saves(labels[n - 1]) && states[n - 1].table[labels[n - 1].id].proposal.digest == d {
      i := n - 1;
    } else {
      i := LastSave(labels, states, n - 1, d);
      DeletedOneMore(labels, i, n, d);
    }
  }

  lemma DeletedOneMore(labels: seq<Label>, i: nat, n: nat, d: Digest)
    requires i < n - 1 < |labels|
    ensures (exists k :: i < k < n && labels[k] == SoftDelete(DreamId(d))) <==>
      (exists k :: i < k < n - 1 && labels[k] == SoftDelete(DreamId(d))) || labels[n - 1] == SoftDelete(DreamId(d))
  {
  }

  /** In every reachable state a dream memory has the content of a stored proposal of its digest, says
      which, and is marked deleted exactly if it was deleted after the save that wrote it. */
  lemma DreamMemoryTellsItsProposal(labels: seq<Label>, states: seq<State>, n: nat, d: Digest) returns (i: nat)
    requires Run(labels, states) && n <= |labels| && DreamId(d) in states[n].memories
    ensures i < n && Saves(labels[i]) && labels[i].id in states[n].table
    ensures var m, p := states[n].memories[DreamId(d)], states[n].table[labels[i].id].proposal;
      && p.digest == d && m.content == p.content && m.governedBy == p.id == labels[i].id && m.marks == labels[i].marks
      && m.agent == "dream-engine" && m.source == "super-memory.dream.approved" && m.generatedBy == "dream_engine"
      && (m.deleted <==> exists k :: i < k < n && labels[k] == SoftDelete(DreamId(d)))
  {
    i := LastSave(labels, states, n, d);
    RowKept(labels, states, i, n, labels[i].id);
  }
}
