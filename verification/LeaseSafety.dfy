/** What every step of the lease protocol keeps. */
module LeaseSafety {
  import opened Options
  import opened LeaseClock
  import opened Proposals
  import opened LeaseProtocol

  // ----- the row -----

  ghost predicate IsTimestamp(s: string) {
    exists t :: InRange(t) && s == Iso(t)
  }

  /** A row is `applying` exactly while it carries a token and a lease. */
  ghost predicate RowShape(r: Row, issued: set<Token>) {
    && (r.status.Applying? <==> r.token.Some?)
    && (r.status.Applying? <==> r.leaseUntil.Some?)
    && (r.token.Some? ==> r.token.value in issued)
    && (r.leaseUntil.Some? ==> IsTimestamp(r.leaseUntil.value))
    && (Terminal(r) <==> r.resolvedAt.Some?)
    && (r.status.Approved? <==> r.canonicalId.Some?)
  }

  ghost predicate TableShape(s: State) {
    && InRange(s.clock)
    && forall id :: id in s.table ==> s.table[id].proposal.id == id && RowShape(s.table[id], s.issued)
  }

  lemma UpdatedRowShape(s: State, l: Label)
    requires TableShape(s) && UpdatesRow(l) && Enabled(s, l)
    ensures RowShape(UpdatedRow(s, l), IssuedAfter(s, l))
  {
    assert RowShape(s.table[l.id], s.issued);
    if l.Claim? || l.TakeOver? {
      assert IsTimestamp(Iso(LeaseEnd(At(s, l.pid).now, s.procs[l.pid].call.leaseSeconds)));
    }
  }

  lemma RowShapeStep(s: State, l: Label, id: ProposalId)
    requires TableShape(s) && Enabled(s, l) && id in TableAfter(s, l)
    ensures TableAfter(s, l)[id].proposal.id == id && RowShape(TableAfter(s, l)[id], IssuedAfter(s, l))
  {
    if id in s.table {
      TerminalStep(s, l, id);
      assert RowShape(s.table[id], s.issued);
    }
    if UpdatesRow(l) {
      UpdatedRowShape(s, l);
    }
  }

  lemma TableShapeStep(s: State, l: Label)
    requires TableShape(s) && Enabled(s, l)
    ensures TableShape(Effect(s, l))
  {
    forall id | id in TableAfter(s, l)
      ensures TableAfter(s, l)[id].proposal.id == id && RowShape(TableAfter(s, l)[id], IssuedAfter(s, l))
    {
      RowShapeStep(s, l, id);
    }
  }

  /** A terminal row never changes again, whatever is called, re-enqueued or retried. */
  lemma TerminalStep(s: State, l: Label, id: ProposalId)
    requires Enabled(s, l) && id in s.table
    ensures id in TableAfter(s, l)
    ensures TableAfter(s, l)[id].proposal == s.table[id].proposal
    ensures Terminal(s.table[id]) ==> TableAfter(s, l)[id] == s.table[id]
  {
  }

  // ----- the calls -----

  function HeldToken(pc: Pc): Option<Token> {
    match pc
    case Claimed(_, token, _) => Some(token)
    case Owned(_, token, _) => Some(token)
    case Checked(_, token, _) => Some(token)
    case Cleared(_, token, _) => Some(token)
    case Executed(_, token, _) => Some(token)
    case Raised(token, _) => Some(token)
    case _ => None
  }

  function Snapshot(pc: Pc): Option<Row> {
    match pc
    case Seen(r) => Some(r)
    case Stamped(r, _) => Some(r)
    case Claimed(_, _, r) => Some(r)
    case Owned(_, _, r) => Some(r)
    case Checked(_, _, r) => Some(r)
    case Cleared(_, _, r) => Some(r)
    case _ => None
  }

  ghost predicate ProcShape(t: Table, issued: set<Token>, p: Proc) {
    TokenShape(t, issued, p.call, p.pc) && SnapshotShape(t, p.call, p.pc) && LoserShape(t, p.call, p.pc)
  }

  /** Only approvals hold tokens, and only of rows that exist. */
  ghost predicate TokenShape(t: Table, issued: set<Token>, call: Call, pc: Pc) {
    HeldToken(pc).Some? ==> call.Approve? && IdOf(call) in t && HeldToken(pc).value in issued
  }

  /** A row read earlier may be stale, but its proposal is not. */
  ghost predicate SnapshotShape(t: Table, call: Call, pc: Pc) {
    Snapshot(pc).Some? ==> !call.Enqueue? && IdOf(call) in t && Snapshot(pc).value.proposal == t[IdOf(call)].proposal
  }

  ghost predicate LoserShape(t: Table, call: Call, pc: Pc) {
    && (pc.RejectionLost? ==> call.Reject? && IdOf(call) in t)
    && (pc.ClaimFailed? || pc.FinaliseFailed? ==> call.Approve? && IdOf(call) in t)
    && (pc.Inserting? ==> call.Enqueue?)
  }

  ghost predicate ProcsShape(s: State) {
    forall pid :: pid in s.procs ==> ProcShape(s.table, s.issued, s.procs[pid])
  }

  ghost predicate Moves(l: Label) {
    !Ambient(l) && !l.Spawn?
  }

  lemma MovedToken(s: State, l: Label, call: Call)
    requires Enabled(s, l) && Moves(l) && call == s.procs[l.pid].call
    requires TokenShape(s.table, s.issued, call, At(s, l.pid))
    ensures TokenShape(s.table, IssuedAfter(s, l), call, PcAfter(s, l))
  {
  }

  /** Only the two reads of a row take a snapshot; other steps carry it along or drop it. */
  lemma CarriedSnapshot(s: State, l: Label)
    requires Enabled(s, l) && Moves(l) && !l.Read? && !l.Load?
    ensures Snapshot(PcAfter(s, l)).None? || Snapshot(PcAfter(s, l)) == Snapshot(At(s, l.pid))
  {
  }

  lemma TakenSnapshot(s: State, l: Label)
    requires Enabled(s, l) && (l.Read? || l.Load?)
    ensures var call, snapshot := s.procs[l.pid].call, Snapshot(PcAfter(s, l));
      || snapshot.None?
      || (l.Load? && snapshot == Snapshot(At(s, l.pid)))
      || (IdOf(call) in s.table && snapshot == Some(s.table[IdOf(call)]) && (l.Read? ==> !call.Enqueue?))
    ensures l.Load? ==> Snapshot(At(s, l.pid)).Some?
  {
  }

  lemma MovedSnapshot(s: State, l: Label, call: Call)
    requires Enabled(s, l) && Moves(l) && call == s.procs[l.pid].call
    requires SnapshotShape(s.table, call, At(s, l.pid))
    ensures SnapshotShape(s.table, call, PcAfter(s, l))
  {
    if l.Read? || l.Load? {
      TakenSnapshot(s, l);
    } else {
      CarriedSnapshot(s, l);
    }
  }

  lemma MovedLoser(s: State, l: Label, call: Call)
    requires Enabled(s, l) && Moves(l) && call == s.procs[l.pid].call
    requires ProcShape(s.table, s.issued, s.procs[l.pid])
    ensures LoserShape(s.table, call, PcAfter(s, l))
  {
  }

  ghost predicate ProposalsKept(t: Table, t': Table) {
    forall id :: id in t ==> id in t' && t'[id].proposal == t[id].proposal
  }

  lemma TableKept(s: State, l: Label)
    requires Enabled(s, l)
    ensures ProposalsKept(s.table, TableAfter(s, l))
  {
    forall id | id in s.table ensures id in TableAfter(s, l) && TableAfter(s, l)[id].proposal == s.table[id].proposal {
      TerminalStep(s, l, id);
    }
  }

  lemma ProcShapeKept(t: Table, t': Table, issued: set<Token>, issued': set<Token>, p: Proc)
    requires ProcShape(t, issued, p) && ProposalsKept(t, t') && issued <= issued'
    ensures ProcShape(t', issued', p)
  {
  }

  lemma ProcsShapeStep(s: State, l: Label)
    requires ProcsShape(s) && Enabled(s, l)
    ensures ProcsShape(Effect(s, l))
  {
    var s' := Effect(s, l);
    TableKept(s, l);
    forall pid | pid in s'.procs ensures ProcShape(s'.table, s'.issued, s'.procs[pid]) {
      if pid !in s.procs {
      } else {
        assert ProcShape(s.table, s.issued, s.procs[pid]);
        if Moves(l) && l.pid == pid {
          MovedToken(s, l, s.procs[pid].call);
          MovedSnapshot(s, l, s.procs[pid].call);
          MovedLoser(s, l, s.procs[pid].call);
          ProcShapeKept(s.table, s'.table, s'.issued, s'.issued, s'.procs[pid]);
        } else {
          ProcShapeKept(s.table, s'.table, s.issued, s'.issued, s.procs[pid]);
        }
      }
    }
  }

  /** No two calls ever hold the same token. */
  ghost predicate TokensApart(s: State) {
    forall p, q :: p in s.procs && q in s.procs && p != q && HeldToken(s.procs[p].pc).Some?
      ==> HeldToken(s.procs[p].pc) != HeldToken(s.procs[q].pc)
  }

  lemma TokensApartStep(s: State, l: Label)
    requires ProcsShape(s) && TokensApart(s) && Enabled(s, l)
    ensures TokensApart(Effect(s, l))
  {
    var s' := Effect(s, l);
    if Moves(l) {
      TokenStep(s, l);
    }
    forall p, q | p in s'.procs && q in s'.procs && p != q && HeldToken(s'.procs[p].pc).Some?
      ensures HeldToken(s'.procs[p].pc) != HeldToken(s'.procs[q].pc)
    {
      assert p in s.procs ==> ProcShape(s.table, s.issued, s.procs[p]);
      assert q in s.procs ==> ProcShape(s.table, s.issued, s.procs[q]);
    }
  }

  /** A call keeps its token, drops it, or takes the fresh one of its claim. */
  lemma TokenStep(s: State, l: Label)
    requires Enabled(s, l) && Moves(l)
    ensures var held := HeldToken(PcAfter(s, l));
      held.None? || held == HeldToken(At(s, l.pid))
      || ((l.Claim? || l.TakeOver?) && held == Some(l.token) && l.token !in s.issued)
  {
  }

  // ----- canonical memories -----

  ghost predicate Stored(memories: Memories, m: MemoryId, digest: Digest) {
    m in memories && memories[m].digest == digest
  }

  /** A memory whose content is the same to deduplication. */
  ghost predicate SimilarStored(memories: Memories, digest: Digest) {
    exists m :: m in memories && memories[m].digest.normal == digest.normal
  }

  /** The dream id of the digest, stored or not, or a stored memory of the digest; and similar content
      is stored in any case. */
  ghost predicate NamesContent(memories: Memories, m: MemoryId, digest: Digest) {
    (m == DreamId(digest) || Stored(memories, m, digest)) && SimilarStored(memories, digest)
  }

  /** Dream ids name dream memories of that digest; what an executor returned, and what an
      approved row names, names the content of the proposal. */
  ghost predicate MemoryShape(s: State) {
    && DreamIdShape(s.memories)
    && (forall pid :: pid in s.procs ==> ExecutedShape(s.table, s.memories, s.procs[pid]))
    && (forall id :: id in s.table ==> CanonicalShape(s.memories, s.table[id]))
  }

  ghost predicate DreamIdShape(memories: Memories) {
    forall m :: m in memories && m.DreamId? ==> memories[m].digest == m.digest && memories[m].agent == "dream-engine"
  }

  ghost predicate ExecutedShape(t: Table, memories: Memories, p: Proc) {
    p.pc.Executed? && IdOf(p.call) in t ==> NamesContent(memories, p.pc.memory, t[IdOf(p.call)].proposal.digest)
  }

  ghost predicate CanonicalShape(memories: Memories, r: Row) {
    r.canonicalId.Some? ==> NamesContent(memories, r.canonicalId.value, r.proposal.digest)
  }

  /** Memories are never forgotten and never change digest. */
  lemma MemoryStep(s: State, l: Label, m: MemoryId)
    requires DreamIdShape(s.memories) && Enabled(s, l) && m in s.memories
    ensures m in MemoriesAfter(s, l) && MemoriesAfter(s, l)[m].digest == s.memories[m].digest
  {
  }

  lemma DreamIdStep(s: State, l: Label)
    requires DreamIdShape(s.memories) && Enabled(s, l)
    ensures DreamIdShape(MemoriesAfter(s, l))
  {
  }

  lemma SimilarKept(s: State, l: Label, digest: Digest)
    requires DreamIdShape(s.memories) && Enabled(s, l) && SimilarStored(s.memories, digest)
    ensures SimilarStored(MemoriesAfter(s, l), digest)
  {
    var m :| m in s.memories && s.memories[m].digest.normal == digest.normal;
    MemoryStep(s, l, m);
  }

  lemma NamesKept(s: State, l: Label, m: MemoryId, digest: Digest)
    requires DreamIdShape(s.memories) && Enabled(s, l) && NamesContent(s.memories, m, digest)
    ensures NamesContent(MemoriesAfter(s, l), m, digest)
  {
    SimilarKept(s, l, digest);
    if m in s.memories {
      MemoryStep(s, l, m);
    }
  }

  lemma ExecutedStep(s: State, l: Label, pid: ProcId)
    requires MemoryShape(s) && ProcsShape(s) && Enabled(s, l) && pid in s.procs
    ensures ExecutedShape(TableAfter(s, l), MemoriesAfter(s, l), ProcsAfter(s, l)[pid])
  {
    var p := s.procs[pid];
    assert ExecutedShape(s.table, s.memories, p) && ProcShape(s.table, s.issued, p);
    if Moves(l) && l.pid == pid {
      NewlyExecuted(s, l);
    } else if p.pc.Executed? && IdOf(p.call) in TableAfter(s, l) {
      ExecutedRow(s, l, p);
      NamesKept(s, l, p.pc.memory, s.table[IdOf(p.call)].proposal.digest);
    }
  }

  lemma ExecutedRow(s: State, l: Label, p: Proc)
    requires Enabled(s, l) && ProcShape(s.table, s.issued, p) && p.pc.Executed?
    ensures IdOf(p.call) in s.table && IdOf(p.call) in TableAfter(s, l)
    ensures TableAfter(s, l)[IdOf(p.call)].proposal == s.table[IdOf(p.call)].proposal
  {
    TerminalStep(s, l, IdOf(p.call));
  }

  lemma NewlyExecuted(s: State, l: Label)
    requires ProcsShape(s) && Enabled(s, l) && Moves(l)
    ensures PcAfter(s, l).Executed? ==> l.Find? || l.Save? || l.SaveSkips?
    ensures PcAfter(s, l).Executed? ==>
      var id := IdOf(s.procs[l.pid].call);
      id in s.table && id in TableAfter(s, l) && TableAfter(s, l)[id].proposal == s.table[id].proposal
      && NamesContent(MemoriesAfter(s, l), PcAfter(s, l).memory, s.table[id].proposal.digest)
  {
    if PcAfter(s, l).Executed? {
      assert ProcShape(s.table, s.issued, s.procs[l.pid]);
      TerminalStep(s, l, IdOf(s.procs[l.pid].call));
      ExecutedNames(s, l);
    }
  }

  lemma ExecutedNames(s: State, l: Label)
    requires Enabled(s, l) && Moves(l) && PcAfter(s, l).Executed?
    ensures Snapshot(At(s, l.pid)).Some?
    ensures NamesContent(MemoriesAfter(s, l), PcAfter(s, l).memory, Snapshot(At(s, l.pid)).value.proposal.digest)
  {
    var p := Snapshot(At(s, l.pid)).value.proposal;
    if l.SaveSkips? {
      var k :| k in s.memories && Repeats(s.memories[k], p, false);
      assert k in MemoriesAfter(s, l);
    } else {
      assert PcAfter(s, l).memory in MemoriesAfter(s, l);
    }
  }

  lemma CanonicalStep(s: State, l: Label, id: ProposalId)
    requires MemoryShape(s) && ProcsShape(s) && Enabled(s, l) && id in TableAfter(s, l)
    ensures CanonicalShape(MemoriesAfter(s, l), TableAfter(s, l)[id])
  {
    if id in s.table {
      TerminalStep(s, l, id);
      var digest := s.table[id].proposal.digest;
      assert CanonicalShape(s.memories, s.table[id]);
      if l.Finalise? && l.id == id {
        assert ExecutedShape(s.table, s.memories, s.procs[l.pid]);
        NamesKept(s, l, At(s, l.pid).memory, digest);
      } else if s.table[id].canonicalId.Some? {
        NamesKept(s, l, s.table[id].canonicalId.value, digest);
      }
    }
  }

  lemma MemoryShapeStep(s: State, l: Label)
    requires MemoryShape(s) && ProcsShape(s) && Enabled(s, l)
    ensures MemoryShape(Effect(s, l))
  {
    DreamIdStep(s, l);
    forall pid | pid in ProcsAfter(s, l)
      ensures ExecutedShape(TableAfter(s, l), MemoriesAfter(s, l), ProcsAfter(s, l)[pid])
    {
      if pid in s.procs {
        ExecutedStep(s, l, pid);
      }
    }
    forall id | id in TableAfter(s, l) ensures CanonicalShape(MemoriesAfter(s, l), TableAfter(s, l)[id]) {
      CanonicalStep(s, l, id);
    }
  }

  // ----- what callers are told -----

  /** Whatever a finished call reported about a resolved row is still true. */
  ghost predicate Told(t: Table, call: Call, outcome: Outcome) {
    var id := IdOf(call);
    match outcome
    case RejectedNow => id in t && t[id].status.Rejected? && call.Reject?
    case ApprovedNow(m) => id in t && t[id].status.Approved? && t[id].canonicalId == m && call.Approve?
    case Replay(ok, status, m) =>
      && id in t && Terminal(t[id]) && t[id].status == status && t[id].canonicalId == m
      && (ok <==> (call.Approve? && status.Approved?) || (call.Reject? && status.Rejected?))
    case _ => true
  }

  ghost predicate AllTold(s: State) {
    forall pid :: pid in s.procs && s.procs[pid].pc.Done? ==> Told(s.table, s.procs[pid].call, s.procs[pid].pc.outcome)
  }

  lemma NewlyTold(s: State, l: Label, call: Call)
    requires ProcsShape(s) && Enabled(s, l) && Moves(l) && call == s.procs[l.pid].call && PcAfter(s, l).Done?
    ensures Told(TableAfter(s, l), call, PcAfter(s, l).outcome)
  {
    assert ProcShape(s.table, s.issued, s.procs[l.pid]);
  }

  ghost predicate ResolvedKept(t: Table, t': Table) {
    forall id :: id in t && Terminal(t[id]) ==> id in t' && t'[id] == t[id]
  }

  lemma ResolvedKeptStep(s: State, l: Label)
    requires Enabled(s, l)
    ensures ResolvedKept(s.table, TableAfter(s, l))
  {
    forall id | id in s.table && Terminal(s.table[id]) ensures id in TableAfter(s, l) && TableAfter(s, l)[id] == s.table[id] {
      TerminalStep(s, l, id);
    }
  }

  lemma ToldKept(t: Table, t': Table, call: Call, outcome: Outcome)
    requires Told(t, call, outcome) && ResolvedKept(t, t')
    ensures Told(t', call, outcome)
  {
  }

  lemma AllToldStep(s: State, l: Label)
    requires ProcsShape(s) && AllTold(s) && Enabled(s, l)
    ensures AllTold(Effect(s, l))
  {
    var table, procs := TableAfter(s, l), ProcsAfter(s, l);
    ResolvedKeptStep(s, l);
    forall pid | pid in procs && procs[pid].pc.Done? ensures Told(table, procs[pid].call, procs[pid].pc.outcome) {
      if Moves(l) && l.pid == pid {
        NewlyTold(s, l, s.procs[pid].call);
      } else {
        assert pid in s.procs && procs[pid] == s.procs[pid];
        ToldKept(s.table, table, procs[pid].call, procs[pid].pc.outcome);
      }
    }
  }

  // ----- together -----

  ghost predicate Inv(s: State) {
    TableShape(s) && ProcsShape(s) && TokensApart(s) && MemoryShape(s) && AllTold(s)
  }

  lemma InitInv(s: State)
    requires Init(s)
    ensures Inv(s)
  {
  }

  lemma InvStep(s: State, l: Label)
    requires Inv(s) && Enabled(s, l)
    ensures Inv(Effect(s, l))
  {
    TableShapeStep(s, l);
    ProcsShapeStep(s, l);
    TokensApartStep(s, l);
    MemoryShapeStep(s, l);
    AllToldStep(s, l);
  }
}
