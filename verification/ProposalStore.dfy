/**
 The governance store as the code has it: one object whose methods are the SQL statements, and
 `ResolveProposal` / `EnqueueProposal` in the order the source executes them. Every statement is
 proved to be exactly one step of the lease protocol, and a whole call to be a run of it.
 */
module ProposalStore {
  import opened Options
  import opened Text
  import opened LeaseClock
  import opened Proposals
  import opened LeaseProtocol
  import opened LeaseSafety

  /** What the world does during one executor run: whether the canonical and the fingerprint lookup
      fail, what the save comes to, and which of its secondary writes succeed. A save may be refused before
      it looks for repetitions, or raise later on. */
  datatype SaveResult = SavedOk | Refusal(error: string) | SaveRaised(stored: bool, error: string)
  datatype World = World(lookupFails: bool, fingerprintsFail: bool, save: SaveResult, marks: Marks)

  ghost predicate Active(memories: Memories, digest: Digest) {
    exists m :: m in memories && !memories[m].deleted && memories[m].digest == digest
  }

  /** The save finds a fingerprint of the normalised content, unless that lookup fails, or an active
      row of the layer with the digest. */
  ghost predicate IsRepetition(memories: Memories, p: Proposal, fingerprintsFail: bool) {
    p.content != "" &&
    ((!fingerprintsFail && exists k :: k in memories && memories[k].marks.fingerprinted && memories[k].digest.normal == p.digest.normal)
     || exists k :: k in memories && memories[k].marks.mirrored && !memories[k].deleted && memories[k].digest == p.digest)
  }

  lemma RepetitionIff(memories: Memories, p: Proposal, fingerprintsFail: bool)
    ensures IsRepetition(memories, p, fingerprintsFail) <==> SkipsSave(memories, p, fingerprintsFail)
  {
    if k :| k in memories && memories[k].marks.mirrored && !memories[k].deleted && memories[k].digest == p.digest {
      assert Repeats(memories[k], p, fingerprintsFail);
    }
    if !fingerprintsFail {
      if k :| k in memories && memories[k].marks.fingerprinted && memories[k].digest.normal == p.digest.normal {
        assert Repeats(memories[k], p, fingerprintsFail);
      }
    }
  }

  /** The memory of an approved insight, column by column. */
  ghost predicate IsInsightOf(m: Memory, p: Proposal, marks: Marks) {
    && m.content == p.content && m.digest == p.digest && !m.deleted && m.marks == marks
    && m.agent == "dream-engine" && m.source == "super-memory.dream.approved"
    && m.generatedBy == "dream_engine" && m.governedBy == p.id
  }

  ghost predicate WroteInsight(before: Memories, after: Memories, p: Proposal, marks: Marks) {
    && after.Keys == before.Keys + {DreamId(p.digest)} && IsInsightOf(after[DreamId(p.digest)], p, marks)
    && forall k :: k in before && k != DreamId(p.digest) ==> after[k] == before[k]
  }

  predicate Stores(save: SaveResult) {
    save.SavedOk? || (save.SaveRaised? && save.stored)
  }

  /** What the save answers and leaves behind: nothing is written for a repetition, whose answer is the
      dream id all the same. */
  ghost predicate Saved(before: Memories, after: Memories, p: Proposal, world: World, m: Option<MemoryId>) {
    if world.save.Refusal? then after == before && m == None
    else if IsRepetition(before, p, world.fingerprintsFail) then after == before && m == Some(DreamId(p.digest))
    else
      && m == (if world.save.SavedOk? then Some(DreamId(p.digest)) else None)
      && if Stores(world.save) then WroteInsight(before, after, p, world.marks) else after == before
  }

  /** What the executor answers and leaves behind: an active memory of the content, or what the save says. */
  ghost predicate RanExecutor(before: Memories, after: Memories, p: Proposal, world: World, m: Option<MemoryId>) {
    if !world.lookupFails && Active(before, p.digest) then
      after == before && m.Some? && m.value in before && !before[m.value].deleted && before[m.value].digest == p.digest
    else
      Saved(before, after, p, world, m)
  }

  /** What an approval that owns the row q makes of it: approved with what the executor answered, or
      pending again with the error it raised. */
  ghost predicate Concluded(q: Row, r: Row, now: Instant, note: string, m: Option<MemoryId>, error: string) {
    r == if m.Some? then Row(q.proposal, Approved, q.createdAt, Some(Iso(now)), Some(Take(note, 1000)), m, None, None, q.attempts, None)
         else Row(q.proposal, Pending, q.createdAt, q.resolvedAt, q.note, q.canonicalId, None, None, q.attempts, Some(error))
  }

  /** Answer, table and memories after an approval that owned the row as q. */
  ghost predicate Applied(t: Table, t': Table, before: Memories, after: Memories, q: Row, id: ProposalId, now: Instant, note: string,
                          world: World, o: Outcome)
  {
    var m := if o.ApprovedNow? then o.canonicalId else None;
    && o == (if m.Some? then ApprovedNow(m) else ApplyFailed(true))
    && RanExecutor(before, after, q.proposal, world, m)
    && t'.Keys == t.Keys && (forall k :: k in t && k != id ==> t'[k] == t[k])
    && id in t' && Concluded(q, t'[id], now, note, m, ErrorOf(world.save))
  }

  /** The same of an approval that has yet to claim its row. */
  ghost predicate Approving(t: Table, t': Table, before: Memories, after: Memories, id: ProposalId, now: Instant, note: string,
                            world: World, o: Outcome)
    requires id in t
  {
    if CanClaim(t, id, Iso(now)) then
      Applied(t, t', before, after, t[id].(attempts := t[id].attempts + 1), id, now, note, world, o)
    else
      t' == t && after == before && o == Refused(t[id], true, ApplicationInFlight(t[id].status, t[id].leaseUntil))
  }

  /** Claiming and then concluding is approving. */
  lemma LeasedThenApplied(t: Table, u: Table, t': Table, before: Memories, after: Memories, id: ProposalId, token: Token, lease: string,
                          now: Instant, note: string, world: World, o: Outcome)
    requires Leased(t, u, id, token, lease) && Applied(u, t', before, after, u[id], id, now, note, world, o)
    ensures Applied(t, t', before, after, t[id].(attempts := t[id].attempts + 1), id, now, note, world, o)
  {
  }

  ghost predicate Rejecting(t: Table, t': Table, id: ProposalId, now: Instant, note: string, o: Outcome)
    requires id in t
  {
    var r := t[id];
    if r.status.Pending? then
      && o == RejectedNow
      && t' == t[id := Row(r.proposal, Rejected, r.createdAt, Some(Iso(now)), Some(Take(note, 1000)), r.canonicalId, None, None, r.attempts, r.error)]
    else
      t' == t && o == Refused(r, false, ResolutionInFlight(r.status))
  }

  ghost predicate Leased(t: Table, t': Table, id: ProposalId, token: Token, lease: string) {
    && id in t && t'.Keys == t.Keys && (forall k :: k in t && k != id ==> t'[k] == t[k])
    && var r := t[id];
       t'[id] == Row(r.proposal, Applying, r.createdAt, r.resolvedAt, r.note, r.canonicalId, Some(token), Some(lease), r.attempts + 1, None)
  }

  /** What a call hears whose UPDATE matched nothing. */
  function Refused(r: Row, approve: bool, inFlight: Outcome): Outcome {
    if r.status.Approved? then Replay(approve, Approved, r.canonicalId)
    else if r.status.Rejected? then Replay(!approve, Rejected, r.canonicalId)
    else inFlight
  }

  /** What an undisturbed call makes of a row that exists. */
  ghost predicate Decided(t: Table, t': Table, before: Memories, after: Memories, call: Call, now: Instant, world: World, o: Outcome)
    requires !call.Enqueue? && IdOf(call) in t
  {
    match call
    case Approve(id, note, _) => Approving(t, t', before, after, id, now, note, world, o)
    case Reject(id, note) => Rejecting(t, t', id, now, note, o) && after == before
    case Enqueue(_, _) => false
  }

  function ErrorOf(save: SaveResult): string {
    if save.SavedOk? then "" else save.error
  }

  /** The labels lead from one state to the other. */
  ghost predicate Leads(s: State, labels: seq<Label>, t: State)
    decreases |labels|
  {
    if labels == [] then s == t
    else
      var n := |labels| - 1;
      exists m :: Leads(s, labels[..n], m) && Enabled(m, labels[n]) && t == Effect(m, labels[n])
  }

  lemma LeadsOn(s: State, labels: seq<Label>, m: State, l: Label, t: State)
    requires Leads(s, labels, m) && Enabled(m, l) && t == Effect(m, l)
    ensures Leads(s, labels + [l], t)
  {
    assert (labels + [l])[..|labels|] == labels;
  }

  lemma LeadsOne(s: State, l: Label, t: State)
    requires Enabled(s, l) && t == Effect(s, l)
    ensures Leads(s, [l], t)
  {
    LeadsOn(s, [], s, l, t);
    assert [] + [l] == [l];
  }

  lemma {:induction false} LeadsThrough(s: State, a: seq<Label>, m: State, b: seq<Label>, t: State)
    requires Leads(s, a, m) && Leads(m, b, t)
    ensures Leads(s, a + b, t)
    decreases |b|
  {
    if b == [] {
      assert a + b == a;
    } else {
      var n := |b| - 1;
      var k := LastStep(m, b, t);
      LeadsThrough(s, a, m, b[..n], k);
      LeadsOn(s, a + b[..n], k, b[n], t);
      assert a + b == (a + b[..n]) + [b[n]];
    }
  }

  lemma LeadsFrom(s: State, l: Label, t: State, rest: seq<Label>, u: State)
    requires Enabled(s, l) && t == Effect(s, l) && Leads(t, rest, u)
    ensures Leads(s, [l] + rest, u)
  {
    LeadsOne(s, l, t);
    LeadsThrough(s, [l], t, rest, u);
  }

  lemma LastStep(s: State, labels: seq<Label>, t: State) returns (m: State)
    requires Leads(s, labels, t) && labels != []
    ensures Leads(s, labels[..|labels| - 1], m) && Enabled(m, labels[|labels| - 1]) && t == Effect(m, labels[|labels| - 1])
  {
    m :| Leads(s, labels[..|labels| - 1], m) && Enabled(m, labels[|labels| - 1]) && t == Effect(m, labels[|labels| - 1]);
  }

  /** So a sequence of whole calls stays within the protocol's invariants. */
  lemma {:induction false} LeadsKeepsInv(s: State, labels: seq<Label>, t: State)
    requires Inv(s) && Leads(s, labels, t)
    ensures Inv(t)
    decreases |labels|
  {
    if labels != [] {
      var n := |labels| - 1;
      var m :| Leads(s, labels[..n], m) && Enabled(m, labels[n]) && t == Effect(m, labels[n]);
      LeadsKeepsInv(s, labels[..n], m);
      InvStep(m, labels[n]);
    }
  }

  /** The step that the claiming UPDATE is. */
  function ClaimLabel(t: Table, pid: ProcId, id: ProposalId, now: Instant, token: Token): Label {
    if !CanClaim(t, id, Iso(now)) then LoseClaim(pid)
    else if t[id].status.Pending? then Claim(pid, id, token)
    else TakeOver(pid, id, token)
  }

  lemma ClaimEffect(s: State, pid: ProcId, call: Call, seen: Row, now: Instant, token: Token)
    requires pid in s.procs && s.procs[pid] == Proc(call, Stamped(seen, now)) && call.Approve?
    requires token !in s.issued && InRange(LeaseEnd(now, call.leaseSeconds))
    ensures var l := ClaimLabel(s.table, pid, call.id, now, token);
      && Enabled(s, l) && MemoriesAfter(s, l) == s.memories
      && TableAfter(s, l) == (if l.LoseClaim? then s.table
           else s.table[call.id := ClaimedRow(s.table[call.id], token, Iso(LeaseEnd(now, call.leaseSeconds)))])
      && PcAfter(s, l) == if l.LoseClaim? then ClaimFailed else Claimed(now, token, seen)
  {
  }

  /** The state after the claiming UPDATE, whether it matched or not. */
  ghost function ClaimedState(s: State, pid: ProcId, call: Call, seen: Row, now: Instant, token: Token, claimed: bool): State
    requires call.Approve? && (claimed ==> call.id in s.table)
  {
    if claimed then
      State(s.clock, s.table[call.id := ClaimedRow(s.table[call.id], token, Iso(LeaseEnd(now, call.leaseSeconds)))], s.memories,
            s.issued + {token}, s.procs[pid := Proc(call, Claimed(now, token, seen))])
    else
      s.(procs := s.procs[pid := Proc(call, ClaimFailed)])
  }

  lemma ClaimIsStep(s: State, pid: ProcId, call: Call, seen: Row, now: Instant, token: Token)
    requires pid in s.procs && s.procs[pid] == Proc(call, Stamped(seen, now)) && call.Approve?
    requires token !in s.issued && InRange(LeaseEnd(now, call.leaseSeconds))
    ensures var l := ClaimLabel(s.table, pid, call.id, now, token);
      Enabled(s, l) && Effect(s, l) == ClaimedState(s, pid, call, seen, now, token, CanClaim(s.table, call.id, Iso(now)))
  {
    ClaimEffect(s, pid, call, seen, now, token);
  }

  class Store {
    var table: Table
    var memories: map<MemoryId, Memory>
    var clock: Instant
    ghost var issued: set<Token>
    ghost var procs: map<ProcId, Proc>

    ghost function View(): State
      reads this
    {
      State(clock, table, memories, issued, procs)
    }

    ghost predicate Calls(pid: ProcId, call: Call, pc: Pc)
      reads this
    {
      pid in procs && procs[pid] == Proc(call, pc)
    }

    constructor (memories: map<MemoryId, Memory>, clock: Instant)
      ensures table == map[] && this.memories == memories && this.clock == clock && issued == {} && procs == map[]
    {
      table, this.memories, this.clock, issued, procs := map[], memories, clock, {}, map[];
    }

    method GetProposal(id: ProposalId) returns (r: Option<Row>)
      ensures r == if id in table then Some(table[id]) else None
    {
      r := if id in table then Some(table[id]) else None;
    }

    // ----- the statements -----

    method RejectPending(ghost pid: ProcId, id: ProposalId, ghost seen: Row, now: Instant, note: string)
      returns (updated: bool)
      requires Calls(pid, Call.Reject(id, note), Stamped(seen, now))
      modifies this`table, this`procs
      ensures updated == CanReject(old(table), id)
      ensures var l := if updated then Label.RejectPending(pid, id) else LoseRejection(pid);
        Enabled(old(View()), l) && View() == Effect(old(View()), l)
      ensures Calls(pid, Call.Reject(id, note), if updated then Done(RejectedNow) else RejectionLost)
      ensures updated ==> Rejecting(old(table), table, id, now, note, RejectedNow)
      ensures !updated ==> table == old(table)
    {
      ghost var s := View();
      updated := id in table && table[id].status == Pending;
      procs := Effect(s, if updated then Label.RejectPending(pid, id) else LoseRejection(pid)).procs;
      if updated {
        table := table[id := RejectedRow(table[id], Iso(now), BoundedNote(note))];
      }
    }

    method Claim(ghost pid: ProcId, id: ProposalId, ghost seen: Row, now: Instant, token: Token, ghost note: string, leaseSeconds: int)
      returns (claimed: bool, ghost over: Instant)
      requires Calls(pid, Call.Approve(id, note, leaseSeconds), Stamped(seen, now))
      requires token !in issued && InRange(LeaseEnd(now, leaseSeconds))
      modifies this`table, this`procs, this`issued
      ensures claimed == CanClaim(old(table), id, Iso(now))
      ensures var l := ClaimLabel(old(table), pid, id, now, token);
        Enabled(old(View()), l) && View() == Effect(old(View()), l)
      ensures Calls(pid, Call.Approve(id, note, leaseSeconds), if claimed then Claimed(now, token, seen) else ClaimFailed)
      ensures !claimed ==> table == old(table)
      ensures over == now + 1_000_000 * (if leaseSeconds > 0 then leaseSeconds else 0)
      ensures claimed ==> Leased(old(table), table, id, token, Iso(over))
    {
      ghost var s := View();
      over := LeaseEnd(now, leaseSeconds);
      ghost var call := Call.Approve(id, note, leaseSeconds);
      ClaimIsStep(s, pid, call, seen, now, token);
      claimed := ClaimRow(id, token, Iso(now), Iso(LeaseEnd(now, leaseSeconds)));
      procs := procs[pid := Proc(call, if claimed then Claimed(now, token, seen) else ClaimFailed)];
      issued := if claimed then issued + {token} else issued;
    }

    /** The UPDATE itself. */
    method ClaimRow(id: ProposalId, token: Token, now: string, lease: string) returns (claimed: bool)
      modifies this`table
      ensures claimed == CanClaim(old(table), id, now)
      ensures table == if claimed then old(table)[id := ClaimedRow(old(table)[id], token, lease)] else old(table)
      ensures claimed ==> Leased(old(table), table, id, token, lease)
    {
      claimed := id in table && (table[id].status == Pending || (table[id].status == Applying && LeaseExpired(table[id], now)));
      if claimed {
        table := table[id := ClaimedRow(table[id], token, lease)];
      }
    }

    method Release(ghost pid: ProcId, id: ProposalId, token: Token, error: string, ghost call: Call)
      returns (released: bool)
      requires Calls(pid, call, Raised(token, error)) && IdOf(call) == id
      modifies this`table, this`procs
      ensures released == Holds(old(table), id, token)
      ensures var l := if released then Label.Release(pid, id) else LoseRelease(pid);
        Enabled(old(View()), l) && View() == Effect(old(View()), l)
      ensures Calls(pid, call, Done(ApplyFailed(released)))
    {
      ghost var s := View();
      released := id in table && table[id].status == Applying && table[id].token == Some(token);
      procs := ProcsAfter(s, if released then Label.Release(pid, id) else LoseRelease(pid));
      if released {
        table := table[id := ReleasedRow(table[id], error)];
      }
    }

    method Finalise(ghost pid: ProcId, id: ProposalId, token: Token, now: Instant, note: string, memory: MemoryId, ghost leaseSeconds: int)
      returns (finalised: bool)
      requires Calls(pid, Call.Approve(id, note, leaseSeconds), Executed(now, token, memory))
      modifies this`table, this`procs
      ensures finalised == Holds(old(table), id, token)
      ensures var l := if finalised then Label.Finalise(pid, id) else LoseFinalise(pid);
        Enabled(old(View()), l) && View() == Effect(old(View()), l)
      ensures finalised ==> Calls(pid, Call.Approve(id, note, leaseSeconds), Done(ApprovedNow(Some(memory))))
      ensures !finalised ==> Calls(pid, Call.Approve(id, note, leaseSeconds), FinaliseFailed)
    {
      ghost var s := View();
      finalised := id in table && table[id].status == Applying && table[id].token == Some(token);
      procs := ProcsAfter(s, if finalised then Label.Finalise(pid, id) else LoseFinalise(pid));
      if finalised {
        table := table[id := ApprovedRow(table[id], Iso(now), BoundedNote(note), Some(memory))];
      }
    }

    // ----- the executor -----

    method CanonicalContentExists(digest: Digest, lookupFails: bool) returns (m: Option<MemoryId>)
      ensures m.Some? ==> m.value in memories && !memories[m.value].deleted && memories[m.value].digest == digest
      ensures lookupFails ==> m.None?
      ensures m.None? && !lookupFails ==> forall k :: k in memories && !memories[k].deleted ==> memories[k].digest != digest
    {
      m := None;
      if !lookupFails && exists k :: k in memories && !memories[k].deleted && memories[k].digest == digest {
        var k :| k in memories && !memories[k].deleted && memories[k].digest == digest;
        m := Some(k);
      }
    }

    method Lookup(ghost pid: ProcId, ghost call: Call, now: Instant, token: Token, owned: Row, lookupFails: bool)
      returns (m: Option<MemoryId>)
      requires Calls(pid, call, Owned(now, token, owned))
      modifies this`procs
      ensures var l := if m.Some? then Find(pid, m.value) else Miss(pid);
        Enabled(old(View()), l) && View() == Effect(old(View()), l)
      ensures Calls(pid, call, if m.Some? then Executed(now, token, m.value) else Checked(now, token, owned))
      ensures m.Some? <==> !lookupFails && Active(memories, owned.proposal.digest)
      ensures m.Some? ==> m.value in memories && !memories[m.value].deleted && memories[m.value].digest == owned.proposal.digest
    {
      m := CanonicalContentExists(owned.proposal.digest, lookupFails);
      procs := ProcsAfter(View(), if m.Some? then Find(pid, m.value) else Miss(pid));
    }

    /** The duplicate check of the save. */
    method CheckRepetition(ghost pid: ProcId, ghost call: Call, now: Instant, token: Token, owned: Row, fingerprintsFail: bool)
      returns (skipped: bool)
      requires Calls(pid, call, Checked(now, token, owned))
      modifies this`procs
      ensures skipped == IsRepetition(memories, owned.proposal, fingerprintsFail)
      ensures var l := if skipped then SaveSkips(pid, IdOf(call)) else Clear(pid, fingerprintsFail);
        Enabled(old(View()), l) && View() == Effect(old(View()), l)
      ensures Calls(pid, call,
        if skipped then Executed(now, token, DreamId(owned.proposal.digest)) else Cleared(now, token, owned))
    {
      skipped := SkipsSave(memories, owned.proposal, fingerprintsFail);
      RepetitionIff(memories, owned.proposal, fingerprintsFail);
      procs := ProcsAfter(View(), if skipped then SaveSkips(pid, IdOf(call)) else Clear(pid, fingerprintsFail));
    }

    ghost function WriteLabel(pid: ProcId, id: ProposalId, save: SaveResult, marks: Marks): Label {
      if save.SavedOk? then Save(pid, id, marks) else SaveRaises(pid, id, Stores(save), marks, save.error)
    }

    /** The layers are written, or something raises before or after. */
    method WriteMemory(ghost pid: ProcId, ghost call: Call, now: Instant, token: Token, owned: Row, save: SaveResult, marks: Marks)
      requires Calls(pid, call, Cleared(now, token, owned))
      modifies this`memories, this`procs
      ensures Enabled(old(View()), WriteLabel(pid, IdOf(call), save, marks))
      ensures View() == Effect(old(View()), WriteLabel(pid, IdOf(call), save, marks))
      ensures Calls(pid, call, if save.SavedOk? then Executed(now, token, DreamId(owned.proposal.digest)) else Raised(token, save.error))
      ensures if Stores(save) then WroteInsight(old(memories), memories, owned.proposal, marks) else memories == old(memories)
    {
      procs := ProcsAfter(View(), WriteLabel(pid, IdOf(call), save, marks));
      if Stores(save) {
        memories := memories[DreamId(owned.proposal.digest) := DreamMemory(owned.proposal, marks)];
      }
    }

    /** SuperMemoryService.save of the insight. A skipped save reports success, and the executor returns
        the dream id whether or not anything was written under it. */
    method SaveMemory(ghost pid: ProcId, ghost call: Call, now: Instant, token: Token, owned: Row, world: World)
      returns (m: Option<MemoryId>, ghost trace: seq<Label>)
      requires Calls(pid, call, Checked(now, token, owned))
      modifies this`memories, this`procs
      ensures Leads(old(View()), trace, View())
      ensures m.Some? ==> m.value == DreamId(owned.proposal.digest) && Calls(pid, call, Executed(now, token, m.value))
      ensures m.None? ==> !world.save.SavedOk? && Calls(pid, call, Raised(token, world.save.error))
      ensures Saved(old(memories), memories, owned.proposal, world, m)
    {
      ghost var s := View();
      if world.save.Refusal? {
        ghost var refused := SaveRaises(pid, IdOf(call), false, world.marks, world.save.error);
        procs := ProcsAfter(s, refused);
        LeadsOne(s, refused, View());
        return None, [refused];
      }
      var skipped := CheckRepetition(pid, call, now, token, owned, world.fingerprintsFail);
      ghost var t := View();
      ghost var l := if skipped then SaveSkips(pid, IdOf(call)) else Clear(pid, world.fingerprintsFail);
      LeadsOne(s, l, t);
      trace := [l];
      if skipped {
        return Some(DreamId(owned.proposal.digest)), trace;
      }
      WriteMemory(pid, call, now, token, owned, world.save, world.marks);
      LeadsOn(s, trace, t, WriteLabel(pid, IdOf(call), world.save, world.marks), View());
      trace := trace + [WriteLabel(pid, IdOf(call), world.save, world.marks)];
      m := if world.save.SavedOk? then Some(DreamId(owned.proposal.digest)) else None;
    }

    /** _save_approved_dream, with the steps it takes. */
    method SaveApprovedDream(ghost pid: ProcId, ghost call: Call, now: Instant, token: Token, owned: Row, world: World)
      returns (m: Option<MemoryId>, ghost trace: seq<Label>)
      requires Calls(pid, call, Owned(now, token, owned))
      modifies this`memories, this`procs
      ensures Leads(old(View()), trace, View())
      ensures m.Some? ==> Calls(pid, call, Executed(now, token, m.value))
      ensures m.None? ==> !world.save.SavedOk? && Calls(pid, call, Raised(token, world.save.error))
      ensures RanExecutor(old(memories), memories, owned.proposal, world, m)
    {
      ghost var s := View();
      m := Lookup(pid, call, now, token, owned, world.lookupFails);
      ghost var t := View();
      ghost var l := if m.Some? then Find(pid, m.value) else Miss(pid);
      LeadsOne(s, l, t);
      trace := [l];
      if m.None? {
        ghost var saving;
        m, saving := SaveMemory(pid, call, now, token, owned, world);
        LeadsThrough(s, trace, t, saving, View());
        trace := trace + saving;
      }
    }

    // ----- resolve_proposal -----

    /** The call starts and reads its row. */
    method Open(ghost pid: ProcId, call: Call) returns (pc: Pc, ghost trace: seq<Label>)
      requires pid !in procs
      modifies this`procs
      ensures pc == AfterRead(table, call) && Calls(pid, call, pc)
      ensures Leads(old(View()), trace, View())
    {
      ghost var s := View();
      procs := ProcsAfter(s, Spawn(pid, call));
      ghost var t := View();
      LeadsOne(s, Spawn(pid, call), t);
      pc := AfterRead(table, call);
      procs := ProcsAfter(t, Read(pid));
      LeadsOn(s, [Spawn(pid, call)], t, Read(pid), View());
      trace := [Spawn(pid, call)] + [Read(pid)];
    }

    /** now_dt = datetime.now(timezone.utc) */
    method ReadClock(ghost pid: ProcId, ghost call: Call, ghost seen: Row) returns (now: Instant)
      requires Calls(pid, call, Seen(seen))
      modifies this`procs
      ensures now == clock && Calls(pid, call, Stamped(seen, now))
      ensures Enabled(old(View()), Stamp(pid)) && View() == Effect(old(View()), Stamp(pid))
    {
      now := clock;
      procs := ProcsAfter(View(), Stamp(pid));
    }

    /** The read after an UPDATE that changed nothing. */
    method ReadAgain(ghost pid: ProcId, call: Call, lost: Pc) returns (o: Outcome)
      requires Calls(pid, call, lost) && IdOf(call) in table && !call.Enqueue?
      requires lost.RejectionLost? || lost.ClaimFailed? || lost.FinaliseFailed?
      modifies this`procs
      ensures Enabled(old(View()), Label.ReadAgain(pid)) && View() == Effect(old(View()), Label.ReadAgain(pid))
      ensures Calls(pid, call, Done(o))
      ensures lost.ClaimFailed? ==> o == Refused(table[IdOf(call)], call.Approve?, ApplicationInFlight(table[IdOf(call)].status, table[IdOf(call)].leaseUntil))
      ensures lost.RejectionLost? ==> o == Refused(table[IdOf(call)], call.Approve?, ResolutionInFlight(table[IdOf(call)].status))
    {
      var r := table[IdOf(call)];
      procs := ProcsAfter(View(), Label.ReadAgain(pid));
      if Terminal(r) && (!lost.FinaliseFailed? || r.status == Approved) {
        o := ReplayOf(call, r);
      } else if lost.RejectionLost? {
        o := ResolutionInFlight(r.status);
      } else if lost.ClaimFailed? {
        o := ApplicationInFlight(r.status, r.leaseUntil);
      } else {
        o := OwnershipLost(r.status, r.canonicalId);
      }
    }

    /** The replay of a lost call, as a run. */
    method ReplayLost(ghost pid: ProcId, call: Call, lost: Pc) returns (o: Outcome, ghost trace: seq<Label>)
      requires Calls(pid, call, lost) && IdOf(call) in table && !call.Enqueue?
      requires lost.RejectionLost? || lost.ClaimFailed? || lost.FinaliseFailed?
      modifies this`procs
      ensures Leads(old(View()), trace, View()) && Calls(pid, call, Done(o))
      ensures lost.ClaimFailed? ==> o == Refused(table[IdOf(call)], call.Approve?, ApplicationInFlight(table[IdOf(call)].status, table[IdOf(call)].leaseUntil))
      ensures lost.RejectionLost? ==> o == Refused(table[IdOf(call)], call.Approve?, ResolutionInFlight(table[IdOf(call)].status))
    {
      ghost var s := View();
      o := ReadAgain(pid, call, lost);
      trace := [Label.ReadAgain(pid)];
      LeadsOne(s, Label.ReadAgain(pid), View());
    }

    method Reject(ghost pid: ProcId, id: ProposalId, note: string, seen: Row, now: Instant)
      returns (o: Outcome, ghost trace: seq<Label>)
      requires Calls(pid, Call.Reject(id, note), Stamped(seen, now)) && id in table
      modifies this`table, this`procs
      ensures Leads(old(View()), trace, View()) && Calls(pid, Call.Reject(id, note), Done(o))
      ensures Rejecting(old(table), table, id, now, note, o)
    {
      ghost var s := View();
      var updated := RejectPending(pid, id, seen, now, note);
      ghost var t := View();
      ghost var l := if updated then Label.RejectPending(pid, id) else LoseRejection(pid);
      LeadsOne(s, l, t);
      if updated {
        return RejectedNow, [l];
      }
      ghost var rest;
      o, rest := ReplayLost(pid, Call.Reject(id, note), RejectionLost);
      LeadsThrough(s, [l], t, rest, View());
      trace := [l] + rest;
    }

    /** Load the claimed row and run the executor on it. */
    method Execute(ghost pid: ProcId, ghost call: Call, id: ProposalId, now: Instant, token: Token, ghost before: Row, world: World)
      returns (m: Option<MemoryId>, ghost trace: seq<Label>)
      requires Calls(pid, call, Claimed(now, token, before)) && IdOf(call) == id && id in table
      modifies this`memories, this`procs
      ensures Leads(old(View()), trace, View())
      ensures m.Some? ==> Calls(pid, call, Executed(now, token, m.value))
      ensures m.None? ==> !world.save.SavedOk? && Calls(pid, call, Raised(token, world.save.error))
      ensures RanExecutor(old(memories), memories, table[id].proposal, world, m)
    {
      ghost var s := View();
      var found := GetProposal(id);
      var owned := found.value;
      procs := ProcsAfter(s, Load(pid));
      ghost var t := View();
      LeadsOne(s, Load(pid), t);
      m, trace := SaveApprovedDream(pid, call, now, token, owned, world);
      LeadsThrough(s, [Load(pid)], t, trace, View());
      trace := [Load(pid)] + trace;
    }

    /** Finalise what the executor returned, or release the claim if it raised. */
    method Conclude(ghost pid: ProcId, id: ProposalId, note: string, leaseSeconds: int, now: Instant, token: Token, m: Option<MemoryId>, error: string)
      returns (o: Outcome, ghost l: Label)
      requires Holds(table, id, token)
      requires Calls(pid, Call.Approve(id, note, leaseSeconds), if m.Some? then Executed(now, token, m.value) else Raised(token, error))
      modifies this`table, this`procs
      ensures Enabled(old(View()), l) && View() == Effect(old(View()), l)
      ensures Calls(pid, Call.Approve(id, note, leaseSeconds), Done(o))
      ensures o == if m.Some? then ApprovedNow(m) else ApplyFailed(true)
      ensures table.Keys == old(table).Keys && Concluded(old(table[id]), table[id], now, note, m, error)
      ensures forall k :: k in table && k != id ==> table[k] == old(table)[k]
    {
      if m.None? {
        var released := Release(pid, id, token, error, Call.Approve(id, note, leaseSeconds));
        return ApplyFailed(released), Label.Release(pid, id);
      }
      var finalised := Finalise(pid, id, token, now, note, m.value, leaseSeconds);
      return ApprovedNow(m), Label.Finalise(pid, id);
    }

    /** After a won claim: load the row, run the executor, then release or finalise. */
    method Apply(ghost pid: ProcId, id: ProposalId, note: string, leaseSeconds: int, now: Instant, token: Token, before: Row, world: World)
      returns (o: Outcome, ghost trace: seq<Label>)
      requires Calls(pid, Call.Approve(id, note, leaseSeconds), Claimed(now, token, before)) && Holds(table, id, token)
      modifies this`table, this`procs, this`memories
      ensures Leads(old(View()), trace, View()) && Calls(pid, Call.Approve(id, note, leaseSeconds), Done(o))
      ensures Applied(old(table), table, old(memories), memories, old(table[id]), id, now, note, world, o)
    {
      ghost var s := View();
      var m;
      m, trace := Execute(pid, Call.Approve(id, note, leaseSeconds), id, now, token, before, world);
      ghost var t, l := View(), Load(pid);
      o, l := Conclude(pid, id, note, leaseSeconds, now, token, m, ErrorOf(world.save));
      LeadsOn(s, trace, t, l, View());
      trace := trace + [l];
    }

    /** The same, seen from the table before the claim. */
    method ApplyLeased(ghost pid: ProcId, id: ProposalId, note: string, leaseSeconds: int, now: Instant, token: Token, before: Row, world: World,
                       ghost t: Table, ghost lease: string)
      returns (o: Outcome, ghost trace: seq<Label>)
      requires Calls(pid, Call.Approve(id, note, leaseSeconds), Claimed(now, token, before)) && Holds(table, id, token)
      requires Leased(t, table, id, token, lease)
      modifies this`table, this`procs, this`memories
      ensures Leads(old(View()), trace, View()) && Calls(pid, Call.Approve(id, note, leaseSeconds), Done(o))
      ensures Applied(t, table, old(memories), memories, t[id].(attempts := t[id].attempts + 1), id, now, note, world, o)
    {
      ghost var u, stored := table, memories;
      o, trace := Apply(pid, id, note, leaseSeconds, now, token, before, world);
      LeasedThenApplied(t, u, table, stored, memories, id, token, lease, now, note, world, o);
    }

    method Approve(ghost pid: ProcId, id: ProposalId, note: string, leaseSeconds: int, seen: Row, now: Instant, token: Token, world: World)
      returns (o: Outcome, ghost trace: seq<Label>)
      requires Calls(pid, Call.Approve(id, note, leaseSeconds), Stamped(seen, now)) && id in table
      requires token !in issued && InRange(LeaseEnd(now, leaseSeconds))
      modifies this`table, this`procs, this`memories, this`issued
      ensures Leads(old(View()), trace, View()) && Calls(pid, Call.Approve(id, note, leaseSeconds), Done(o))
      ensures Approving(old(table), table, old(memories), memories, id, now, note, world, o)
    {
      ghost var s := View();
      ghost var l := ClaimLabel(table, pid, id, now, token);
      var claimed;
      ghost var over;
      claimed, over := Claim(pid, id, seen, now, token, note, leaseSeconds);
      ghost var t := View();
      ghost var rest;
      o, rest := AfterClaim(pid, id, note, leaseSeconds, now, token, seen, world, claimed, s.table, Iso(over));
      LeadsFrom(s, l, t, rest, View());
      trace := [l] + rest;
    }

    method AfterClaim(ghost pid: ProcId, id: ProposalId, note: string, leaseSeconds: int, now: Instant, token: Token, before: Row, world: World,
                      claimed: bool, ghost t: Table, ghost lease: string)
      returns (o: Outcome, ghost trace: seq<Label>)
      requires Calls(pid, Call.Approve(id, note, leaseSeconds), if claimed then Claimed(now, token, before) else ClaimFailed)
      requires id in t && claimed == CanClaim(t, id, Iso(now))
      requires if claimed then Holds(table, id, token) && Leased(t, table, id, token, lease) else table == t
      modifies this`table, this`procs, this`memories
      ensures Leads(old(View()), trace, View()) && Calls(pid, Call.Approve(id, note, leaseSeconds), Done(o))
      ensures Approving(t, table, old(memories), memories, id, now, note, world, o)
    {
      if claimed {
        o, trace := ApplyLeased(pid, id, note, leaseSeconds, now, token, before, world, t, lease);
      } else {
        o, trace := ReplayLost(pid, Call.Approve(id, note, leaseSeconds), ClaimFailed);
      }
    }

    /** The call once it has read an open row. */
    method Decide(ghost pid: ProcId, call: Call, seen: Row, token: Token, world: World)
      returns (o: Outcome, ghost trace: seq<Label>)
      requires Calls(pid, call, Seen(seen)) && !call.Enqueue? && IdOf(call) in table && !Terminal(table[IdOf(call)])
      requires token !in issued && (call.Approve? ==> InRange(LeaseEnd(clock, call.leaseSeconds)))
      modifies this`table, this`procs, this`memories, this`issued
      ensures Leads(old(View()), trace, View()) && Calls(pid, call, Done(o))
      ensures Decided(old(table), table, old(memories), memories, call, clock, world, o)
    {
      ghost var s := View();
      var now := ReadClock(pid, call, seen);
      ghost var t := View();
      LeadsOne(s, Stamp(pid), t);
      ghost var rest;
      if call.Reject? {
        o, rest := Reject(pid, call.id, call.note, seen, now);
      } else {
        o, rest := Approve(pid, call.id, call.note, call.leaseSeconds, seen, now, token, world);
      }
      LeadsThrough(s, [Stamp(pid)], t, rest, View());
      trace := [Stamp(pid)] + rest;
    }

    /** One whole call, with no other caller in between. */
    method ResolveProposal(ghost pid: ProcId, call: Call, token: Token, world: World)
      returns (o: Outcome, ghost trace: seq<Label>)
      requires pid !in procs && token !in issued && !call.Enqueue?
      requires call.Approve? ==> InRange(LeaseEnd(clock, call.leaseSeconds))
      modifies this`table, this`procs, this`memories, this`issued
      ensures Leads(old(View()), trace, View()) && Calls(pid, call, Done(o))
      ensures IdOf(call) !in old(table) ==> o == NotFound && table == old(table) && memories == old(memories)
      ensures IdOf(call) in old(table) ==> Decided(old(table), table, old(memories), memories, call, clock, world, o)
    {
      ghost var s := View();
      var pc;
      pc, trace := Open(pid, call);
      if pc.Done? {
        return pc.outcome, trace;
      }
      ghost var t := View();
      ghost var rest;
      o, rest := Decide(pid, call, pc.row, token, world);
      LeadsThrough(s, trace, t, rest, View());
      trace := trace + rest;
    }

    /** One whole enqueue. `Created` is reported even when the row appeared in between. */
    method EnqueueProposal(ghost pid: ProcId, p: Proposal, dryRun: bool) returns (o: Outcome, ghost trace: seq<Label>)
      requires pid !in procs
      modifies this`table, this`procs
      ensures Leads(old(View()), trace, View()) && pid in procs && procs[pid].pc == Done(o)
      ensures table == if dryRun then old(table) else InsertOrIgnore(old(table), p, Iso(clock))
      ensures o == if p.id in old(table) then Deduplicated else if dryRun then Previewed else Created
    {
      ghost var s := View();
      var pc;
      pc, trace := Open(pid, Enqueue(p, dryRun));
      if pc.Done? {
        return pc.outcome, trace;
      }
      ghost var t := View();
      procs := ProcsAfter(t, Insert(pid));
      table := InsertOrIgnore(table, p, Iso(clock));
      LeadsOn(s, trace, t, Insert(pid), View());
      trace := trace + [Insert(pid)];
      o := Created;
    }
  }
}
