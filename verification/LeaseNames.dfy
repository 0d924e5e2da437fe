/**
 What an approved row names. The executor reports the dream id of the content even when the save it
 called wrote nothing, because it took the content for a repetition. This module says when the id is
 that of a stored memory.
 */
module LeaseNames {
  import opened Options
  import opened Proposals
  import opened LeaseProtocol
  import opened LeaseSafety
  import opened LeaseTheorems
  import opened LeaseEffects

  /** The last step a call has taken. */
  lemma {:induction false} LastMove(labels: seq<Label>, states: seq<State>, n: nat, pid: ProcId) returns (e: nat)
    requires Run(labels, states) && n <= |labels| && pid in states[n].procs && !At(states[n], pid).Start?
    ensures e < n && Moves(labels[e]) && labels[e].pid == pid && pid in states[e].procs
    ensures At(states[e + 1], pid) == At(states[n], pid) && states[e].procs[pid].call == states[n].procs[pid].call
  {
    LastMoveRunStep(labels, states, n - 1, pid);
    if Moves(labels[n - 1]) && labels[n - 1].pid == pid {
      e := n - 1;
    } else {
      e := LastMove(labels, states, n - 1, pid);
    }
  }

  lemma LastMoveRunStep(labels: seq<Label>, states: seq<State>, i: nat, pid: ProcId)
    requires Steps(labels, states) && i < |labels| && pid in states[i + 1].procs && !At(states[i + 1], pid).Start?
    ensures pid in states[i].procs && states[i].procs[pid].call == states[i + 1].procs[pid].call
    ensures !(Moves(labels[i]) && labels[i].pid == pid) ==> states[i + 1].procs[pid] == states[i].procs[pid]
  {
    assert StepAt(labels, states, i);
    LastMoveStep(states[i], labels[i], pid);
  }

  lemma LastMoveStep(s: State, l: Label, pid: ProcId)
    requires Enabled(s, l) && pid in ProcsAfter(s, l) && !ProcsAfter(s, l)[pid].pc.Start?
    ensures pid in s.procs && s.procs[pid].call == ProcsAfter(s, l)[pid].call
    ensures !(Moves(l) && l.pid == pid) ==> ProcsAfter(s, l)[pid] == s.procs[pid]
  {
  }

  /** How a call came to its executed state, or to the brink of writing. */
  lemma ExecutingStep(labels: seq<Label>, states: seq<State>, e: nat, pid: ProcId)
    requires Steps(labels, states) && e < |labels| && Moves(labels[e]) && labels[e].pid == pid
    ensures At(states[e + 1], pid).Executed? ==> labels[e].Find? || labels[e].Save? || labels[e].SaveSkips?
    ensures At(states[e + 1], pid).Cleared? ==> labels[e].Clear?
    ensures labels[e].Save? ==> At(states[e], pid).Cleared?
  {
    assert StepAt(labels, states, e);
  }

  /** The step at which the executor decided what to return: it found a memory, or the save took the
      content for a repetition, or found that it was none. */
  ghost predicate Decides(l: Label, pid: ProcId) {
    (l.Find? || l.SaveSkips? || l.Clear?) && l.pid == pid
  }

  lemma DecidingStep(labels: seq<Label>, states: seq<State>, n: nat, pid: ProcId) returns (e: nat, w: nat)
    requires Run(labels, states) && n <= |labels| && pid in states[n].procs && At(states[n], pid).Executed?
    ensures e <= w < n && Decides(labels[e], pid) && pid in states[e].procs && Moves(labels[w]) && labels[w].pid == pid
    ensures states[e].procs[pid].call == states[n].procs[pid].call && At(states[w + 1], pid) == At(states[n], pid)
    ensures if labels[e].Clear? then labels[w].Save? && At(states[e + 1], pid) == At(states[w], pid) else e == w
  {
    w := LastMove(labels, states, n, pid);
    ExecutingStep(labels, states, w, pid);
    e := w;
    if labels[w].Save? {
      e := LastMove(labels, states, w, pid);
      ExecutingStep(labels, states, e, pid);
    }
  }

  /** The finalising step of an approved row. */
  lemma {:induction false} FinalisingStep(labels: seq<Label>, states: seq<State>, n: nat, id: ProposalId) returns (f: nat, pid: ProcId)
    requires Run(labels, states) && n <= |labels| && id in states[n].table && states[n].table[id].status.Approved?
    ensures f < n && labels[f] == Finalise(pid, id) && pid in states[f].procs && Subject(states[f], pid) == id
    ensures At(states[f], pid).Executed? && states[n].table[id].canonicalId == Some(At(states[f], pid).memory)
  {
    ApprovedRunStep(labels, states, n - 1, id);
    if labels[n - 1].Finalise? && labels[n - 1].id == id {
      f, pid := n - 1, labels[n - 1].pid;
    } else {
      f, pid := FinalisingStep(labels, states, n - 1, id);
    }
  }

  /** The row was approved by this step, or is the row it was. */
  ghost predicate ApprovedNowOrBefore(s: State, l: Label, id: ProposalId, r: Row) {
    if l.Finalise? && l.id == id then
      l.pid in s.procs && Subject(s, l.pid) == id && At(s, l.pid).Executed? && r.canonicalId == Some(At(s, l.pid).memory)
    else
      id in s.table && s.table[id] == r
  }

  lemma ApprovedStep(s: State, l: Label, id: ProposalId)
    requires Enabled(s, l) && id in TableAfter(s, l) && TableAfter(s, l)[id].status.Approved?
    ensures ApprovedNowOrBefore(s, l, id, TableAfter(s, l)[id])
  {
  }

  lemma ApprovedRunStep(labels: seq<Label>, states: seq<State>, i: nat, id: ProposalId)
    requires Steps(labels, states) && i < |labels| && id in states[i + 1].table && states[i + 1].table[id].status.Approved?
    ensures ApprovedNowOrBefore(states[i], labels[i], id, states[i + 1].table[id])
  {
    assert StepAt(labels, states, i);
    ApprovedStep(states[i], labels[i], id);
  }

  /** What the deciding step saw of the proposal's content, and what it made the executor return. */
  ghost predicate Decided(s: State, l: Label, p: Proposal, pc: Pc) {
    match l
    case Find(_, m) => pc.Executed? && pc.memory == m && Stored(s.memories, m, p.digest) && !s.memories[m].deleted
    case SaveSkips(_, _) => pc.Executed? && pc.memory == DreamId(p.digest) && SkipsSave(s.memories, p, false)
    case Clear(_, lookupRaised) => pc.Cleared? && pc.row.proposal == p && !SkipsSave(s.memories, p, lookupRaised)
    case _ => false
  }

  lemma DecisionStep(s: State, l: Label)
    requires ProcsShape(s) && Enabled(s, l) && (l.Find? || l.SaveSkips? || l.Clear?)
    ensures Subject(s, l.pid) in s.table && Decided(s, l, s.table[Subject(s, l.pid)].proposal, PcAfter(s, l))
  {
    assert ProcShape(s.table, s.issued, s.procs[l.pid]);
  }

  lemma Decision(labels: seq<Label>, states: seq<State>, e: nat, pid: ProcId)
    requires Run(labels, states) && e < |labels| && Decides(labels[e], pid) && pid in states[e].procs
    ensures Subject(states[e], pid) in states[e].table
    ensures Decided(states[e], labels[e], states[e].table[Subject(states[e], pid)].proposal, At(states[e + 1], pid))
  {
    InvAlways(labels, states, e);
    assert StepAt(labels, states, e);
    DecisionStep(states[e], labels[e]);
  }

  lemma SavedStep(labels: seq<Label>, states: seq<State>, w: nat)
    requires Steps(labels, states) && w < |labels| && labels[w].Save?
    ensures At(states[w], labels[w].pid).Cleared? && At(states[w + 1], labels[w].pid).Executed?
    ensures var d := At(states[w], labels[w].pid).row.proposal.digest;
      At(states[w + 1], labels[w].pid).memory == DreamId(d) && DreamId(d) in states[w + 1].memories
  {
    assert StepAt(labels, states, w);
  }

  /** A dream memory that appears was created by a save of its digest. */
  lemma {:induction false} AppearsBySave(labels: seq<Label>, states: seq<State>, e: nat, n: nat, digest: Digest)
    requires Run(labels, states) && e <= n <= |labels| && DreamId(digest) !in states[e].memories
    ensures DreamId(digest) in states[n].memories <==> exists j: nat :: e <= j < n && Creates(states[j], labels[j], digest)
    decreases n
  {
    if e < n {
      AppearsBySave(labels, states, e, n - 1, digest);
      if DreamId(digest) in states[n - 1].memories {
        MemoryKept(labels, states, n - 1, n, DreamId(digest));
      } else {
        assert StepAt(labels, states, n - 1);
        CreatingStep(states[n - 1], labels[n - 1], digest);
      }
    }
  }

  lemma CreatingStep(s: State, l: Label, digest: Digest)
    requires Enabled(s, l) && DreamId(digest) !in s.memories
    ensures DreamId(digest) in MemoriesAfter(s, l) <==> Creates(s, l, digest)
  {
  }

  /** Exactly when the memory an approved row names is stored. The executor decided at step e on this
      proposal: it found a memory, or went on to write one, unless the save took the content for a
      repetition, which with a working fingerprint lookup it does exactly if SkipsSave holds there.
      Then the named id is stored only if it was already, or is created by another save. */
  lemma ApprovedNameIff(labels: seq<Label>, states: seq<State>, n: nat, id: ProposalId) returns (e: nat, pid: ProcId)
    requires Run(labels, states) && n <= |labels| && id in states[n].table && states[n].table[id].status.Approved?
    ensures states[n].table[id].canonicalId.Some?
    ensures e < n && Decides(labels[e], pid) && pid in states[e].procs && Subject(states[e], pid) == id
    ensures var r := states[n].table[id];
      && (labels[e].Find? ==> exists m :: Stored(states[e].memories, m, r.proposal.digest) && !states[e].memories[m].deleted)
      && (labels[e].SaveSkips? ==> SkipsSave(states[e].memories, r.proposal, false))
      && (labels[e].Clear? ==> !SkipsSave(states[e].memories, r.proposal, labels[e].lookupRaised))
      && (Stored(states[n].memories, r.canonicalId.value, r.proposal.digest) <==>
            (labels[e].SaveSkips? ==>
              DreamId(r.proposal.digest) in states[e].memories
              || exists j: nat :: e <= j < n && Creates(states[j], labels[j], r.proposal.digest)))
  {
    var f;
    f, pid := FinalisingStep(labels, states, n, id);
    var w;
    e, w := DecidingStep(labels, states, f, pid);
    Decision(labels, states, e, pid);
    RowKept(labels, states, e, n, id);
    NamedIffStored(labels, states, e, w, n, pid, states[n].table[id].proposal.digest, At(states[w + 1], pid).memory);
  }

  lemma NamedIffStored(labels: seq<Label>, states: seq<State>, e: nat, w: nat, n: nat, pid: ProcId, digest: Digest, m: MemoryId)
    requires Run(labels, states) && e <= w < n <= |labels| && Decides(labels[e], pid) && pid in states[e].procs && Moves(labels[w]) && labels[w].pid == pid
    requires Subject(states[e], pid) in states[e].table && states[e].table[Subject(states[e], pid)].proposal.digest == digest
    requires if labels[e].Clear? then labels[w].Save? && At(states[e + 1], pid) == At(states[w], pid) else e == w
    requires At(states[w + 1], pid).Executed? && At(states[w + 1], pid).memory == m
    ensures Stored(states[n].memories, m, digest) <==>
      (labels[e].SaveSkips? ==>
        DreamId(digest) in states[e].memories || exists j: nat :: e <= j < n && Creates(states[j], labels[j], digest))
  {
    Decision(labels, states, e, pid);
    if labels[e].Find? {
      MemoryKept(labels, states, e, n, m);
    } else if labels[e].Clear? {
      SavedStep(labels, states, w);
      MemoryKept(labels, states, w + 1, n, m);
      DreamIdExact(labels, states, n, digest);
    } else if DreamId(digest) in states[e].memories {
      MemoryKept(labels, states, e, n, m);
      DreamIdExact(labels, states, n, digest);
    } else {
      AppearsBySave(labels, states, e, n, digest);
      DreamIdExact(labels, states, n, digest);
    }
  }

  lemma DreamIdExact(labels: seq<Label>, states: seq<State>, n: nat, digest: Digest)
    requires Run(labels, states) && n <= |labels|
    ensures DreamId(digest) in states[n].memories <==> Stored(states[n].memories, DreamId(digest), digest)
  {
    InvAlways(labels, states, n);
  }

  // ----- whether the content itself is stored, under any id -----

  ghost predicate ContentStored(memories: Memories, digest: Digest) {
    exists m :: Stored(memories, m, digest)
  }

  /** A save by an executor or by another component brings the content in. */
  ghost predicate Adds(s: State, l: Label, digest: Digest) {
    Enabled(s, l) && ((Saves(l) && At(s, l.pid).row.proposal.digest == digest) || (l.SaveOther? && l.saved.digest == digest))
  }

  lemma AddingStep(s: State, l: Label, digest: Digest)
    requires DreamIdShape(s.memories) && Enabled(s, l)
    ensures ContentStored(MemoriesAfter(s, l), digest) <==> ContentStored(s.memories, digest) || Adds(s, l, digest)
  {
    var after := MemoriesAfter(s, l);
    if m :| Stored(s.memories, m, digest) {
      MemoryStep(s, l, m);
      assert Stored(after, m, digest);
    }
    if Adds(s, l, digest) {
      assert Stored(after, if Saves(l) then DreamId(digest) else OtherId(l.name), digest);
    }
    if m :| Stored(after, m, digest) {
      assert Stored(s.memories, m, digest) || Adds(s, l, digest);
    }
  }

  lemma {:induction false} ContentAppears(labels: seq<Label>, states: seq<State>, e: nat, n: nat, digest: Digest)
    requires Run(labels, states) && e <= n <= |labels|
    ensures ContentStored(states[n].memories, digest) <==>
      ContentStored(states[e].memories, digest) || exists j: nat :: e <= j < n && Adds(states[j], labels[j], digest)
    decreases n
  {
    if e < n {
      ContentAppears(labels, states, e, n - 1, digest);
      InvAlways(labels, states, n - 1);
      assert StepAt(labels, states, n - 1);
      AddingStep(states[n - 1], labels[n - 1], digest);
    }
  }

  /** Exactly when the content of an approved row is stored at all: not if its save was skipped, for
      the sake of a merely similar or deleted text, while nothing else ever stores it. */
  lemma ApprovedContentIff(labels: seq<Label>, states: seq<State>, n: nat, id: ProposalId) returns (e: nat, pid: ProcId)
    requires Run(labels, states) && n <= |labels| && id in states[n].table && states[n].table[id].status.Approved?
    ensures e < n && Decides(labels[e], pid) && pid in states[e].procs && Subject(states[e], pid) == id
    ensures var digest := states[n].table[id].proposal.digest;
      ContentStored(states[n].memories, digest) <==>
        (labels[e].SaveSkips? ==>
          ContentStored(states[e].memories, digest) || exists j: nat :: e <= j < n && Adds(states[j], labels[j], digest))
  {
    var r := states[n].table[id];
    e, pid := ApprovedNameIff(labels, states, n, id);
    ContentAppears(labels, states, e, n, r.proposal.digest);
  }
}
