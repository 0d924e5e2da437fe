/**
 What the dream cycle queues never feeds back into what it reads, so running it again on the same
 rows queues nothing, whatever was approved, rejected, retried or abandoned in between.
 */
module CycleTheorems {
  import opened Proposals
  import opened LeaseProtocol
  import opened LeaseSafety
  import opened DreamPlan
  import opened ProposalStore
  import opened DreamCycle

  // ----- when a cycle has nothing to do -----

  /** A proposal with a row, or whose content is already canonical, is dealt with. */
  ghost predicate Settled(t: Table, memories: Memories, p: Proposal) {
    p.id in t || Active(memories, p.digest)
  }

  ghost predicate AllSettled(t: Table, memories: Memories, plan: seq<Candidate>) {
    forall i :: 0 <= i < |plan| && Passes(plan[i]) ==> Settled(t, memories, plan[i].proposal)
  }

  lemma {:induction false} WantedExactly(plan: seq<Candidate>, memories: Memories, fails: nat -> bool, n: nat, p: Proposal)
    requires n <= |plan|
    ensures p in Wanted(plan, memories, fails, n) <==>
      exists i :: 0 <= i < n && Passes(plan[i]) && plan[i].proposal == p && (fails(i) || !Active(memories, p.digest))
  {
    if n > 0 {
      WantedExactly(plan, memories, fails, n - 1, p);
    }
  }

  lemma {:induction false} InsertAllKeys(t: Table, ps: seq<Proposal>, now: string)
    ensures forall id :: id in InsertAll(t, ps, now) <==> id in t || exists p :: p in ps && p.id == id
    ensures forall id :: id in t ==> InsertAll(t, ps, now)[id] == t[id]
    ensures (forall p :: p in ps ==> p.id in t) <==> InsertAll(t, ps, now) == t
  {
    if ps != [] {
      var n := |ps| - 1;
      InsertAllKeys(t, ps[..n], now);
      assert forall p :: p in ps <==> p in ps[..n] || p == ps[n];
    }
  }

  /** With working lookups a cycle changes nothing exactly if every candidate that passes the gates
      already has a row or a canonical memory. */
  lemma QuietIff(t: Table, memories: Memories, plan: seq<Candidate>, fails: nat -> bool, now: string)
    requires forall i: nat :: !fails(i)
    ensures InsertAll(t, Wanted(plan, memories, fails, |plan|), now) == t <==> AllSettled(t, memories, plan)
  {
    var wanted := Wanted(plan, memories, fails, |plan|);
    InsertAllKeys(t, wanted, now);
    forall i | 0 <= i < |plan| && Passes(plan[i]) && !Active(memories, plan[i].proposal.digest)
      ensures plan[i].proposal in wanted
    {
      WantedExactly(plan, memories, fails, |plan|, plan[i].proposal);
    }
    forall p | p in wanted
      ensures exists i :: 0 <= i < |plan| && Passes(plan[i]) && plan[i].proposal == p && !Active(memories, p.digest)
    {
      WantedExactly(plan, memories, fails, |plan|, p);
    }
  }

  /** A real cycle settles every candidate, even when lookups fail. */
  lemma CycleSettles(t: Table, memories: Memories, plan: seq<Candidate>, fails: nat -> bool, now: string)
    ensures AllSettled(InsertAll(t, Wanted(plan, memories, fails, |plan|), now), memories, plan)
  {
    var wanted := Wanted(plan, memories, fails, |plan|);
    InsertAllKeys(t, wanted, now);
    forall i | 0 <= i < |plan| && Passes(plan[i])
      ensures Settled(InsertAll(t, wanted, now), memories, plan[i].proposal)
    {
      WantedExactly(plan, memories, fails, |plan|, plan[i].proposal);
    }
  }

  // ----- no feedback -----

  /** The steps that change what the next cycle reads. */
  ghost predicate Edits(s: State, l: Label) {
    || (l.SaveOther? && Human(l.saved))
    || (l.SoftDelete? && l.memory in s.memories && Human(s.memories[l.memory]))
  }

  /** A deletion that can reopen p: of an active memory with its content, while p has no row. */
  ghost predicate Reopens(s: State, l: Label, p: Proposal) {
    && l.SoftDelete? && l.memory in s.memories && p.id !in s.table
    && !s.memories[l.memory].deleted && s.memories[l.memory].digest == p.digest
  }

  lemma HumanRowsStep(s: State, l: Label)
    requires DreamIdShape(s.memories) && Enabled(s, l) && !Edits(s, l)
    ensures HumanRows(MemoriesAfter(s, l)) == HumanRows(s.memories)
  {
    var after := MemoriesAfter(s, l);
    forall m ensures m in after && Human(after[m]) <==> m in s.memories && Human(s.memories[m]) {
      assert m in s.memories && m.DreamId? ==> s.memories[m].agent == "dream-engine";
    }
  }

  lemma SettledStep(s: State, l: Label, p: Proposal)
    requires DreamIdShape(s.memories) && Enabled(s, l) && !Reopens(s, l, p) && Settled(s.table, s.memories, p)
    ensures Settled(TableAfter(s, l), MemoriesAfter(s, l), p)
  {
    if p.id in s.table {
      TerminalStep(s, l, p.id);
    } else {
      var m :| m in s.memories && !s.memories[m].deleted && s.memories[m].digest == p.digest;
      MemoryStep(s, l, m);
      assert !MemoriesAfter(s, l)[m].deleted;
    }
  }

  ghost predicate NoEdits(labels: seq<Label>, states: seq<State>)
    requires |labels| <= |states|
  {
    forall i :: 0 <= i < |labels| ==> !Edits(states[i], labels[i])
  }

  ghost predicate NeverReopened(labels: seq<Label>, states: seq<State>, p: Proposal)
    requires |labels| <= |states|
  {
    forall i :: 0 <= i < |labels| ==> !Reopens(states[i], labels[i], p)
  }

  lemma {:induction false} InvStays(labels: seq<Label>, states: seq<State>, k: nat)
    requires Steps(labels, states) && k <= |labels| && Inv(states[0])
    ensures Inv(states[k])
  {
    if k > 0 {
      InvStays(labels, states, k - 1);
      assert StepAt(labels, states, k - 1);
      InvStep(states[k - 1], labels[k - 1]);
    }
  }

  lemma {:induction false} HumanRowsStay(labels: seq<Label>, states: seq<State>, k: nat)
    requires Steps(labels, states) && k <= |labels| && Inv(states[0]) && NoEdits(labels, states)
    ensures HumanRows(states[k].memories) == HumanRows(states[0].memories)
  {
    if k > 0 {
      HumanRowsStay(labels, states, k - 1);
      InvStays(labels, states, k - 1);
      assert StepAt(labels, states, k - 1);
      HumanRowsStep(states[k - 1], labels[k - 1]);
    }
  }

  lemma {:induction false} SettledStays(labels: seq<Label>, states: seq<State>, k: nat, p: Proposal)
    requires Steps(labels, states) && k <= |labels| && Inv(states[0]) && NeverReopened(labels, states, p)
    requires Settled(states[0].table, states[0].memories, p)
    ensures Settled(states[k].table, states[k].memories, p)
  {
    if k > 0 {
      SettledStays(labels, states, k - 1, p);
      InvStays(labels, states, k - 1);
      assert StepAt(labels, states, k - 1);
      SettledStep(states[k - 1], labels[k - 1], p);
    }
  }

  ghost predicate NoneReopened(labels: seq<Label>, states: seq<State>, plan: seq<Candidate>)
    requires |labels| <= |states|
  {
    forall i :: 0 <= i < |plan| && Passes(plan[i]) ==> NeverReopened(labels, states, plan[i].proposal)
  }

  lemma AllSettledStays(labels: seq<Label>, states: seq<State>, plan: seq<Candidate>)
    requires Steps(labels, states) && Inv(states[0]) && NoneReopened(labels, states, plan)
    requires AllSettled(states[0].table, states[0].memories, plan)
    ensures AllSettled(states[|labels|].table, states[|labels|].memories, plan)
  {
    forall i | 0 <= i < |plan| && Passes(plan[i])
      ensures Settled(states[|labels|].table, states[|labels|].memories, plan[i].proposal)
    {
      SettledStays(labels, states, |labels|, plan[i].proposal);
    }
  }

  lemma SettledCovers(t: Table, memories: Memories, first: seq<Candidate>, second: seq<Candidate>)
    requires AllSettled(t, memories, first) && Covers(first, second)
    ensures AllSettled(t, memories, second)
  {
    forall j | 0 <= j < |second| && Passes(second[j]) ensures Settled(t, memories, second[j].proposal) {
      var i :| 0 <= i < |first| && Passes(first[i])
        && first[i].proposal.id == second[j].proposal.id && first[i].proposal.digest == second[j].proposal.digest;
      assert Settled(t, memories, first[i].proposal);
    }
  }

  /** Idempotence. The run starts where a cycle left off; any calls may approve, reject, retry, crash or
      re-enqueue, and generated memories may come and go, unless one is deleted whose proposal has no
      row. Then a cycle on the same human-origin rows, read in another order and under another run key,
      leaves the table as it is. */
  lemma SecondCycleIsQuiet(
      st: Settings, read: Reader, key: RunKey, max: int, fails: nat -> bool, now: string, before: Table,
      labels: seq<Label>, states: seq<State>,
      read': Reader, key': RunKey, max': int, fails': nat -> bool, now': string)
    requires Steps(labels, states) && Inv(states[0])
    requires var plan := Plan(st, key, read(HumanRows(states[0].memories)), max);
      && states[0].table == InsertAll(before, Wanted(plan, states[0].memories, fails, |plan|), now)
      && NoneReopened(labels, states, plan)
    requires NoEdits(labels, states)
    requires SameRows(read(HumanRows(states[0].memories)), read'(HumanRows(states[0].memories))) && max' <= max
    requires forall i: nat :: !fails'(i)
    ensures var last := states[|labels|];
      var plan' := Plan(st, key', read'(HumanRows(last.memories)), max');
      InsertAll(last.table, Wanted(plan', last.memories, fails', |plan'|), now') == last.table
  {
    var first, last := states[0], states[|labels|];
    var xs, ys := read(HumanRows(first.memories)), read'(HumanRows(last.memories));
    var plan, plan' := Plan(st, key, xs, max), Plan(st, key', ys, max');
    HumanRowsStay(labels, states, |labels|);
    CycleSettles(before, first.memories, plan, fails, now);
    AllSettledStays(labels, states, plan);
    SameRowsCover(st, key, key', xs, ys, max, max');
    SettledCovers(last.table, last.memories, plan, plan');
    QuietIff(last.table, last.memories, plan', fails', now');
  }

  // ----- with the second cycle interleaved -----

  lemma {:induction false} RowStays(labels: seq<Label>, states: seq<State>, j: nat, k: nat, id: ProposalId)
    requires Steps(labels, states) && j <= k <= |labels| && id in states[j].table
    ensures id in states[k].table
    decreases k
  {
    if j < k {
      RowStays(labels, states, j, k - 1, id);
      assert StepAt(labels, states, k - 1);
      TerminalStep(states[k - 1], labels[k - 1], id);
    }
  }

  /** A proposal with a row is never inserted again, whatever is deleted meanwhile: deleting an
      approved insight does not bring its proposal back. */
  lemma KnownIsNeverInserted(labels: seq<Label>, states: seq<State>, j: nat, k: nat, p: Proposal, dryRun: bool)
    requires Steps(labels, states) && j <= k <= |labels| && p.id in states[j].table
    ensures AfterRead(states[k].table, Enqueue(p, dryRun)) == Done(Deduplicated)
  {
    RowStays(labels, states, j, k, p.id);
  }

  /** Idempotence with every step of the second cycle interleaved with other calls: a settled
      candidate is skipped at the lookup or found by the read that follows it. */
  lemma SettledIsNeverInserted(labels: seq<Label>, states: seq<State>, j: nat, k: nat, p: Proposal, dryRun: bool)
    requires Steps(labels, states) && Inv(states[0]) && NeverReopened(labels, states, p) && j <= k <= |labels|
    requires Settled(states[0].table, states[0].memories, p)
    ensures Active(states[j].memories, p.digest) || AfterRead(states[k].table, Enqueue(p, dryRun)) == Done(Deduplicated)
  {
    SettledStays(labels, states, j, p);
    if p.id in states[j].table {
      KnownIsNeverInserted(labels, states, j, k, p, dryRun);
    }
  }

  /** Call i of a cycle with this plan: a candidate that passed the gates, whose content no working
      lookup had found at some moment before, is offered to the queue. */
  ghost predicate Offered(labels: seq<Label>, states: seq<State>, plan: seq<Candidate>, i: nat)
    requires i < |labels| < |states|
  {
    labels[i].Spawn? && labels[i].call.Enqueue? && exists c: nat, j: nat :: c < |plan| && j <= i && OfferOf(labels, states, plan, i, c, j)
  }

  ghost predicate OfferOf(labels: seq<Label>, states: seq<State>, plan: seq<Candidate>, i: nat, c: nat, j: nat)
    requires i < |labels| < |states| && c < |plan| && j <= i && labels[i].Spawn? && labels[i].call.Enqueue?
  {
    Passes(plan[c]) && labels[i].call.proposal == plan[c].proposal && !Active(states[j].memories, plan[c].proposal.digest)
  }

  lemma OfferedIsKnown(labels: seq<Label>, states: seq<State>, plan: seq<Candidate>, i: nat)
    requires Steps(labels, states) && Inv(states[0]) && NoneReopened(labels, states, plan)
    requires AllSettled(states[0].table, states[0].memories, plan)
    requires i < |labels| && Offered(labels, states, plan, i)
    ensures labels[i].call.proposal.id in states[i].table
  {
    var c: nat, j: nat :| c < |plan| && j <= i && OfferOf(labels, states, plan, i, c, j);
    SettledStays(labels, states, j, plan[c].proposal);
    RowStays(labels, states, j, i, plan[c].proposal.id);
  }

  /** An enqueueing call that has yet to read a row that exists, or is done. */
  ghost predicate Idle(s: State, pid: ProcId, call: Call) {
    pid in s.procs && s.procs[pid].call == call && call.Enqueue? && IdOf(call) in s.table && (At(s, pid).Start? || At(s, pid).Done?)
  }

  lemma IdleStep(s: State, l: Label, pid: ProcId, call: Call)
    requires Enabled(s, l) && Idle(s, pid, call)
    ensures Idle(Effect(s, l), pid, call)
  {
    TerminalStep(s, l, IdOf(call));
    if Moves(l) && l.pid == pid {
      IdleMove(s, l);
    }
  }

  lemma IdleMove(s: State, l: Label)
    requires Enabled(s, l) && Moves(l) && Idle(s, l.pid, s.procs[l.pid].call)
    ensures PcAfter(s, l).Done? && TableAfter(s, l) == s.table
  {
    assert l.Read? || l.Crash?;
  }

  lemma {:induction false} IdleStays(labels: seq<Label>, states: seq<State>, i: nat, k: nat, pid: ProcId, call: Call)
    requires Steps(labels, states) && i <= k <= |labels| && Idle(states[i], pid, call)
    ensures Idle(states[k], pid, call)
    decreases k
  {
    if i < k {
      IdleStays(labels, states, i, k - 1, pid, call);
      assert StepAt(labels, states, k - 1);
      IdleStep(states[k - 1], labels[k - 1], pid, call);
    }
  }

  lemma SpawnedIdle(labels: seq<Label>, states: seq<State>, i: nat)
    requires Steps(labels, states) && i < |labels| && labels[i].Spawn? && labels[i].call.Enqueue?
    requires IdOf(labels[i].call) in states[i].table
    ensures Idle(states[i + 1], labels[i].pid, labels[i].call)
  {
    assert StepAt(labels, states, i);
  }

  lemma OfferedStoresNothing(labels: seq<Label>, states: seq<State>, plan: seq<Candidate>, i: nat, k: nat)
    requires Steps(labels, states) && Inv(states[0]) && NoneReopened(labels, states, plan)
    requires AllSettled(states[0].table, states[0].memories, plan)
    requires i < k < |labels| && Offered(labels, states, plan, i) && Moves(labels[k]) && labels[k].pid == labels[i].pid
    ensures states[k + 1].table == states[k].table
  {
    OfferedIsKnown(labels, states, plan, i);
    SpawnedIdle(labels, states, i);
    IdleStays(labels, states, i + 1, k, labels[i].pid, labels[i].call);
    assert StepAt(labels, states, k);
    IdleMove(states[k], labels[k]);
  }

  /** The cycle that reads at step t of the run, makes its plan, and offers what it finds new, while any
      other calls go on between its steps: no step of any of its calls changes the table. */
  lemma InterleavedCycleIsQuiet(
      st: Settings, read: Reader, key: RunKey, max: int, fails: nat -> bool, now: string, before: Table,
      labels: seq<Label>, states: seq<State>, t: nat, read': Reader, key': RunKey, max': int, calls: set<nat>)
    requires Steps(labels, states) && Inv(states[0]) && t <= |labels|
    requires var plan := Plan(st, key, read(HumanRows(states[0].memories)), max);
      && states[0].table == InsertAll(before, Wanted(plan, states[0].memories, fails, |plan|), now)
      && NoneReopened(labels, states, plan)
    requires NoEdits(labels[..t], states)
    requires SameRows(read(HumanRows(states[0].memories)), read'(HumanRows(states[0].memories))) && max' <= max
    requires forall i :: i in calls ==>
      t <= i < |labels| && Offered(labels, states, Plan(st, key', read'(HumanRows(states[t].memories)), max'), i)
    ensures forall i, k: nat :: i in calls && i < k < |labels| && labels[i].Spawn? && Moves(labels[k]) && labels[k].pid == labels[i].pid ==>
      states[k + 1].table == states[k].table
  {
    var s := states[0];
    var xs, ys := read(HumanRows(s.memories)), read'(HumanRows(states[t].memories));
    var plan, plan' := Plan(st, key, xs, max), Plan(st, key', ys, max');
    SameHumanRows(labels, states, t);
    CycleSettles(before, s.memories, plan, fails, now);
    SameRowsCover(st, key, key', xs, ys, max, max');
    SettledCovers(s.table, s.memories, plan, plan');
    ReopenedCovers(labels, states, plan, plan');
    forall i, k: nat | i in calls && i < k < |labels| && labels[i].Spawn? && Moves(labels[k]) && labels[k].pid == labels[i].pid
      ensures states[k + 1].table == states[k].table
    {
      OfferedStoresNothing(labels, states, plan', i, k);
    }
  }

  lemma SameHumanRows(labels: seq<Label>, states: seq<State>, t: nat)
    requires Steps(labels, states) && Inv(states[0]) && t <= |labels| && NoEdits(labels[..t], states)
    ensures HumanRows(states[t].memories) == HumanRows(states[0].memories)
  {
    var labels', states' := labels[..t], states[..t + 1];
    forall i: nat | i < t ensures StepAt(labels', states', i) {
      assert StepAt(labels, states, i);
    }
    HumanRowsStay(labels', states', t);
  }

  lemma ReopenedCovers(labels: seq<Label>, states: seq<State>, first: seq<Candidate>, second: seq<Candidate>)
    requires |labels| <= |states| && NoneReopened(labels, states, first) && Covers(first, second)
    ensures NoneReopened(labels, states, second)
  {
    forall j | 0 <= j < |second| && Passes(second[j]) ensures NeverReopened(labels, states, second[j].proposal) {
      var i :| 0 <= i < |first| && Passes(first[i])
        && first[i].proposal.id == second[j].proposal.id && first[i].proposal.digest == second[j].proposal.digest;
      assert NeverReopened(labels, states, first[i].proposal);
    }
  }
}
