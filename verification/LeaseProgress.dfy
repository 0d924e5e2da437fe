/** No proposal is ever stuck: once the clock reaches the stored lease, one undisturbed approval
    whose executor does not raise ends approved. */
module LeaseProgress {
  import opened Finite
  import opened Options
  import opened LeaseClock
  import opened Proposals
  import opened LeaseProtocol
  import opened LeaseSafety
  import opened LeaseTheorems

  /** A step of call pid itself, other than dying or raising. */
  predicate Undisturbed(l: Label, pid: ProcId) {
    !Ambient(l) && !l.Spawn? && !l.Crash? && !l.SaveRaises? && l.pid == pid
  }

  /** Steps an approval still has to take, at most. */
  function Rank(pc: Pc): nat {
    match pc
    case Start => 8
    case Seen(_) => 7
    case Stamped(_, _) => 6
    case Claimed(_, _, _) => 5
    case Owned(_, _, _) => 4
    case Checked(_, _, _) => 3
    case Cleared(_, _, _) => 2
    case Executed(_, _, _) => 1
    case _ => 0
  }

  ghost predicate Takeable(t: Table, call: Call, now: Instant)
    requires call.Approve?
  {
    CanClaim(t, IdOf(call), Iso(now)) && InRange(now) && InRange(LeaseEnd(now, call.leaseSeconds))
  }

  ghost predicate OnCourseAt(t: Table, clock: Instant, call: Call, pc: Pc)
    requires call.Approve?
  {
    match pc
    case Start => Takeable(t, call, clock)
    case Seen(_) => Takeable(t, call, clock)
    case Stamped(_, now) => Takeable(t, call, now)
    case Claimed(_, token, _) => Holds(t, call.id, token)
    case Owned(_, token, _) => Holds(t, call.id, token)
    case Checked(_, token, _) => Holds(t, call.id, token)
    case Cleared(_, token, _) => Holds(t, call.id, token)
    case Executed(_, token, _) => Holds(t, call.id, token)
    case Done(o) => o.ApprovedNow? && call.id in t && t[call.id].status.Approved?
    case _ => false
  }

  /** The approval is on its way: it can still claim the row, holds it, or has approved it. */
  ghost predicate OnCourse(s: State, pid: ProcId) {
    pid in s.procs && s.procs[pid].call.Approve? && OnCourseAt(s.table, s.clock, s.procs[pid].call, s.procs[pid].pc)
  }

  /** The stages of an approval before, at, and after its claim. */
  predicate Reading(pc: Pc) {
    pc.Start? || pc.Seen?
  }

  lemma ReadingMoves(s: State, l: Label, pid: ProcId)
    requires Enabled(s, l) && Undisturbed(l, pid) && Reading(At(s, pid))
    ensures l == if At(s, pid).Start? then Read(pid) else Stamp(pid)
  {
  }

  lemma CourseReads(s: State, pid: ProcId)
    requires OnCourse(s, pid) && At(s, pid).Start?
    ensures PcAfter(s, Read(pid)).Seen?
  {
  }

  lemma CourseToStamp(s: State, l: Label, pid: ProcId, pc: Pc)
    requires Enabled(s, l) && Undisturbed(l, pid) && OnCourse(s, pid) && pc == At(s, pid) && Reading(pc)
    ensures OnCourseAt(TableAfter(s, l), s.clock, s.procs[pid].call, PcAfter(s, l))
    ensures Rank(PcAfter(s, l)) < Rank(pc)
  {
    ReadingMoves(s, l, pid);
    if pc.Start? {
      CourseReads(s, pid);
    } else {
      assert PcAfter(s, Stamp(pid)) == Stamped(pc.row, s.clock);
    }
  }

  lemma StampedMoves(s: State, l: Label, pid: ProcId)
    requires Enabled(s, l) && Undisturbed(l, pid) && OnCourse(s, pid) && At(s, pid).Stamped?
    ensures l.Claim? || l.TakeOver?
  {
  }

  lemma CourseClaims(s: State, l: Label, pid: ProcId, pc: Pc)
    requires Enabled(s, l) && Undisturbed(l, pid) && OnCourse(s, pid) && pc == At(s, pid) && pc.Stamped?
    ensures OnCourseAt(TableAfter(s, l), s.clock, s.procs[pid].call, PcAfter(s, l))
    ensures Rank(PcAfter(s, l)) < Rank(pc)
  {
    StampedMoves(s, l, pid);
    assert PcAfter(s, l) == Claimed(pc.now, l.token, pc.row);
  }

  lemma CourseFromClaim(s: State, l: Label, pid: ProcId, pc: Pc)
    requires Enabled(s, l) && Undisturbed(l, pid) && OnCourse(s, pid) && pc == At(s, pid) && !Reading(pc) && !pc.Stamped?
    ensures OnCourseAt(TableAfter(s, l), s.clock, s.procs[pid].call, PcAfter(s, l))
    ensures Rank(PcAfter(s, l)) < Rank(pc)
  {
  }

  /** Every choice the world can make keeps the approval on course and brings it closer. */
  lemma CourseStep(s: State, l: Label, pid: ProcId)
    requires Enabled(s, l) && Undisturbed(l, pid) && OnCourse(s, pid)
    ensures OnCourse(Effect(s, l), pid)
    ensures Rank(At(Effect(s, l), pid)) < Rank(At(s, pid))
  {
    var pc := At(s, pid);
    if Reading(pc) {
      CourseToStamp(s, l, pid, pc);
    } else if pc.Stamped? {
      CourseClaims(s, l, pid, pc);
    } else {
      CourseFromClaim(s, l, pid, pc);
    }
  }

  /** Until it is done, the approval can always take a step that does not raise. */
  lemma CourseContinues(s: State, pid: ProcId) returns (l: Label)
    requires OnCourse(s, pid) && !At(s, pid).Done?
    ensures Enabled(s, l) && Undisturbed(l, pid)
  {
    var id := IdOf(s.procs[pid].call);
    match s.procs[pid].pc
    case Start => l := Read(pid);
    case Seen(_) => l := Stamp(pid);
    case Stamped(_, _) =>
      var token := FreshNat(s.issued);
      l := if s.table[id].status.Pending? then Claim(pid, id, token) else TakeOver(pid, id, token);
    case Claimed(_, _, _) => l := Load(pid);
    case Owned(_, _, _) => l := Miss(pid);
    case Checked(_, _, r) => l := if SkipsSave(s.memories, r.proposal, false) then SaveSkips(pid, id) else Clear(pid, false);
    case Cleared(_, _, _) => l := Save(pid, id, Marks(true, true));
    case Executed(_, _, _) => l := Finalise(pid, id);
  }

  /** Any undisturbed stretch of an approval on course: at most eight steps, and when the call has
      returned the row is approved. */
  lemma {:induction false} UndisturbedApproval(labels: seq<Label>, states: seq<State>, pid: ProcId)
    requires Steps(labels, states) && OnCourse(states[0], pid)
    requires forall k :: 0 <= k < |labels| ==> Undisturbed(labels[k], pid)
    ensures OnCourse(states[|labels|], pid)
    ensures |labels| + Rank(At(states[|labels|], pid)) <= Rank(At(states[0], pid)) <= 8
    ensures At(states[|labels|], pid).Done? ==>
      var id := IdOf(states[|labels|].procs[pid].call);
      id in states[|labels|].table && states[|labels|].table[id].status.Approved?
  {
    if labels != [] {
      var n := |labels| - 1;
      StepsPrefix(labels, states, n);
      UndisturbedApproval(labels[..n], states[..n + 1], pid);
      assert StepAt(labels, states, n);
      CourseStep(states[n], labels[n], pid);
    }
  }

  lemma StepsPrefix(labels: seq<Label>, states: seq<State>, n: nat)
    requires Steps(labels, states) && n <= |labels|
    ensures Steps(labels[..n], states[..n + 1])
  {
    var labels', states' := labels[..n], states[..n + 1];
    forall i: nat | i < n ensures StepAt(labels', states', i) {
      assert StepAt(labels, states, i);
    }
  }

  /** From any reachable state with an unresolved row there is an instant, the stored lease, such that
      at any later clock reading a new approval is on course, whoever holds the row and however
      many callers have died. */
  lemma NeverStuck(labels: seq<Label>, states: seq<State>, id: ProposalId) returns (lease: Instant)
    requires Run(labels, states) && id in states[|labels|].table && !Terminal(states[|labels|].table[id])
    ensures states[|labels|].table[id].leaseUntil == (if states[|labels|].table[id].status.Pending? then None else Some(Iso(lease)))
    ensures InRange(lease)
    ensures forall now, pid, note, seconds |
      lease <= now && states[|labels|].clock <= now && InRange(now) && InRange(LeaseEnd(now, seconds)) && pid !in states[|labels|].procs ::
      OnCourse(Launched(states[|labels|], now, pid, Approve(id, note, seconds)), pid)
  {
    InvAlways(labels, states, |labels|);
    var s := states[|labels|];
    assert RowShape(s.table[id], s.issued);
    assert InRange(0);
    lease := 0;
    if s.table[id].status.Applying? {
      lease :| InRange(lease) && s.table[id].leaseUntil.value == Iso(lease);
    }
    forall now | lease <= now && InRange(now) ensures CanClaim(s.table, id, Iso(now)) {
      IsoOrder(lease, now);
    }
  }

  /** The state after the clock has ticked and the call has started. */
  ghost function Launched(s: State, now: Instant, pid: ProcId, call: Call): State {
    s.(clock := now, procs := s.procs[pid := Proc(call, Start)])
  }

  lemma LaunchedIsTwoSteps(s: State, now: Instant, pid: ProcId, call: Call)
    requires s.clock <= now && InRange(now) && pid !in s.procs
    ensures Enabled(s, Tick(now)) && Enabled(Effect(s, Tick(now)), Spawn(pid, call))
    ensures Effect(Effect(s, Tick(now)), Spawn(pid, call)) == Launched(s, now, pid, call)
  {
  }

  /** An approval on course can be run to its end. */
  lemma {:induction false} RunToEnd(labels: seq<Label>, states: seq<State>, pid: ProcId, call: Call)
    returns (more: seq<Label>, states': seq<State>)
    requires Run(labels, states) && OnCourse(states[|labels|], pid) && states[|labels|].procs[pid].call == call
    ensures Run(labels + more, states') && |more| <= Rank(At(states[|labels|], pid))
    ensures forall k :: 0 <= k < |more| ==> Undisturbed(more[k], pid)
    ensures IdOf(call) in states'[|labels + more|].table && states'[|labels + more|].table[IdOf(call)].status.Approved?
    decreases Rank(At(states[|labels|], pid))
  {
    if At(states[|labels|], pid).Done? {
      more, states' := [], states;
      assert labels + [] == labels;
    } else {
      var l := CourseContinues(states[|labels|], pid);
      CourseStep(states[|labels|], l, pid);
      SubjectStep(states[|labels|], l, pid);
      ExtendRun(labels, states, l);
      var rest;
      rest, states' := RunToEnd(labels + [l], states + [Effect(states[|labels|], l)], pid, call);
      more := [l] + rest;
      assert labels + more == (labels + [l]) + rest;
    }
  }

  lemma Launch(labels: seq<Label>, states: seq<State>, now: Instant, pid: ProcId, call: Call) returns (states': seq<State>)
    requires Run(labels, states) && states[|labels|].clock <= now && InRange(now) && pid !in states[|labels|].procs
    ensures Run(labels + [Tick(now), Spawn(pid, call)], states')
    ensures states'[|labels| + 2] == Launched(states[|labels|], now, pid, call)
  {
    var s := states[|labels|];
    LaunchedIsTwoSteps(s, now, pid, call);
    ExtendRun(labels, states, Tick(now));
    var t := Effect(s, Tick(now));
    ExtendRun(labels + [Tick(now)], states + [t], Spawn(pid, call));
    states' := states + [t] + [Effect(t, Spawn(pid, call))];
    assert labels + [Tick(now)] + [Spawn(pid, call)] == labels + [Tick(now), Spawn(pid, call)];
  }

  ghost predicate Launches(labels: seq<Label>, states: seq<State>, pid: ProcId, call: Call) {
    && Run(labels, states) && OnCourse(states[|labels|], pid)
    && states[|labels|].procs[pid] == Proc(call, Start)
  }

  /** Once the clock has reached the lease, a new approval of an open proposal is on course. */
  lemma LaunchOnCourse(labels: seq<Label>, states: seq<State>, id: ProposalId, note: string)
    returns (now: Instant, pid: ProcId, states': seq<State>)
    requires Run(labels, states) && id in states[|labels|].table && !Terminal(states[|labels|].table[id])
    ensures Launches(labels + [Tick(now), Spawn(pid, Approve(id, note, 0))], states', pid, Approve(id, note, 0))
  {
    now, pid := ReadyToLaunch(labels, states, id, note);
    states' := Launch(labels, states, now, pid, Approve(id, note, 0));
    assert |labels + [Tick(now), Spawn(pid, Approve(id, note, 0))]| == |labels| + 2;
  }

  lemma ReadyToLaunch(labels: seq<Label>, states: seq<State>, id: ProposalId, note: string) returns (now: Instant, pid: ProcId)
    requires Run(labels, states) && id in states[|labels|].table && !Terminal(states[|labels|].table[id])
    ensures states[|labels|].clock <= now && InRange(now) && pid !in states[|labels|].procs
    ensures OnCourse(Launched(states[|labels|], now, pid, Approve(id, note, 0)), pid)
  {
    var s := states[|labels|];
    var lease := NeverStuck(labels, states, id);
    ClockInRange(labels, states);
    now := if lease <= s.clock then s.clock else lease;
    pid := FreshNat(s.procs.Keys);
    assert LeaseEnd(now, 0) == now;
  }

  lemma ClockInRange(labels: seq<Label>, states: seq<State>)
    requires Run(labels, states)
    ensures InRange(states[|labels|].clock)
  {
    InvAlways(labels, states, |labels|);
  }

  /** The whole promise: every run that ends with an open proposal extends, by one tick of the clock,
      one new call and at most eight of its steps, to a run in which the proposal is approved. */
  lemma OpenCanBeApproved(labels: seq<Label>, states: seq<State>, id: ProposalId, note: string)
    returns (now: Instant, pid: ProcId, more: seq<Label>, states': seq<State>)
    requires Run(labels, states) && id in states[|labels|].table && !Terminal(states[|labels|].table[id])
    ensures var all := labels + [Tick(now), Spawn(pid, Approve(id, note, 0))] + more;
      && Run(all, states') && |more| <= 8 && (forall k :: 0 <= k < |more| ==> Undisturbed(more[k], pid))
      && id in states'[|all|].table && states'[|all|].table[id].status.Approved?
  {
    var launched;
    now, pid, launched := LaunchOnCourse(labels, states, id, note);
    more, states' := RunToEnd(labels + [Tick(now), Spawn(pid, Approve(id, note, 0))], launched, pid, Approve(id, note, 0));
  }

  /** Before the lease runs out nobody but its holder can move an applying row. */
  lemma LeaseExcludes(labels: seq<Label>, states: seq<State>, id: ProposalId, i: nat, lease: Instant)
    requires Run(labels, states) && i < |labels|
    requires id in states[i].table && states[i].table[id].leaseUntil == Some(Iso(lease))
    requires InRange(lease) && states[i].clock < lease
    ensures id in states[i + 1].table
    ensures states[i + 1].table[id] != states[i].table[id] ==>
      (labels[i].Release? || labels[i].Finalise?) && HeldToken(At(states[i], labels[i].pid)) == states[i].table[id].token
  {
    InvAlways(labels, states, i);
    assert RowShape(states[i].table[id], states[i].issued);
    NobodySeesExpiry(labels, states, i, states[i].table[id], lease);
    assert StepAt(labels, states, i);
    HeldStep(states[i], labels[i], id);
  }

  ghost predicate StillLeased(s: State, r: Row) {
    forall pid :: pid in s.procs && s.procs[pid].pc.Stamped? ==> !LeaseExpired(r, Iso(s.procs[pid].pc.now))
  }

  lemma NobodySeesExpiry(labels: seq<Label>, states: seq<State>, i: nat, r: Row, lease: Instant)
    requires Run(labels, states) && i <= |labels| && r.leaseUntil == Some(Iso(lease)) && InRange(lease) && states[i].clock < lease
    ensures StillLeased(states[i], r)
  {
    StampedInPast(labels, states, i);
    forall pid | pid in states[i].procs && states[i].procs[pid].pc.Stamped?
      ensures !LeaseExpired(r, Iso(states[i].procs[pid].pc.now))
    {
      IsoOrder(lease, states[i].procs[pid].pc.now);
    }
  }

  lemma HeldStep(s: State, l: Label, id: ProposalId)
    requires Enabled(s, l) && id in s.table && s.table[id].status.Applying? && s.table[id].token.Some?
    requires StillLeased(s, s.table[id])
    ensures id in TableAfter(s, l)
    ensures TableAfter(s, l)[id] == s.table[id]
         || ((l.Release? || l.Finalise?) && l.pid in s.procs && HeldToken(At(s, l.pid)) == s.table[id].token)
  {
  }

  lemma {:induction false} StampedInPast(labels: seq<Label>, states: seq<State>, n: nat)
    requires Run(labels, states) && n <= |labels|
    ensures forall pid :: pid in states[n].procs ==> InPast(states[n].clock, states[n].procs[pid].pc)
  {
    if n != 0 {
      StampedInPast(labels, states, n - 1);
      InvAlways(labels, states, n - 1);
      assert StepAt(labels, states, n - 1);
      StampStep(states[n - 1], labels[n - 1]);
    }
  }

  ghost predicate InPast(clock: Instant, pc: Pc) {
    pc.Stamped? ==> pc.now <= clock && InRange(pc.now)
  }

  lemma StampStep(s: State, l: Label)
    requires Enabled(s, l) && InRange(s.clock)
    requires forall pid :: pid in s.procs ==> InPast(s.clock, s.procs[pid].pc)
    ensures forall pid :: pid in ProcsAfter(s, l) ==> InPast(Effect(s, l).clock, ProcsAfter(s, l)[pid].pc)
  {
    if Moves(l) {
      StampMoves(s, l);
    }
    forall pid | pid in ProcsAfter(s, l) ensures InPast(Effect(s, l).clock, ProcsAfter(s, l)[pid].pc) {
      assert pid in s.procs ==> InPast(s.clock, s.procs[pid].pc);
    }
  }

  lemma StampMoves(s: State, l: Label)
    requires Enabled(s, l) && InRange(s.clock) && Moves(l) && InPast(s.clock, At(s, l.pid))
    ensures InPast(s.clock, PcAfter(s, l))
  {
  }
}
