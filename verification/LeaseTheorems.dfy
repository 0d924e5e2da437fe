/** What holds over whole runs of the lease protocol, for every interleaving. */
module LeaseTheorems {
  import opened Options
  import opened Proposals
  import opened LeaseProtocol
  import opened LeaseSafety

  lemma InvAlways(labels: seq<Label>, states: seq<State>, n: nat)
    requires Run(labels, states) && n <= |labels|
    ensures Inv(states[n])
  {
    if n == 0 {
      InitInv(states[0]);
    } else {
      InvAlways(labels, states, n - 1);
      assert StepAt(labels, states, n - 1);
      InvStep(states[n - 1], labels[n - 1]);
    }
  }

  // ----- one resolution -----

  predicate Resolves(l: Label, id: ProposalId) {
    (l.RejectPending? || l.Finalise?) && l.id == id
  }

  /** Rows are never deleted, their proposal never changes, and a terminal row is frozen. */
  lemma RowKept(labels: seq<Label>, states: seq<State>, i: nat, j: nat, id: ProposalId)
    requires Steps(labels, states) && i <= j <= |labels| && id in states[i].table
    ensures id in states[j].table
    ensures states[j].table[id].proposal == states[i].table[id].proposal
    ensures Terminal(states[i].table[id]) ==> states[j].table[id] == states[i].table[id]
    decreases j - i
  {
    if i < j {
      assert StepAt(labels, states, i);
      TerminalStep(states[i], labels[i], id);
      RowKept(labels, states, i + 1, j, id);
    }
  }

  lemma ResolvingStep(labels: seq<Label>, states: seq<State>, i: nat, id: ProposalId)
    requires Steps(labels, states) && i < |labels| && Resolves(labels[i], id)
    ensures id in states[i].table && !Terminal(states[i].table[id])
    ensures id in states[i + 1].table && Terminal(states[i + 1].table[id])
  {
    assert StepAt(labels, states, i);
  }

  /** In any interleaving at most one rejecting or finalising UPDATE succeeds per proposal. */
  lemma ResolvedOnce(labels: seq<Label>, states: seq<State>, i: nat, j: nat, id: ProposalId)
    requires Steps(labels, states) && i < |labels| && j < |labels|
    requires Resolves(labels[i], id) && Resolves(labels[j], id)
    ensures i == j
  {
    if i != j {
      var a, b := if i < j then i else j, if i < j then j else i;
      ResolvingStep(labels, states, a, id);
      ResolvingStep(labels, states, b, id);
      RowKept(labels, states, a + 1, b, id);
    }
  }

  /** What a finished call says about the row it resolved or found resolved. */
  function Reported(o: Outcome): Option<Status> {
    match o
    case RejectedNow => Some(Rejected)
    case ApprovedNow(_) => Some(Approved)
    case Replay(_, status, _) => Some(status)
    case _ => None
  }

  /** No two callers are ever told conflicting resolutions of one proposal. */
  lemma CallersAgree(labels: seq<Label>, states: seq<State>, p: ProcId, q: ProcId)
    requires Run(labels, states)
    requires var s := states[|labels|];
      && p in s.procs && q in s.procs && s.procs[p].pc.Done? && s.procs[q].pc.Done?
      && Subject(s, p) == Subject(s, q)
      && Reported(s.procs[p].pc.outcome).Some? && Reported(s.procs[q].pc.outcome).Some?
    ensures var s := states[|labels|];
      && Reported(s.procs[p].pc.outcome) == Reported(s.procs[q].pc.outcome)
      && Subject(s, p) in s.table
      && s.table[Subject(s, p)].status == Reported(s.procs[p].pc.outcome).value
  {
    InvAlways(labels, states, |labels|);
    var s := states[|labels|];
    assert Told(s.table, s.procs[p].call, s.procs[p].pc.outcome);
    assert Told(s.table, s.procs[q].call, s.procs[q].pc.outcome);
  }

  // ----- ownership -----

  predicate Takes(l: Label, id: ProposalId) {
    (l.Claim? || l.TakeOver?) && l.id == id
  }

  ghost predicate LatestTake(labels: seq<Label>, i: nat, n: nat, id: ProposalId) {
    i < n <= |labels| && Takes(labels[i], id) && forall k :: i < k < n ==> !Takes(labels[k], id)
  }

  lemma TokenAfterStep(s: State, l: Label, id: ProposalId)
    requires TableShape(s) && Enabled(s, l) && id in TableAfter(s, l) && TableAfter(s, l)[id].token.Some?
    ensures if Takes(l, id) then TableAfter(s, l)[id].token.value == l.token && l.token !in s.issued
            else id in s.table && TableAfter(s, l)[id].token == s.table[id].token
  {
  }

  lemma TokenAfterRunStep(labels: seq<Label>, states: seq<State>, i: nat, id: ProposalId)
    requires Run(labels, states) && i < |labels| && id in states[i + 1].table && states[i + 1].table[id].token.Some?
    ensures if Takes(labels[i], id) then states[i + 1].table[id].token.value == labels[i].token && labels[i].token !in states[i].issued
            else id in states[i].table && states[i + 1].table[id].token == states[i].table[id].token
  {
    InvAlways(labels, states, i);
    assert StepAt(labels, states, i);
    TokenAfterStep(states[i], labels[i], id);
  }

  /** In every reachable state a row is `applying` exactly if it has a token, and that token is
      the one of the latest successful claim. */
  lemma {:induction false} ApplyingUnderLatestClaim(labels: seq<Label>, states: seq<State>, n: nat, id: ProposalId)
    requires Run(labels, states) && n <= |labels| && id in states[n].table
    ensures states[n].table[id].status.Applying? <==> states[n].table[id].token.Some?
    ensures states[n].table[id].token.Some? ==>
      exists i: nat :: LatestTake(labels, i, n, id) && states[n].table[id].token == Some(labels[i].token)
  {
    InvAlways(labels, states, n);
    assert RowShape(states[n].table[id], states[n].issued);
    if states[n].table[id].token.Some? {
      var i := LatestTakeOf(labels, states, n, id);
    }
  }

  lemma {:induction false} LatestTakeOf(labels: seq<Label>, states: seq<State>, n: nat, id: ProposalId) returns (i: nat)
    requires Run(labels, states) && n <= |labels| && id in states[n].table && states[n].table[id].token.Some?
    ensures LatestTake(labels, i, n, id) && states[n].table[id].token == Some(labels[i].token)
  {
    InvAlways(labels, states, 0);
    TokenAfterRunStep(labels, states, n - 1, id);
    if Takes(labels[n - 1], id) {
      i := n - 1;
    } else {
      i := LatestTakeOf(labels, states, n - 1, id);
    }
  }

  /** A token that has been issued and displaced never comes back. */
  lemma TokenGone(labels: seq<Label>, states: seq<State>, i: nat, j: nat, id: ProposalId, token: Token)
    requires Run(labels, states) && i <= j <= |labels|
    requires token in states[i].issued && id in states[i].table && states[i].table[id].token != Some(token)
    ensures token in states[j].issued && id in states[j].table && states[j].table[id].token != Some(token)
    decreases j - i
  {
    if i < j {
      RowKept(labels, states, i, i + 1, id);
      IssuedKept(labels, states, i, i + 1);
      if states[i + 1].table[id].token.Some? {
        TokenAfterRunStep(labels, states, i, id);
      }
      TokenGone(labels, states, i + 1, j, id, token);
    }
  }

  lemma IssuedKept(labels: seq<Label>, states: seq<State>, i: nat, j: nat)
    requires Steps(labels, states) && i <= j <= |labels|
    ensures states[i].issued <= states[j].issued
    decreases j - i
  {
    if i < j {
      assert StepAt(labels, states, i);
      IssuedKept(labels, states, i + 1, j);
    }
  }

  lemma TakeOverStep(labels: seq<Label>, states: seq<State>, i: nat, id: ProposalId)
    requires Run(labels, states) && i < |labels| && labels[i].TakeOver? && labels[i].id == id
    ensures id in states[i].table && states[i].table[id].token.Some?
    ensures id in states[i + 1].table && states[i + 1].table[id].token != states[i].table[id].token
    ensures states[i].table[id].token.value in states[i + 1].issued
  {
    InvAlways(labels, states, i);
    assert StepAt(labels, states, i);
    assert RowShape(states[i].table[id], states[i].issued);
  }

  lemma HolderStep(labels: seq<Label>, states: seq<State>, i: nat)
    requires Steps(labels, states) && i < |labels| && (labels[i].Release? || labels[i].Finalise?)
    ensures labels[i].id in states[i].table && states[i].table[labels[i].id].token.Some?
    ensures HeldToken(At(states[i], labels[i].pid)) == states[i].table[labels[i].id].token
    ensures labels[i].pid in states[i].procs
  {
    assert StepAt(labels, states, i);
  }

  /** After a takeover the overtaken token can neither release nor finalise, ever. */
  lemma OvertakenIsPowerless(labels: seq<Label>, states: seq<State>, i: nat, j: nat, id: ProposalId)
    requires Run(labels, states) && i < j < |labels|
    requires labels[i].TakeOver? && labels[i].id == id
    requires (labels[j].Release? || labels[j].Finalise?) && labels[j].id == id
    ensures id in states[i].table && states[i].table[id].token.Some?
    ensures HeldToken(At(states[j], labels[j].pid)) != states[i].table[id].token
  {
    TakeOverStep(labels, states, i, id);
    TokenGone(labels, states, i + 1, j, id, states[i].table[id].token.value);
    HolderStep(labels, states, j);
  }

  // ----- the attempts ledger -----

  datatype Kind = Claims | TakeOvers | Releases | Finalisations

  predicate Hits(l: Label, id: ProposalId, k: Kind) {
    match k
    case Claims => l.Claim? && l.id == id
    case TakeOvers => l.TakeOver? && l.id == id
    case Releases => l.Release? && l.id == id
    case Finalisations => l.Finalise? && l.id == id
  }

  function Tally(labels: seq<Label>, id: ProposalId, k: Kind): nat {
    if labels == [] then 0
    else Tally(labels[..|labels| - 1], id, k) + if Hits(labels[|labels| - 1], id, k) then 1 else 0
  }

  function One(b: bool): nat {
    if b then 1 else 0
  }

  lemma AttemptsStep(s: State, l: Label, id: ProposalId)
    requires Enabled(s, l)
    ensures id in TableAfter(s, l) ==>
      TableAfter(s, l)[id].attempts == (if id in s.table then s.table[id].attempts else 0)
        + One(Hits(l, id, Claims)) + One(Hits(l, id, TakeOvers))
  {
  }

  predicate IsApplying(t: Table, id: ProposalId) {
    id in t && t[id].status.Applying?
  }

  lemma ApplyingStep(s: State, l: Label, id: ProposalId)
    requires Enabled(s, l)
    ensures One(IsApplying(TableAfter(s, l), id)) + One(Hits(l, id, Releases)) + One(Hits(l, id, Finalisations))
         == One(IsApplying(s.table, id)) + One(Hits(l, id, Claims))
  {
  }

  lemma AbsentStep(s: State, l: Label, id: ProposalId)
    requires Enabled(s, l) && id !in s.table
    ensures forall k :: !Hits(l, id, k)
  {
  }

  /** `application_attempts` counts the claims, and every claim is accounted for: released,
      overtaken, finalised, or still applying. */
  lemma {:induction false} AttemptsLedger(labels: seq<Label>, states: seq<State>, id: ProposalId)
    requires Run(labels, states)
    ensures id in states[|labels|].table ==>
      && states[|labels|].table[id].attempts == Tally(labels, id, Claims) + Tally(labels, id, TakeOvers)
      && states[|labels|].table[id].attempts == Tally(labels, id, Releases) + Tally(labels, id, TakeOvers)
           + Tally(labels, id, Finalisations) + One(states[|labels|].table[id].status.Applying?)
    ensures id !in states[|labels|].table ==> forall k :: Tally(labels, id, k) == 0
  {
    if labels != [] {
      var n := |labels| - 1;
      RunPrefix(labels, states, n);
      assert StepAt(labels, states, n);
      AttemptsLedger(labels[..n], states[..n + 1], id);
      var s, l := states[n], labels[n];
      AttemptsStep(s, l, id);
      ApplyingStep(s, l, id);
      if id in s.table {
        TerminalStep(s, l, id);
      } else {
        AbsentStep(s, l, id);
      }
    }
  }

  // ----- who created a row -----

  ghost predicate InsertsAt(labels: seq<Label>, states: seq<State>, j: nat, id: ProposalId)
    requires j < |labels| <= |states|
  {
    labels[j].Insert? && labels[j].pid in states[j].procs && Subject(states[j], labels[j].pid) == id
  }

  /** A row appears by an INSERT on its id, and by nothing else. */
  lemma AppearsStep(s: State, l: Label, id: ProposalId)
    requires Enabled(s, l)
    ensures id in TableAfter(s, l) <==>
      id in s.table || (l.Insert? && l.pid in s.procs && Subject(s, l.pid) == id)
  {
    if id in s.table {
      TerminalStep(s, l, id);
    }
  }

  lemma {:induction false} AppearsByInsert(labels: seq<Label>, states: seq<State>, r: nat, k: nat, id: ProposalId)
    requires Steps(labels, states) && r <= k <= |labels| && id !in states[r].table
    ensures id in states[k].table <==> exists j: nat :: r <= j < k && InsertsAt(labels, states, j, id)
    decreases k
  {
    if r < k {
      AppearsByInsert(labels, states, r, k - 1, id);
      assert StepAt(labels, states, k - 1);
      AppearsStep(states[k - 1], labels[k - 1], id);
      assert InsertsAt(labels, states, k - 1, id) ==> id in states[k].table;
    }
  }

  /** A caller that read no row, and later inserts, is always told `created`. That is true, and its
      row is the one stored, exactly if nobody inserted the same id in between. */
  lemma CreatedIff(labels: seq<Label>, states: seq<State>, r: nat, k: nat, pid: ProcId, id: ProposalId)
    requires Steps(labels, states) && r < k < |labels|
    requires labels[r] == Read(pid) && labels[k] == Insert(pid)
    requires pid in states[r].procs && Subject(states[r], pid) == id && At(states[r + 1], pid).Inserting?
    ensures At(states[k + 1], pid) == Done(Created)
    ensures id !in states[k].table <==> forall j: nat :: r < j < k ==> !InsertsAt(labels, states, j, id)
    ensures states[k + 1].table != states[k].table <==> forall j: nat :: r < j < k ==> !InsertsAt(labels, states, j, id)
  {
    ReadFoundNothing(labels, states, r, pid, id);
    AppearsByInsert(labels, states, r, k, id);
    CallKept(labels, states, r, k, pid);
    InsertStep(labels, states, k, pid, id);
  }

  lemma ReadFoundNothing(labels: seq<Label>, states: seq<State>, r: nat, pid: ProcId, id: ProposalId)
    requires Steps(labels, states) && r < |labels| && labels[r] == Read(pid)
    requires pid in states[r].procs && Subject(states[r], pid) == id && At(states[r + 1], pid).Inserting?
    ensures id !in states[r].table && !InsertsAt(labels, states, r, id)
  {
    assert StepAt(labels, states, r);
  }

  lemma {:induction false} CallKept(labels: seq<Label>, states: seq<State>, i: nat, j: nat, pid: ProcId)
    requires Steps(labels, states) && i <= j <= |labels| && pid in states[i].procs
    ensures pid in states[j].procs && states[j].procs[pid].call == states[i].procs[pid].call
    decreases j
  {
    if i < j {
      CallKept(labels, states, i, j - 1, pid);
      assert StepAt(labels, states, j - 1);
      SubjectStep(states[j - 1], labels[j - 1], pid);
    }
  }

  /** A call never changes its arguments. */
  lemma SubjectStep(s: State, l: Label, pid: ProcId)
    requires Enabled(s, l) && pid in s.procs
    ensures pid in ProcsAfter(s, l) && ProcsAfter(s, l)[pid].call == s.procs[pid].call
  {
  }

  lemma InsertStep(labels: seq<Label>, states: seq<State>, k: nat, pid: ProcId, id: ProposalId)
    requires Steps(labels, states) && k < |labels| && labels[k] == Insert(pid)
    requires pid in states[k].procs && Subject(states[k], pid) == id
    ensures At(states[k + 1], pid) == Done(Created)
    ensures states[k + 1].table != states[k].table <==> id !in states[k].table
  {
    assert StepAt(labels, states, k);
    assert id !in states[k].table ==> id in states[k + 1].table;
  }

  /** So of all callers told `created` for one id, one at most inserted its row. */
  lemma InsertedOnce(labels: seq<Label>, states: seq<State>, i: nat, j: nat, id: ProposalId)
    requires Steps(labels, states) && i < |labels| && j < |labels|
    requires InsertsAt(labels, states, i, id) && id !in states[i].table
    requires InsertsAt(labels, states, j, id) && id !in states[j].table
    ensures i == j
  {
    if i < j {
      InsertedStays(labels, states, i, j, id);
    } else if j < i {
      InsertedStays(labels, states, j, i, id);
    }
  }

  lemma InsertedStays(labels: seq<Label>, states: seq<State>, i: nat, j: nat, id: ProposalId)
    requires Steps(labels, states) && i < j <= |labels| && InsertsAt(labels, states, i, id)
    ensures id in states[j].table
  {
    InsertedThen(labels, states, i, id);
    RowKept(labels, states, i + 1, j, id);
  }

  lemma InsertedThen(labels: seq<Label>, states: seq<State>, i: nat, id: ProposalId)
    requires Steps(labels, states) && i < |labels| && InsertsAt(labels, states, i, id)
    ensures id in states[i + 1].table
  {
    assert StepAt(labels, states, i);
    AppearsStep(states[i], labels[i], id);
  }
}
