/** Canonical effects: at most one memory per content, and when a rejection is clean. */
module LeaseEffects {
  import opened Options
  import opened Proposals
  import opened LeaseProtocol
  import opened LeaseSafety
  import opened LeaseTheorems

  // ----- exactly once -----

  /** The step adds a canonical memory that was not there before. */
  ghost predicate Creates(s: State, l: Label, digest: Digest) {
    Enabled(s, l) && Saves(l) && At(s, l.pid).row.proposal.digest == digest && DreamId(digest) !in s.memories
  }

  lemma MemoryKept(labels: seq<Label>, states: seq<State>, i: nat, j: nat, m: MemoryId)
    requires Run(labels, states) && i <= j <= |labels| && m in states[i].memories
    ensures m in states[j].memories && states[j].memories[m].digest == states[i].memories[m].digest
    decreases j - i
  {
    if i < j {
      InvAlways(labels, states, i);
      assert StepAt(labels, states, i);
      MemoryStep(states[i], labels[i], m);
      MemoryKept(labels, states, i + 1, j, m);
    }
  }

  /** Over a whole run all executors together, across retries, takeovers and different proposals
      with one content, create at most one canonical memory per digest. */
  lemma CreatedOnce(labels: seq<Label>, states: seq<State>, i: nat, j: nat, digest: Digest)
    requires Run(labels, states) && i < |labels| && j < |labels|
    requires Creates(states[i], labels[i], digest) && Creates(states[j], labels[j], digest)
    ensures i == j
  {
    if i != j {
      var a, b := if i < j then i else j, if i < j then j else i;
      assert StepAt(labels, states, a);
      assert DreamId(digest) in states[a + 1].memories;
      MemoryKept(labels, states, a + 1, b, DreamId(digest));
    }
  }

  lemma SimilarStays(labels: seq<Label>, states: seq<State>, i: nat, j: nat, digest: Digest)
    requires Run(labels, states) && i <= j <= |labels| && SimilarStored(states[i].memories, digest)
    ensures SimilarStored(states[j].memories, digest)
  {
    var m :| m in states[i].memories && states[i].memories[m].digest.normal == digest.normal;
    MemoryKept(labels, states, i, j, m);
  }

  /** An approved row names a memory of its digest, or the dream id of its digest; and a memory whose
      content is the same to deduplication is stored, for good. */
  lemma ApprovedNamesContent(labels: seq<Label>, states: seq<State>, i: nat, j: nat, id: ProposalId)
    requires Run(labels, states) && i <= j <= |labels|
    requires id in states[i].table && states[i].table[id].status.Approved?
    ensures states[i].table[id].canonicalId.Some?
    ensures NamesContent(states[j].memories, states[i].table[id].canonicalId.value, states[i].table[id].proposal.digest)
  {
    InvAlways(labels, states, i);
    var r := states[i].table[id];
    assert RowShape(r, states[i].issued) && CanonicalShape(states[i].memories, r);
    SimilarStays(labels, states, i, j, r.proposal.digest);
    if r.canonicalId.value in states[i].memories {
      MemoryKept(labels, states, i, j, r.canonicalId.value);
    }
  }

  // ----- tokens and the claims they come from -----

  /** The claim a call's token was issued by. */
  ghost predicate ClaimOf(labels: seq<Label>, states: seq<State>, c: nat, pid: ProcId, id: ProposalId, token: Token) {
    c < |labels| < |states| && Takes(labels[c], id) && labels[c].pid == pid && labels[c].token == token
  }

  /** Step i is the claim of this call. */
  ghost predicate TakesAs(labels: seq<Label>, i: nat, pid: ProcId)
    requires i < |labels|
  {
    (labels[i].Claim? || labels[i].TakeOver?) && labels[i].pid == pid
  }

  lemma TokenRunStep(labels: seq<Label>, states: seq<State>, i: nat, pid: ProcId)
    requires Steps(labels, states) && i < |labels| && pid in states[i + 1].procs && HeldToken(At(states[i + 1], pid)).Some?
    ensures if TakesAs(labels, i, pid) then
              ClaimOf(labels, states, i, pid, Subject(states[i + 1], pid), HeldToken(At(states[i + 1], pid)).value)
            else
              pid in states[i].procs && HeldToken(At(states[i], pid)) == HeldToken(At(states[i + 1], pid))
              && Subject(states[i], pid) == Subject(states[i + 1], pid)
  {
    assert StepAt(labels, states, i);
    if TakesAs(labels, i, pid) {
      ClaimingStep(states[i], labels[i]);
    } else {
      SameTokenStep(states[i], labels[i], pid);
    }
  }

  lemma ClaimingStep(s: State, l: Label)
    requires Enabled(s, l) && (l.Claim? || l.TakeOver?)
    ensures l.pid in s.procs && Subject(s, l.pid) == l.id && HeldToken(PcAfter(s, l)) == Some(l.token)
  {
  }

  lemma {:induction false} TokenHasClaim(labels: seq<Label>, states: seq<State>, n: nat, pid: ProcId) returns (c: nat)
    requires Run(labels, states) && n <= |labels| && pid in states[n].procs && HeldToken(At(states[n], pid)).Some?
    ensures c < n && ClaimOf(labels, states, c, pid, Subject(states[n], pid), HeldToken(At(states[n], pid)).value)
  {
    TokenRunStep(labels, states, n - 1, pid);
    if TakesAs(labels, n - 1, pid) {
      c := n - 1;
    } else {
      c := TokenHasClaim(labels, states, n - 1, pid);
    }
  }

  lemma SameTokenStep(s: State, l: Label, pid: ProcId)
    requires Enabled(s, l) && pid in ProcsAfter(s, l) && HeldToken(ProcsAfter(s, l)[pid].pc).Some?
    requires !(Moves(l) && l.pid == pid && (l.Claim? || l.TakeOver?))
    ensures pid in s.procs && HeldToken(ProcsAfter(s, l)[pid].pc) == HeldToken(s.procs[pid].pc)
    ensures ProcsAfter(s, l)[pid].call == s.procs[pid].call
  {
    if Moves(l) && l.pid == pid {
      TokenStep(s, l);
    }
  }

  lemma TakeIsFresh(labels: seq<Label>, states: seq<State>, i: nat)
    requires Steps(labels, states) && i < |labels| && (labels[i].Claim? || labels[i].TakeOver?)
    ensures labels[i].token !in states[i].issued && labels[i].token in states[i + 1].issued
    ensures labels[i].id in states[i + 1].table
    ensures var r := states[i + 1].table[labels[i].id]; r.status.Applying? && r.token == Some(labels[i].token)
  {
    assert StepAt(labels, states, i);
  }

  lemma ClaimIsUnique(labels: seq<Label>, states: seq<State>, c: nat, d: nat)
    requires Steps(labels, states) && c < |labels| && d < |labels|
    requires (labels[c].Claim? || labels[c].TakeOver?) && (labels[d].Claim? || labels[d].TakeOver?)
    requires labels[c].token == labels[d].token
    ensures c == d
  {
    if c != d {
      var a, b := if c < d then c else d, if c < d then d else c;
      TakeIsFresh(labels, states, a);
      TakeIsFresh(labels, states, b);
      IssuedKept(labels, states, a + 1, b);
    }
  }

  /** Only an approval that won a claim writes a canonical dream memory: each one in the store
      was written under a claim on a proposal of that digest. */
  lemma {:induction false} DreamMemoryHasClaim(labels: seq<Label>, states: seq<State>, n: nat, digest: Digest)
    returns (c: nat, i: nat)
    requires Run(labels, states) && n <= |labels| && DreamId(digest) in states[n].memories
    ensures c < i < n && Saves(labels[i]) && Takes(labels[c], labels[i].id) && labels[c].pid == labels[i].pid
    ensures labels[i].id in states[i].table && states[i].table[labels[i].id].proposal.digest == digest
  {
    if DreamId(digest) in states[n - 1].memories {
      c, i := DreamMemoryHasClaim(labels, states, n - 1, digest);
    } else {
      i := n - 1;
      WritingStep(labels, states, i, digest);
      c := TokenHasClaim(labels, states, i, labels[i].pid);
    }
  }

  lemma WritingStep(labels: seq<Label>, states: seq<State>, i: nat, digest: Digest)
    requires Run(labels, states) && i < |labels|
    requires DreamId(digest) !in states[i].memories && DreamId(digest) in states[i + 1].memories
    ensures Saves(labels[i]) && labels[i].pid in states[i].procs && Subject(states[i], labels[i].pid) == labels[i].id
    ensures HeldToken(At(states[i], labels[i].pid)).Some?
    ensures labels[i].id in states[i].table && states[i].table[labels[i].id].proposal.digest == digest
  {
    InvAlways(labels, states, i);
    assert StepAt(labels, states, i);
    if Saves(labels[i]) {
      assert ProcShape(states[i].table, states[i].issued, states[i].procs[labels[i].pid]);
    }
  }

  // ----- what becomes of a claim -----

  /** Step k takes the row over from the given token. */
  ghost predicate Displaces(labels: seq<Label>, states: seq<State>, k: nat, id: ProposalId, token: Token) {
    && k < |labels| < |states| && labels[k].TakeOver? && labels[k].id == id
    && id in states[k].table && states[k].table[id].token == Some(token)
  }

  ghost predicate ReleasedBy(labels: seq<Label>, k: nat, id: ProposalId, pid: ProcId) {
    k < |labels| && labels[k].Release? && labels[k].id == id && labels[k].pid == pid
  }

  /** While the row carries the token of claim c it can only be overtaken, released by the same
      call, or finalised. */
  lemma {:induction false} ClaimFate(labels: seq<Label>, states: seq<State>, c: nat, n: nat, id: ProposalId)
    requires Run(labels, states) && c < n <= |labels| && Takes(labels[c], id)
    ensures id in states[n].table
    ensures (states[n].table[id].status.Applying? && states[n].table[id].token == Some(labels[c].token))
         || states[n].table[id].status.Approved?
         || (exists k: nat :: c < k < n && Displaces(labels, states, k, id, labels[c].token))
         || (exists k: nat :: c < k < n && ReleasedBy(labels, k, id, labels[c].pid))
  {
    if n == c + 1 {
      TakeIsFresh(labels, states, c);
    } else {
      ClaimFate(labels, states, c, n - 1, id);
      RowKept(labels, states, n - 1, n, id);
      if states[n - 1].table[id].status.Applying? && states[n - 1].table[id].token == Some(labels[c].token) {
        HeldRowStep(labels, states, n - 1, id);
        if labels[n - 1].TakeOver? && labels[n - 1].id == id {
          assert Displaces(labels, states, n - 1, id, labels[c].token);
        } else if labels[n - 1].Release? && labels[n - 1].id == id {
          HolderStep(labels, states, n - 1);
          var d := TokenHasClaim(labels, states, n - 1, labels[n - 1].pid);
          ClaimIsUnique(labels, states, c, d);
          assert ReleasedBy(labels, n - 1, id, labels[c].pid);
        }
      }
    }
  }

  lemma HeldRowStep(labels: seq<Label>, states: seq<State>, i: nat, id: ProposalId)
    requires Steps(labels, states) && i < |labels| && id in states[i].table && states[i].table[id].status.Applying?
    ensures id in states[i + 1].table
    ensures states[i + 1].table[id] == states[i].table[id] || states[i + 1].table[id].status.Approved?
         || ((labels[i].TakeOver? || labels[i].Release?) && labels[i].id == id)
  {
    assert StepAt(labels, states, i);
  }

  // ----- rejection -----

  lemma ExecutedStaysQuiet(labels: seq<Label>, states: seq<State>, i: nat, j: nat, pid: ProcId)
    requires Steps(labels, states) && i <= j <= |labels| && pid in states[i].procs
    requires At(states[i], pid).Executed? || At(states[i], pid).FinaliseFailed? || At(states[i], pid).Done?
    ensures At(states[j], pid).Executed? || At(states[j], pid).FinaliseFailed? || At(states[j], pid).Done?
    decreases j - i
  {
    if i < j {
      assert StepAt(labels, states, i);
      QuietStep(states[i], labels[i], pid);
      ExecutedStaysQuiet(labels, states, i + 1, j, pid);
    }
  }

  lemma QuietStep(s: State, l: Label, pid: ProcId)
    requires Enabled(s, l) && pid in s.procs
    requires At(s, pid).Executed? || At(s, pid).FinaliseFailed? || At(s, pid).Done?
    ensures pid in ProcsAfter(s, l)
    ensures var pc := ProcsAfter(s, l)[pid].pc; pc.Executed? || pc.FinaliseFailed? || pc.Done?
  {
  }

  lemma SavingStep(labels: seq<Label>, states: seq<State>, i: nat)
    requires Steps(labels, states) && i < |labels| && Saves(labels[i])
    ensures labels[i].pid in states[i].procs && Subject(states[i], labels[i].pid) == labels[i].id
    ensures At(states[i], labels[i].pid).Cleared?
    ensures labels[i].pid in states[i + 1].procs
    ensures labels[i].Save? ==> At(states[i + 1], labels[i].pid).Executed?
  {
    assert StepAt(labels, states, i);
  }

  lemma ReleasingStep(labels: seq<Label>, states: seq<State>, i: nat)
    requires Steps(labels, states) && i < |labels| && labels[i].Release?
    ensures labels[i].pid in states[i].procs && At(states[i], labels[i].pid).Raised?
    ensures labels[i].pid in states[i + 1].procs && At(states[i + 1], labels[i].pid).Done?
  {
    assert StepAt(labels, states, i);
  }

  /** A call whose executor returned never releases. */
  lemma SaverNeverReleases(labels: seq<Label>, states: seq<State>, i: nat, k: nat, id: ProposalId)
    requires Steps(labels, states) && i < |labels| && labels[i].Save?
    ensures !ReleasedBy(labels, k, id, labels[i].pid)
  {
    var pid := labels[i].pid;
    SavingStep(labels, states, i);
    if ReleasedBy(labels, k, id, pid) {
      ReleasingStep(labels, states, k);
      if k < i {
        ExecutedStaysQuiet(labels, states, k + 1, i, pid);
      } else if i < k {
        ExecutedStaysQuiet(labels, states, i + 1, k, pid);
      }
    }
  }

  /** A save whose effect survives in a rejected proposal was made by an executor that raised
      after storing, or under a claim that was taken over. */
  lemma RejectedEffect(labels: seq<Label>, states: seq<State>, i: nat, id: ProposalId)
    requires Run(labels, states) && i < |labels| && Saves(labels[i]) && labels[i].id == id
    requires id in states[|labels|].table && states[|labels|].table[id].status.Rejected?
    ensures labels[i].SaveRaises?
         || (At(states[i], labels[i].pid).Cleared?
             && exists k: nat :: Displaces(labels, states, k, id, At(states[i], labels[i].pid).token))
  {
    SavingStep(labels, states, i);
    var c := TokenHasClaim(labels, states, i, labels[i].pid);
    ClaimFate(labels, states, c, |labels|, id);
    if labels[i].Save? {
      forall k: nat ensures !ReleasedBy(labels, k, id, labels[c].pid) {
        SaverNeverReleases(labels, states, i, k, id);
      }
    }
  }

  ghost predicate NoTakeOver(labels: seq<Label>, id: ProposalId) {
    forall k :: 0 <= k < |labels| && labels[k].TakeOver? ==> labels[k].id != id
  }

  ghost predicate RaisesCleanly(labels: seq<Label>, id: ProposalId) {
    forall k :: 0 <= k < |labels| && labels[k].SaveRaises? && labels[k].id == id ==> !labels[k].stored
  }

  /** Where no claim on it is taken over and no executor raises after storing, a rejected proposal
      had no canonical effect at any point of the run. */
  lemma CleanRejection(labels: seq<Label>, states: seq<State>, id: ProposalId)
    requires Run(labels, states) && NoTakeOver(labels, id) && RaisesCleanly(labels, id)
    requires id in states[|labels|].table && states[|labels|].table[id].status.Rejected?
    ensures forall i :: 0 <= i < |labels| && Saves(labels[i]) ==> labels[i].id != id
  {
    forall i | 0 <= i < |labels| && Saves(labels[i]) ensures labels[i].id != id {
      if labels[i].id == id {
        RejectedEffect(labels, states, i, id);
      }
    }
  }
}
