/**
 Rows of `generated_proposals` and the guarded SQL statements that change them, as functions.
 Timestamps are the stored text; every guard compares text, exactly as SQLite does.
 */
module Proposals {
  import opened Options
  import opened Text
  import opened LeaseClock

  type ProposalId = string
  /** The SHA-256 digest of a content, and that of the content as deduplication normalises it. Two
      contents share both only if they are equal; two that differ can share the first. */
  datatype Digest = Digest(normal: nat, exact: nat)
  /** The result of secrets.token_hex(16). */
  type Token = nat

  /** `dream-insight:<digest>` ids are made only by the dream executor. */
  datatype MemoryId = DreamId(digest: Digest) | OtherId(name: string)

  /** Whether a memory has an SQLite row in the workspace_markdown layer, and whether its fingerprint
      is registered there; both may fail without the save failing. */
  datatype Marks = Marks(mirrored: bool, fingerprinted: bool)

  datatype Memory = Memory(
    content: string, digest: Digest, deleted: bool, marks: Marks,
    agent: string, source: string, generatedBy: string, governedBy: string)

  datatype Proposal = Proposal(
    id: ProposalId, kind: string, runKey: string, content: string, digest: Digest,
    sourceIds: seq<string>, evidence: string, action: string)

  datatype Status = Pending | Applying | Approved | Rejected

  datatype Row = Row(
    proposal: Proposal, status: Status, createdAt: string,
    resolvedAt: Option<string>, note: Option<string>, canonicalId: Option<MemoryId>,
    token: Option<Token>, leaseUntil: Option<string>, attempts: nat, error: Option<string>)

  type Table = map<ProposalId, Row>
  type Memories = map<MemoryId, Memory>

  const MAX_SOURCE_IDS := 64

  predicate Terminal(r: Row) {
    r.status.Approved? || r.status.Rejected?
  }

  // ----- INSERT OR IGNORE -----

  function NewRow(p: Proposal, now: string): Row {
    Row(p, Pending, now, None, None, None, None, None, 0, None)
  }

  function InsertOrIgnore(t: Table, p: Proposal, now: string): Table {
    if p.id in t then t else t[p.id := NewRow(p, now)]
  }

  // ----- UPDATE ... WHERE id=? AND status='pending' -----

  predicate CanReject(t: Table, id: ProposalId) {
    id in t && t[id].status.Pending?
  }

  function RejectedRow(r: Row, now: string, note: string): Row {
    r.(status := Rejected, resolvedAt := Some(now), note := Some(note), token := None, leaseUntil := None)
  }

  // ----- the claim: pending, or applying with an expired lease -----

  predicate LeaseExpired(r: Row, now: string) {
    r.leaseUntil.None? || AtMost(r.leaseUntil.value, now)
  }

  predicate CanClaim(t: Table, id: ProposalId, now: string) {
    id in t && (t[id].status.Pending? || (t[id].status.Applying? && LeaseExpired(t[id], now)))
  }

  function ClaimedRow(r: Row, token: Token, lease: string): Row {
    r.(status := Applying, token := Some(token), leaseUntil := Some(lease), attempts := r.attempts + 1, error := None)
  }

  /** timedelta(seconds=max(0, int(lease_seconds))) later. */
  function LeaseEnd(now: Instant, leaseSeconds: int): Instant {
    now + SECOND * (if leaseSeconds < 0 then 0 else leaseSeconds)
  }

  // ----- UPDATE ... WHERE id=? AND status='applying' AND application_token=? -----

  predicate Holds(t: Table, id: ProposalId, token: Token) {
    id in t && t[id].status.Applying? && t[id].token == Some(token)
  }

  function ReleasedRow(r: Row, error: string): Row {
    r.(status := Pending, token := None, leaseUntil := None, error := Some(error))
  }

  function ApprovedRow(r: Row, now: string, note: string, memory: Option<MemoryId>): Row {
    r.(status := Approved, resolvedAt := Some(now), note := Some(note), canonicalId := memory,
       token := None, leaseUntil := None, error := None)
  }

  // ----- what the executor stores -----

  function DreamMemory(p: Proposal, marks: Marks): Memory {
    Memory(p.content, p.digest, false, marks, "dream-engine", "super-memory.dream.approved", "dream_engine", p.id)
  }

  /** What the save takes for the same content: a registered fingerprint, of a deleted memory or a
      merely similar text as well, unless that lookup raised; or an active row of the same digest. */
  predicate Repeats(m: Memory, p: Proposal, lookupRaised: bool) {
    || (!lookupRaised && m.marks.fingerprinted && m.digest.normal == p.digest.normal)
    || (m.marks.mirrored && !m.deleted && m.digest == p.digest)
  }

  /** Then it writes nothing, and reports success. */
  predicate SkipsSave(memories: Memories, p: Proposal, lookupRaised: bool) {
    p.content != "" && exists k :: k in memories && Repeats(memories[k], p, lookupRaised)
  }

  function BoundedNote(note: string): string {
    Take(note, 1_000)
  }
}
