/** What every reachable settlement case satisfies, and what no operation ever undoes. */
module CaseInvariants {
  import opened Outcomes
  import opened Sequences
  import opened Text
  import opened SnapshotContent
  import opened SnapshotProperties
  import opened SettlementCase

  function SnapshotIdOf(r: Revision): string { r.snapshotId }
  function InstructionIdOf(i: PaymentInstruction): string { i.instructionId }
  function AttemptIdOf(a: Attempt): string { a.attemptId }
  function CancellationIdOf(r: Cancellation): string { r.cancellationId }
  function JudgementOf(a: Approval): (string, string) { (a.snapshotId, a.participantId) }
  function ConsenterOf(d: CancellationDecision): string { d.participantId }

  // ---- the parts of a sound case ----

  /** A revision holds a genuine content and binds one fresh identifier to each of its candidates, in order. */
  ghost predicate RevisionSound(r: Revision) {
    && Genuine(r.content) && CanonicalUuid(r.snapshotId)
    && |r.instructions| == |r.content.candidates|
    && (forall i | 0 <= i < |r.instructions| ::
          && CanonicalUuid(r.instructions[i].instructionId)
          && r.instructions[i].payerParticipantId == r.content.candidates[i].payerParticipantId
          && r.instructions[i].payeeParticipantId == r.content.candidates[i].payeeParticipantId
          && r.instructions[i].amount == r.content.candidates[i].amount)
    && DistinctBy(r.instructions, InstructionIdOf)
  }

  ghost predicate Follows(rs: seq<Revision>, k: nat)
    requires k < |rs|
  {
    && rs[k].ordinal == k + 1 && rs[k].caseId == rs[0].caseId
    && rs[k].previousSnapshotId == (if k == 0 then None else Some(rs[k - 1].snapshotId))
    && rs[k].content.groupId == rs[0].content.groupId && TargetIds(rs[k]) == TargetIds(rs[0])
  }

  ghost predicate SharesInstruction(r: Revision, r': Revision) {
    exists i, i' :: 0 <= i < |r.instructions| && 0 <= i' < |r'.instructions| &&
                    r.instructions[i].instructionId == r'.instructions[i'].instructionId
  }

  /** Revisions chain over one fixed expense set, and no snapshot or instruction identifier serves twice. */
  ghost predicate RevisionsSound(rs: seq<Revision>) {
    && rs != [] && (forall k | 0 <= k < |rs| :: RevisionSound(rs[k]) && Follows(rs, k))
    && DistinctBy(rs, SnapshotIdOf)
    && (forall k, k' | 0 <= k < k' < |rs| :: !SharesInstruction(rs[k], rs[k']))
  }

  ghost predicate Asked(rs: seq<Revision>, a: Approval) {
    exists k :: 0 <= k < |rs| && rs[k].snapshotId == a.snapshotId &&
                a.participantId in rs[k].content.requiredApproverIds
  }

  /** Every judgement is a required approver's on an existing revision, at most one each. */
  ghost predicate ApprovalsSound(approvals: seq<Approval>, rs: seq<Revision>) {
    (forall a | a in approvals :: Asked(rs, a)) && DistinctBy(approvals, JudgementOf)
  }

  /** The report repeats the fixed facts of an instruction; only the payee can have answered it. */
  ghost predicate AttemptSound(a: Attempt, r: Revision) {
    && a.snapshotId == r.snapshotId
    && PaymentInstruction(a.instructionId, a.payerParticipantId, a.payeeParticipantId, a.amount) in r.instructions
    && (a.receipt.Some? ==> a.receipt.value.participantId == a.payeeParticipantId)
  }

  /** The reports of one instruction are numbered 1..k and all but the last were returned. */
  ghost predicate ReportsSound(reports: seq<Attempt>) {
    forall k | 0 <= k < |reports| :: reports[k].ordinal == k + 1 && (k < |reports| - 1 ==> reports[k].IsReturned())
  }

  ghost predicate PaymentsSound(attempts: seq<Attempt>, r: Revision) {
    && DistinctBy(attempts, AttemptIdOf)
    && (forall a | a in attempts :: AttemptSound(a, r))
    && (forall id :: ReportsSound(Reports(attempts, id)))
  }

  /** Requests are numbered, ask exactly the required approvers, once each, and all but the last were declined. */
  ghost predicate RequestSound(cs: seq<Cancellation>, k: nat, r: Revision)
    requires k < |cs|
  {
    && cs[k].ordinal == k + 1 && cs[k].snapshotId == r.snapshotId
    && cs[k].requiredApproverIds == r.content.requiredApproverIds
    && DistinctBy(cs[k].decisions, ConsenterOf)
    && (forall d | d in cs[k].decisions :: d.participantId in cs[k].requiredApproverIds)
    && (k < |cs| - 1 ==> cs[k].Status() == RequestDeclined)
  }

  ghost predicate CancellationsSound(cs: seq<Cancellation>, r: Revision) {
    DistinctBy(cs, CancellationIdOf) && forall k | 0 <= k < |cs| :: RequestSound(cs, k, r)
  }

  ghost predicate Undecided(s: Status) {
    s == AwaitingApproval || s == RevisionRejected || s == Withdrawn
  }

  function LastStatus(cs: seq<Cancellation>): CancellationStatus
    requires cs != []
  {
    cs[|cs| - 1].Status()
  }

  /** The status says which approvals, payments and cancellations exist. */
  ghost predicate StatusSound(c: Case)
    requires c.revisions != []
  {
    var r := Latest(c);
    && (c.withdrawal.Some? <==> c.status == Withdrawn) && (c.archivedAt.Some? <==> c.status == Archived)
    && (Undecided(c.status) ==>
          c.attempts == [] && c.cancellations == [] && c.status == DecidedStatus(c.approvals, r, c.withdrawal))
    && (!Undecided(c.status) ==> AllApproved(c.approvals, r) && !AnyRejection(c.approvals, r.snapshotId))
    && (c.status == PaymentActive ==> !AllReceived(r.instructions, c.attempts))
    && (c.status == Archived ==> AllReceived(r.instructions, c.attempts))
    && (c.status == CancellationPending || c.status == Cancelled ==>
          && c.attempts == [] && c.cancellations != [] && r.instructions != []
          && LastStatus(c.cancellations) == (if c.status == Cancelled then RequestAgreed else RequestPending))
    && (c.status == PaymentActive || c.status == Archived ==>
          c.cancellations != [] ==> LastStatus(c.cancellations) == RequestDeclined)
  }

  ghost predicate CaseSound(c: Case) {
    && c.revisions != [] && RevisionsSound(c.revisions) && c.caseId == c.revisions[0].caseId && c.version >= 1
    && ApprovalsSound(c.approvals, c.revisions)
    && PaymentsSound(c.attempts, Latest(c))
    && CancellationsSound(c.cancellations, Latest(c))
    && StatusSound(c)
  }

  // ---- what is never undone ----

  ghost predicate AttemptKept(a: Attempt, a': Attempt) {
    a' == a || (a.IsReported() && a' == a.(receipt := a'.receipt))
  }

  ghost predicate RequestKept(r: Cancellation, r': Cancellation) {
    r' == r.(decisions := r'.decisions) && r.decisions <= r'.decisions
  }

  /** Histories only grow: nothing recorded is dropped, reordered or rewritten. */
  ghost predicate Grows(c: Case, c': Case) {
    && c'.caseId == c.caseId && c.version <= c'.version
    && c.revisions <= c'.revisions && c.approvals <= c'.approvals
    && |c.attempts| <= |c'.attempts| && (forall i | 0 <= i < |c.attempts| :: AttemptKept(c.attempts[i], c'.attempts[i]))
    && |c.cancellations| <= |c'.cancellations|
    && (forall i | 0 <= i < |c.cancellations| :: RequestKept(c.cancellations[i], c'.cancellations[i]))
  }

  // ---- revisions ----

  lemma {:induction false} IdsAccepted(ids: seq<string>, i: nat)
    requires i <= |ids| && InstructionIdRejection(ids, i).Pass?
    requires DistinctBy(ids[..i], Itself) && forall k | 0 <= k < i :: CanonicalUuid(ids[k])
    ensures DistinctBy(ids, Itself) && forall k | 0 <= k < |ids| :: CanonicalUuid(ids[k])
    decreases |ids| - i
  {
    if i < |ids| {
      assert ids[..i + 1] == ids[..i] + [ids[i]];
      DistinctSnoc(ids[..i], ids[i], Itself);
      IdsAccepted(ids, i + 1);
    } else {
      assert ids[..i] == ids;
    }
  }

  lemma CreatedSound(caseId: string, snapshotId: string, content: Content, applicant: Applicant, at: Clock,
                     ids: seq<string>, ordinal: nat, previous: Option<string>)
    requires Genuine(content)
    requires CreateRevision(caseId, snapshotId, content, applicant, at, ids, ordinal, previous).Ok?
    ensures var r := CreateRevision(caseId, snapshotId, content, applicant, at, ids, ordinal, previous).value;
            RevisionSound(r) && r.content == content && r.snapshotId == snapshotId && r.caseId == caseId
            && r.ordinal == ordinal && r.previousSnapshotId == previous
  {
    hide *;
    CreatedIs(caseId, snapshotId, content, applicant, at, ids, ordinal, previous);
    NoIds(ids);
    IdsAccepted(ids, 0);
    BoundSound(CreateRevision(caseId, snapshotId, content, applicant, at, ids, ordinal, previous).value, ids);
  }

  lemma CreatedIs(caseId: string, snapshotId: string, content: Content, applicant: Applicant, at: Clock,
                  ids: seq<string>, ordinal: nat, previous: Option<string>)
    requires CreateRevision(caseId, snapshotId, content, applicant, at, ids, ordinal, previous).Ok?
    ensures at.Some? && |ids| == |content.candidates| && InstructionIdRejection(ids, 0).Pass?
    ensures CanonicalUuid(snapshotId)
    ensures CreateRevision(caseId, snapshotId, content, applicant, at, ids, ordinal, previous).value ==
            Revision(caseId, snapshotId, ordinal, previous, applicant, at.value, content,
                     Bound(ids, content.candidates))
  {
    hide CanonicalUuid, Nonempty, InstructionIdRejection, Bound;
  }

  lemma NoIds(ids: seq<string>)
    ensures DistinctBy(ids[..0], Itself)
  {
  }

  lemma BoundSound(r: Revision, ids: seq<string>)
    requires Genuine(r.content) && CanonicalUuid(r.snapshotId) && |ids| == |r.content.candidates|
    requires DistinctBy(ids, Itself) && forall k | 0 <= k < |ids| :: CanonicalUuid(ids[k])
    requires r.instructions == Bound(ids, r.content.candidates)
    ensures RevisionSound(r)
  {
    hide Genuine, CanonicalUuid;
    forall i, j | 0 <= i < j < |r.instructions|
      ensures InstructionIdOf(r.instructions[i]) != InstructionIdOf(r.instructions[j])
    {
      assert Itself(ids[i]) != Itself(ids[j]);
    }
  }

  lemma FreshInstructions(rs: seq<Revision>, r: Revision, k: nat)
    requires k < |rs| && forall i | 0 <= i < |r.instructions| :: !UsedInstruction(rs, r.instructions[i].instructionId)
    ensures !SharesInstruction(rs[k], r)
  {
    if i, i' :| 0 <= i < |rs[k].instructions| && 0 <= i' < |r.instructions| &&
                rs[k].instructions[i].instructionId == r.instructions[i'].instructionId {
      assert UsedInstruction(rs, r.instructions[i'].instructionId);
    }
  }

  lemma RevisionAdded(rs: seq<Revision>, r: Revision)
    requires RevisionsSound(rs) && RevisionSound(r)
    requires r.ordinal == |rs| + 1 && r.caseId == rs[0].caseId && r.previousSnapshotId == Some(rs[|rs| - 1].snapshotId)
    requires r.content.groupId == rs[0].content.groupId && TargetIds(r) == TargetIds(rs[0])
    requires forall k | 0 <= k < |rs| :: rs[k].snapshotId != r.snapshotId
    requires forall i | 0 <= i < |r.instructions| :: !UsedInstruction(rs, r.instructions[i].instructionId)
    ensures RevisionsSound(rs + [r])
  {
    var rs' := rs + [r];
    hide RevisionSound, SharesInstruction, UsedInstruction, TargetIds, Follows;
    DistinctSnoc(rs, r, SnapshotIdOf);
    hide DistinctBy;
    forall k | 0 <= k < |rs'| ensures RevisionSound(rs'[k]) && Follows(rs', k) {
      if k < |rs| {
        assert RevisionSound(rs[k]) && Follows(rs, k);
        FollowsStill(rs, r, k);
      } else {
        FollowsLast(rs, r);
      }
    }
    forall k, k' | 0 <= k < k' < |rs'| ensures !SharesInstruction(rs'[k], rs'[k']) {
      if k' == |rs| {
        FreshInstructions(rs, r, k);
      }
    }
  }

  lemma FollowsStill(rs: seq<Revision>, r: Revision, k: nat)
    requires k < |rs| && Follows(rs, k)
    ensures Follows(rs + [r], k)
  {
    hide TargetIds;
  }

  lemma FollowsLast(rs: seq<Revision>, r: Revision)
    requires rs != [] && r.ordinal == |rs| + 1 && r.caseId == rs[0].caseId &&
             r.previousSnapshotId == Some(rs[|rs| - 1].snapshotId)
    requires r.content.groupId == rs[0].content.groupId && TargetIds(r) == TargetIds(rs[0])
    ensures Follows(rs + [r], |rs|)
  {
    hide TargetIds;
  }

  lemma ApprovalAdded(approvals: seq<Approval>, rs: seq<Revision>, rs': seq<Revision>, a: Approval)
    requires ApprovalsSound(approvals, rs) && rs <= rs' && Asked(rs', a)
    requires forall b | b in approvals :: JudgementOf(b) != JudgementOf(a)
    ensures ApprovalsSound(approvals + [a], rs')
  {
    DistinctSnoc(approvals, a, JudgementOf);
    forall b | b in approvals + [a] ensures Asked(rs', b) {
      if b in approvals {
        var k :| 0 <= k < |rs| && rs[k].snapshotId == b.snapshotId &&
          b.participantId in rs[k].content.requiredApproverIds;
        assert rs'[k] == rs[k];
      }
    }
  }

  lemma ApprovalsCarry(approvals: seq<Approval>, rs: seq<Revision>, rs': seq<Revision>)
    requires ApprovalsSound(approvals, rs) && rs <= rs'
    ensures ApprovalsSound(approvals, rs')
  {
    forall b | b in approvals ensures Asked(rs', b) {
      var k :| 0 <= k < |rs| && rs[k].snapshotId == b.snapshotId &&
        b.participantId in rs[k].content.requiredApproverIds;
      assert rs'[k] == rs[k];
    }
  }

  // ---- decided cases ----

  lemma NothingReported(r: Revision)
    requires RevisionSound(r)
    ensures PaymentsSound([], r) && CancellationsSound([], r)
    ensures AllReceived(r.instructions, []) <==> r.instructions == []
    ensures r.instructions == [] <==> AllEven(r.content)
  {
    NoCandidatesIffZero(r.content);
    assert r.instructions != [] ==>
      LatestAttempt([], r.instructions[0].instructionId).None? && r.instructions[0] in r.instructions;
  }

  lemma LastRevision(rs: seq<Revision>)
    requires RevisionsSound(rs)
    ensures rs != [] && RevisionSound(rs[|rs| - 1]) && rs[|rs| - 1].caseId == rs[0].caseId
  {
    hide RevisionSound, SharesInstruction, DistinctBy, TargetIds;
    assert Follows(rs, |rs| - 1);
  }

  /** The status computed from decisions fits the empty histories it comes with. */
  lemma DecidedSound(revisions: seq<Revision>, approvals: seq<Approval>, version: int, at: int, w: Option<Withdrawal>)
    requires RevisionsSound(revisions) && ApprovalsSound(approvals, revisions) && version >= 1
    ensures CaseSound(WithDecisions(revisions, approvals, version, at, w))
  {
    hide RevisionsSound, RevisionSound, ApprovalsSound, PaymentsSound, CancellationsSound, AllReceived, AllApproved,
         AllEven, AnyRejection;
    LastRevision(revisions);
    NothingReported(revisions[|revisions| - 1]);
    var c := WithDecisions(revisions, approvals, version, at, w);
    assert StatusSound(c);
  }

  lemma UndecidedGrows(c: Case, c': Case)
    requires c.attempts == [] && c.cancellations == [] && c'.caseId == c.caseId && c.version <= c'.version
    requires c.revisions <= c'.revisions && c.approvals <= c'.approvals
    ensures Grows(c, c')
  {
  }

  lemma RecordSound(c: Case, id: string, decision: Decision, at: Clock, reason: Option<string>)
    requires CaseSound(c) && c.status == AwaitingApproval && id in Latest(c).content.requiredApproverIds
    requires !Judged(c.approvals, Latest(c).snapshotId, id, Approved)
    requires !Judged(c.approvals, Latest(c).snapshotId, id, Rejected)
    requires Record(c, id, decision, at, reason).Ok?
    ensures var c' := Record(c, id, decision, at, reason).value; CaseSound(c') && Grows(c, c')
  {
    hide RevisionsSound, PaymentsSound, CancellationsSound, AllReceived, AllApproved, AllEven, AnyRejection;
    var a := Approval(Latest(c).snapshotId, id, decision, at.value, reason);
    assert Asked(c.revisions, a);
    NotYetJudged(c.approvals, a);
    ApprovalAdded(c.approvals, c.revisions, c.revisions, a);
    hide ApprovalsSound, Asked;
    DecidedSound(c.revisions, c.approvals + [a], c.version + 1, at.value, c.withdrawal);
    var c' := Record(c, id, decision, at, reason).value;
    assert Latest(c).caseId == c.caseId by { LatestCaseId(c); }
    UndecidedGrows(c, c');
  }

  lemma ApproveSound(c: Case, v: int, s: string, id: string, at: Clock)
    requires CaseSound(c) && Approve(c, v, s, id, at).Ok?
    ensures var c' := Approve(c, v, s, id, at).value; CaseSound(c') && Grows(c, c')
  {
    hide RevisionsSound, ApprovalsSound, PaymentsSound, CancellationsSound, StatusSound, Grows, CurrentRevision, Judged;
    assert c.status == AwaitingApproval && DecisionCheck(c, v, s, id).Pass?;
    hide WithDecisions;
    RecordSound(c, id, Approved, at, None);
  }

  lemma RejectSound(c: Case, v: int, s: string, id: string, at: Clock, reason: string)
    requires CaseSound(c) && Reject(c, v, s, id, at, reason).Ok?
    ensures var c' := Reject(c, v, s, id, at, reason).value; CaseSound(c') && Grows(c, c')
  {
    hide RevisionsSound, ApprovalsSound, PaymentsSound, CancellationsSound, StatusSound, Grows, CurrentRevision, Judged;
    assert c.status == AwaitingApproval && DecisionCheck(c, v, s, id).Pass?;
    hide WithDecisions;
    RecordSound(c, id, Rejected, at, Some(reason));
  }

  lemma LatestCaseId(c: Case)
    requires RevisionsSound(c.revisions) && c.caseId == c.revisions[0].caseId
    ensures Latest(c).caseId == c.caseId && RevisionSound(Latest(c))
  {
    assert Follows(c.revisions, |c.revisions| - 1);
  }

  lemma NotYetJudged(approvals: seq<Approval>, a: Approval)
    requires !Judged(approvals, a.snapshotId, a.participantId, Approved)
    requires !Judged(approvals, a.snapshotId, a.participantId, Rejected)
    ensures forall b | b in approvals :: JudgementOf(b) != JudgementOf(a)
  {
    forall b | b in approvals ensures JudgementOf(b) != JudgementOf(a) {
      var i :| 0 <= i < |approvals| && approvals[i] == b;
      assert b.decision == Approved || b.decision == Rejected;
    }
  }

  lemma ResubmitAccepts(c: Case, v: int, s: string, a: Applicant, o: string, n: string, content: Content, at: Clock,
                        ids: seq<string>)
    requires c.revisions != [] && Resubmit(c, v, s, a, o, n, content, at, ids).Ok?
    ensures var created := CreateRevision(c.caseId, n, content, a, at, ids, |c.revisions| + 1,
                                          Some(Latest(c).snapshotId));
            && created.Ok?
            && var r := created.value;
            && c.status == RevisionRejected
            && content.groupId == c.revisions[0].content.groupId && TargetIds(r) == TargetIds(c.revisions[0])
            && (forall k | 0 <= k < |c.revisions| :: c.revisions[k].snapshotId != n)
            && (forall i | 0 <= i < |r.instructions| :: !UsedInstruction(c.revisions, r.instructions[i].instructionId))
            && Resubmit(c, v, s, a, o, n, content, at, ids).value ==
               WithDecisions(c.revisions + [r], c.approvals + SelfApproval(r), c.version + 1, r.submittedAt, None)
  {
    hide CreateRevision, CaseActor, CurrentRevision, TargetIds, UsedInstruction, SelfApproval, WithDecisions;
  }

  lemma ResubmitSound(c: Case, v: int, s: string, a: Applicant, o: string, n: string, content: Content, at: Clock,
                      ids: seq<string>)
    requires CaseSound(c) && Genuine(content) && Resubmit(c, v, s, a, o, n, content, at, ids).Ok?
    ensures var c' := Resubmit(c, v, s, a, o, n, content, at, ids).value; CaseSound(c') && Grows(c, c')
  {
    hide RevisionSound, PaymentsSound, CancellationsSound, AllReceived, AllApproved, AllEven, AnyRejection,
         ApprovalsSound, Resubmit, Genuine, DistinctBy, SharesInstruction, UsedInstruction, TargetIds, Follows;
    ResubmitAccepts(c, v, s, a, o, n, content, at, ids);
    var previous := Some(Latest(c).snapshotId);
    var created := CreateRevision(c.caseId, n, content, a, at, ids, |c.revisions| + 1, previous);
    CreatedSound(c.caseId, n, content, a, at, ids, |c.revisions| + 1, previous);
    hide CreateRevision;
    var r := created.value;
    RevisionAdded(c.revisions, r);
    hide RevisionsSound;
    SelfApprovalSound(c.approvals, c.revisions, r);
    var approvals := c.approvals + SelfApproval(r);
    hide SelfApproval;
    DecidedSound(c.revisions + [r], approvals, c.version + 1, r.submittedAt, None);
    UndecidedGrows(c, WithDecisions(c.revisions + [r], approvals, c.version + 1, r.submittedAt, None));
  }

  /** The applicant's own approval of a new revision is a required approver's first judgement of it. */
  lemma SelfApprovalSound(approvals: seq<Approval>, rs: seq<Revision>, r: Revision)
    requires ApprovalsSound(approvals, rs) && forall k | 0 <= k < |rs| :: rs[k].snapshotId != r.snapshotId
    ensures ApprovalsSound(approvals + SelfApproval(r), rs + [r])
  {
    ApprovalsCarry(approvals, rs, rs + [r]);
    if r.applicant.participantId in r.content.requiredApproverIds {
      var a := SelfApproval(r)[0];
      assert (rs + [r])[|rs|] == r;
      assert Asked(rs + [r], a);
      forall b | b in approvals ensures JudgementOf(b) != JudgementOf(a) {
        assert Asked(rs, b);
      }
      ApprovalAdded(approvals, rs, rs + [r], a);
    } else {
      assert approvals + SelfApproval(r) == approvals;
    }
  }

  lemma StartSound(caseId: string, snapshotId: string, content: Content, a: Applicant, at: Clock, ids: seq<string>)
    requires Genuine(content) && Start(caseId, snapshotId, content, a, at, ids).Ok?
    ensures CaseSound(Start(caseId, snapshotId, content, a, at, ids).value)
  {
    hide RevisionSound, PaymentsSound, CancellationsSound, AllReceived, AllApproved, AllEven, AnyRejection,
         ApprovalsSound, Genuine, SharesInstruction, TargetIds, StatusSound, DecidedStatus, CaseSound, WithDecisions;
    var created := CreateRevision(caseId, snapshotId, content, a, at, ids, 1, None);
    assert created.Ok?;
    CreatedSound(caseId, snapshotId, content, a, at, ids, 1, None);
    hide CreateRevision;
    var r := created.value;
    assert RevisionsSound([r]) by { assert Follows([r], 0); }
    hide RevisionsSound, DistinctBy;
    FirstApprovalSound(r);
    hide SelfApproval;
    DecidedSound([r], SelfApproval(r), 1, r.submittedAt, None);
  }

  lemma FirstApprovalSound(r: Revision)
    ensures ApprovalsSound(SelfApproval(r), [r])
  {
    assert ApprovalsSound([], []);
    SelfApprovalSound([], [], r);
    assert [] + [r] == [r] && [] + SelfApproval(r) == SelfApproval(r);
  }

  lemma WithdrawSound(c: Case, v: int, s: string, a: Applicant, o: string, reason: string, at: Clock)
    requires CaseSound(c) && Withdraw(c, v, s, a, o, reason, at).Ok?
    ensures var c' := Withdraw(c, v, s, a, o, reason, at).value; CaseSound(c') && Grows(c, c')
  {
    hide *;
    SoundParts(c);
    WithdrawnIs(c, v, s, a, o, reason, at);
    UndecidedParts(c);
    var w := Withdrawal(Latest(c).snapshotId, a, reason, at.value);
    DecidedSound(c.revisions, c.approvals, c.version + 1, at.value, Some(w));
    UndecidedGrows(c, Withdraw(c, v, s, a, o, reason, at).value);
  }

  lemma SoundParts(c: Case)
    requires CaseSound(c)
    ensures c.revisions != [] && RevisionsSound(c.revisions) && c.version >= 1
    ensures c.caseId == Latest(c).caseId && ApprovalsSound(c.approvals, c.revisions)
  {
    LatestCaseId(c);
    hide RevisionsSound, ApprovalsSound, PaymentsSound, CancellationsSound, StatusSound;
  }

  lemma WithdrawnIs(c: Case, v: int, s: string, a: Applicant, o: string, reason: string, at: Clock)
    requires c.revisions != [] && Withdraw(c, v, s, a, o, reason, at).Ok?
    ensures c.status == AwaitingApproval || c.status == RevisionRejected
    ensures at.Some?
    ensures var w := Withdrawal(Latest(c).snapshotId, a, reason, at.value);
            var c' := Withdraw(c, v, s, a, o, reason, at).value;
            && c' == WithDecisions(c.revisions, c.approvals, c.version + 1, at.value, Some(w))
            && c'.caseId == Latest(c).caseId && c'.version == c.version + 1
            && c'.revisions == c.revisions && c'.approvals == c.approvals
  {
    hide CurrentRevision, CaseActor, Nonempty, DecidedStatus;
  }

  lemma UndecidedParts(c: Case)
    requires CaseSound(c) && (c.status == AwaitingApproval || c.status == RevisionRejected)
    ensures c.attempts == [] && c.cancellations == []
  {
    hide RevisionsSound, ApprovalsSound, PaymentsSound, CancellationsSound, AllReceived, AllApproved, AllEven,
         AnyRejection;
  }

  // ---- payments ----

  lemma ReportsAppended(attempts: seq<Attempt>, a: Attempt, id: string)
    requires ReportsSound(Reports(attempts, id))
    requires a.instructionId == id ==> a.ordinal == |Reports(attempts, id)| + 1
    requires a.instructionId == id ==>
             Reports(attempts, id) == [] || Reports(attempts, id)[|Reports(attempts, id)| - 1].IsReturned()
    ensures ReportsSound(Reports(attempts + [a], id))
  {
    FilterAppend(attempts, a, ForInstruction(id));
  }

  lemma ReportAppended(attempts: seq<Attempt>, r: Revision, a: Attempt)
    requires PaymentsSound(attempts, r) && AttemptSound(a, r) && !KnownAttempt(attempts, a.attemptId)
    requires a.ordinal == |Reports(attempts, a.instructionId)| + 1
    requires var latest := LatestAttempt(attempts, a.instructionId); latest.None? || latest.value.IsReturned()
    ensures PaymentsSound(attempts + [a], r)
  {
    hide AttemptSound, ReportsSound, Reports;
    forall b | b in attempts ensures AttemptIdOf(b) != AttemptIdOf(a) {
      var i :| 0 <= i < |attempts| && attempts[i] == b;
    }
    DistinctSnoc(attempts, a, AttemptIdOf);
    forall id ensures ReportsSound(Reports(attempts + [a], id)) {
      ReportsAppended(attempts, a, id);
    }
  }

  lemma ReplacingOne(attempts: seq<Attempt>, old': Attempt, a: Attempt)
    requires DistinctBy(attempts, AttemptIdOf) && old' in attempts && a.attemptId == old'.attemptId
    ensures forall x | x in attempts :: Replacing(a)(x) == if x == old' then a else x
  {
    DistinctByCounts(attempts, AttemptIdOf);
    forall x | x in attempts ensures Replacing(a)(x) == if x == old' then a else x {
      assert AttemptIdOf(x) == AttemptIdOf(old') ==> x == old';
    }
  }

  lemma ReceiptRecorded(attempts: seq<Attempt>, r: Revision, old': Attempt, a: Attempt)
    requires PaymentsSound(attempts, r) && old' in attempts && old'.IsReported()
    requires a == old'.(receipt := a.receipt) && a.receipt.Some? &&
             a.receipt.value.participantId == a.payeeParticipantId
    ensures PaymentsSound(Map(attempts, Replacing(a)), r)
    ensures forall i | 0 <= i < |attempts| :: AttemptKept(attempts[i], Map(attempts, Replacing(a))[i])
  {
    var after := Map(attempts, Replacing(a));
    ReplacingOne(attempts, old', a);
    forall i, j | 0 <= i < j < |after| ensures AttemptIdOf(after[i]) != AttemptIdOf(after[j]) {
      assert attempts[i] in attempts && attempts[j] in attempts;
      assert AttemptIdOf(attempts[i]) != AttemptIdOf(attempts[j]);
    }
    forall x | x in after ensures AttemptSound(x, r) {
      var i :| 0 <= i < |after| && after[i] == x;
      assert AttemptSound(attempts[i], r) && AttemptSound(old', r);
    }
    forall id ensures ReportsSound(Reports(after, id)) {
      ReportsAfter(attempts, old', a, id);
    }
  }

  lemma ReportsAfter(attempts: seq<Attempt>, old': Attempt, a: Attempt, id: string)
    requires DistinctBy(attempts, AttemptIdOf) && old' in attempts && old'.IsReported()
    requires a == old'.(receipt := a.receipt) && ReportsSound(Reports(attempts, id))
    ensures ReportsSound(Reports(Map(attempts, Replacing(a)), id))
  {
    ReplacingOne(attempts, old', a);
    FilterMap(attempts, Replacing(a), ForInstruction(id));
    var before, after := Reports(attempts, id), Map(Reports(attempts, id), Replacing(a));
    forall k | 0 <= k < |after| ensures after[k].ordinal == k + 1 && (k < |after| - 1 ==> after[k].IsReturned()) {
      assert before[k] in before;
    }
  }

  lemma PaidSound(c: Case, a: Attempt, at: int, attempts: seq<Attempt>)
    requires CaseSound(c) && c.status == PaymentActive
    requires attempts == if KnownAttempt(c.attempts, a.attemptId) then Map(c.attempts, Replacing(a))
             else c.attempts + [a]
    requires PaymentsSound(attempts, Latest(c))
    requires |c.attempts| <= |attempts| && forall i | 0 <= i < |c.attempts| :: AttemptKept(c.attempts[i], attempts[i])
    ensures CaseSound(WithPaymentAttempt(c, a, at)) && Grows(c, WithPaymentAttempt(c, a, at))
  {
    hide RevisionsSound, ApprovalsSound, PaymentsSound, CancellationsSound, AllReceived, AllApproved, AllEven,
         AnyRejection, AttemptKept, KnownAttempt, Replacing;
  }

  lemma ReportSound(c: Case, v: int, s: string, i: string, id: string, p: string, amount: int, at: Clock)
    requires CaseSound(c) && ReportPayment(c, v, s, i, id, p, amount, at).Ok?
    ensures var c' := ReportPayment(c, v, s, i, id, p, amount, at).value; CaseSound(c') && Grows(c, c')
  {
    hide *;
    SoundParts(c);
    SoundPayments(c);
    var a := ReportedIs(c, v, s, i, id, p, amount, at);
    ReportAppended(c.attempts, Latest(c), a);
    AttemptsKept(c.attempts, a);
    PaidSound(c, a, a.reportedAt, c.attempts + [a]);
  }

  lemma SoundPayments(c: Case)
    requires CaseSound(c)
    ensures PaymentsSound(c.attempts, Latest(c))
  {
    hide RevisionsSound, ApprovalsSound, CancellationsSound, StatusSound, PaymentsSound;
  }

  /** The attempt that a report adds. */
  lemma ReportedIs(c: Case, v: int, s: string, i: string, id: string, p: string, amount: int, at: Clock)
    returns (a: Attempt)
    requires c.revisions != [] && ReportPayment(c, v, s, i, id, p, amount, at).Ok?
    ensures c.status == PaymentActive && a.attemptId == id && !KnownAttempt(c.attempts, id)
    ensures AttemptSound(a, Latest(c))
    ensures a.ordinal == |Reports(c.attempts, a.instructionId)| + 1
    ensures var latest := LatestAttempt(c.attempts, a.instructionId); latest.None? || latest.value.IsReturned()
    ensures ReportPayment(c, v, s, i, id, p, amount, at).value == WithPaymentAttempt(c, a, a.reportedAt)
  {
    hide WithPaymentAttempt, KnownAttempt, Reports, LatestAttempt, AllReceived;
    var instruction := RequireInstruction(c, v, s, i).value;
    a := NewAttempt(Latest(c).snapshotId, instruction, id, p, amount, at,
                    |Reports(c.attempts, instruction.instructionId)| + 1).value;
  }

  lemma AttemptsKept(attempts: seq<Attempt>, a: Attempt)
    ensures forall i | 0 <= i < |attempts| :: AttemptKept(attempts[i], (attempts + [a])[i])
  {
  }

  lemma LatestIsKnown(attempts: seq<Attempt>, instructionId: string)
    requires LatestAttempt(attempts, instructionId).Some?
    ensures var a := LatestAttempt(attempts, instructionId).value;
            a in attempts && a.instructionId == instructionId && KnownAttempt(attempts, a.attemptId)
  {
    var reports := Reports(attempts, instructionId);
    assert reports[|reports| - 1] in reports;
    var a := reports[|reports| - 1];
    var i :| 0 <= i < |attempts| && attempts[i] == a;
  }

  lemma DecideIs(latest: Attempt, p: string, d: ReceiptDecision, at: Clock, reason: Option<string>)
    requires Decide(latest, p, d, at, reason).Ok?
    ensures var a := Decide(latest, p, d, at, reason).value;
            latest.IsReported() && a == latest.(receipt := a.receipt) && a.receipt.Some? &&
              a.receipt.value.participantId == a.payeeParticipantId
  {
  }

  lemma AnswerSound(c: Case, latest: Attempt, p: string, d: ReceiptDecision, at: Clock, reason: Option<string>)
    requires CaseSound(c) && c.status == PaymentActive && latest in c.attempts &&
             KnownAttempt(c.attempts, latest.attemptId)
    requires Decide(latest, p, d, at, reason).Ok?
    ensures Decide(latest, p, d, at, reason).value.receipt.Some?
    ensures var a := Decide(latest, p, d, at, reason).value;
            var c' := WithPaymentAttempt(c, a, a.receipt.value.decidedAt); CaseSound(c') && Grows(c, c')
  {
    hide RevisionsSound, ApprovalsSound, CancellationsSound, StatusSound, PaymentsSound, AllReceived, Grows,
         WithPaymentAttempt, AttemptKept, KnownAttempt, Decide, Replacing;
    var a := Decide(latest, p, d, at, reason).value;
    DecideIs(latest, p, d, at, reason);
    ReceiptRecorded(c.attempts, Latest(c), latest, a);
    PaidSound(c, a, a.receipt.value.decidedAt, Map(c.attempts, Replacing(a)));
  }

  lemma ConfirmSound(c: Case, v: int, s: string, i: string, id: string, p: string, at: Clock)
    requires CaseSound(c) && ConfirmReceipt(c, v, s, i, id, p, at).Ok?
    ensures var c' := ConfirmReceipt(c, v, s, i, id, p, at).value; CaseSound(c') && Grows(c, c')
  {
    hide RevisionsSound, ApprovalsSound, PaymentsSound, CancellationsSound, StatusSound, Grows, WithPaymentAttempt;
    var latest := RequireLatestAttempt(c, v, s, i, id).value;
    LatestIsKnown(c.attempts, RequireInstruction(c, v, s, i).value.instructionId);
    AnswerSound(c, latest, p, Received, at, None);
  }

  lemma ReturnSound(c: Case, v: int, s: string, i: string, id: string, p: string, at: Clock, reason: string)
    requires CaseSound(c) && ReturnPayment(c, v, s, i, id, p, at, reason).Ok?
    ensures var c' := ReturnPayment(c, v, s, i, id, p, at, reason).value; CaseSound(c') && Grows(c, c')
  {
    hide RevisionsSound, ApprovalsSound, PaymentsSound, CancellationsSound, StatusSound, Grows, WithPaymentAttempt;
    var latest := RequireLatestAttempt(c, v, s, i, id).value;
    LatestIsKnown(c.attempts, RequireInstruction(c, v, s, i).value.instructionId);
    AnswerSound(c, latest, p, Returned, at, Some(reason));
  }

  // ---- cancellation ----

  lemma RequestAppended(cs: seq<Cancellation>, r: Revision, request: Cancellation)
    requires CancellationsSound(cs, r) && !KnownCancellation(cs, request.cancellationId)
    requires request.ordinal == |cs| + 1 && request.snapshotId == r.snapshotId
    requires request.requiredApproverIds == r.content.requiredApproverIds && request.decisions == []
    requires cs != [] ==> LastStatus(cs) == RequestDeclined
    ensures CancellationsSound(cs + [request], r)
  {
    hide Cancellation.Status;
    forall b | b in cs ensures CancellationIdOf(b) != CancellationIdOf(request) {
      var i :| 0 <= i < |cs| && cs[i] == b;
    }
    DistinctSnoc(cs, request, CancellationIdOf);
    forall k | 0 <= k < |cs| + 1 ensures RequestSound(cs + [request], k, r) {
      assert k < |cs| ==> RequestSound(cs, k, r);
    }
  }

  lemma RequestAccepts(c: Case, v: int, s: string, a: Applicant, o: string, id: string, reason: string, at: Clock)
    returns (request: Cancellation)
    requires c.revisions != [] && RequestCancellation(c, v, s, a, o, id, reason, at).Ok?
    ensures c.status == PaymentActive && c.attempts == [] && !KnownCancellation(c.cancellations, id)
    ensures request.cancellationId == id && request.snapshotId == Latest(c).snapshotId && request.decisions == []
    ensures request.ordinal == |c.cancellations| + 1
    ensures request.requiredApproverIds == Latest(c).content.requiredApproverIds != []
    ensures RequestCancellation(c, v, s, a, o, id, reason, at).value == WithCancellation(c, request)
  {
    hide WithCancellation, KnownCancellation, CaseActor, CurrentRevision, CanonicalUuid, Nonempty, Repeats;
    request := NewCancellation(Latest(c).snapshotId, Latest(c).content.requiredApproverIds, id, a, reason, at,
                               |c.cancellations| + 1).value;
  }

  lemma RequestedSound(c: Case, request: Cancellation)
    requires CaseSound(c) && c.status == PaymentActive && c.attempts == []
    requires CancellationsSound(c.cancellations + [request], Latest(c))
    requires !KnownCancellation(c.cancellations, request.cancellationId)
    requires request.Status() == RequestPending && Latest(c).instructions != []
    ensures CaseSound(WithCancellation(c, request)) && Grows(c, WithCancellation(c, request))
  {
    hide RevisionsSound, ApprovalsSound, PaymentsSound, AllApproved, AllEven, AnyRejection, AllReceived,
         Cancellation.Status, CancellationsSound, KnownCancellation;
  }

  lemma RequestCancellationSound(c: Case, v: int, s: string, a: Applicant, o: string, id: string, reason: string,
                                 at: Clock)
    requires CaseSound(c) && RequestCancellation(c, v, s, a, o, id, reason, at).Ok?
    ensures var c' := RequestCancellation(c, v, s, a, o, id, reason, at).value; CaseSound(c') && Grows(c, c')
  {
    hide RevisionsSound, ApprovalsSound, PaymentsSound, CancellationsSound, RequestCancellation, WithCancellation,
         Grows, AllApproved, AllEven, AnyRejection, KnownCancellation;
    var request := RequestAccepts(c, v, s, a, o, id, reason, at);
    RequestAppended(c.cancellations, Latest(c), request);
    assert request.requiredApproverIds[0] in request.requiredApproverIds;
    assert request.Status() == RequestPending;
    assert Latest(c).instructions != [];
    RequestedSound(c, request);
  }

  lemma DecisionRecorded(cs: seq<Cancellation>, r: Revision, request: Cancellation)
    requires CancellationsSound(cs, r) && cs != []
    requires var last := cs[|cs| - 1];
             request == last.(decisions := request.decisions) && DistinctBy(request.decisions, ConsenterOf) &&
             (forall d | d in request.decisions :: d.participantId in request.requiredApproverIds)
    ensures KnownCancellation(cs, request.cancellationId)
    ensures Map(cs, ReplacingRequest(request)) == cs[|cs| - 1 := request]
    ensures CancellationsSound(Map(cs, ReplacingRequest(request)), r)
  {
    hide Cancellation.Status;
    var last := |cs| - 1;
    assert cs[last].cancellationId == request.cancellationId;
    forall k | 0 <= k < |cs| ensures ReplacingRequest(request)(cs[k]) == cs[last := request][k] {
      assert k < last ==> CancellationIdOf(cs[k]) != CancellationIdOf(cs[last]);
    }
    var after := Map(cs, ReplacingRequest(request));
    assert after == cs[last := request];
    forall i, j | 0 <= i < j < |after| ensures CancellationIdOf(after[i]) != CancellationIdOf(after[j]) {
      assert CancellationIdOf(cs[i]) != CancellationIdOf(cs[j]);
    }
    forall k | 0 <= k < |after| ensures RequestSound(after, k, r) {
      assert RequestSound(cs, k, r);
    }
  }

  lemma ConsentAdded(request: Cancellation, id: string, d: CancellationDecision)
    requires DistinctBy(request.decisions, ConsenterOf) && !request.Says(d.participantId, Agreed) &&
             !request.Says(d.participantId, Declined)
    ensures DistinctBy(request.decisions + [d], ConsenterOf)
  {
    forall b | b in request.decisions ensures ConsenterOf(b) != ConsenterOf(d) {
      var i :| 0 <= i < |request.decisions| && request.decisions[i] == b;
      assert b.decision == Agreed || b.decision == Declined;
    }
    DistinctSnoc(request.decisions, d, ConsenterOf);
  }

  lemma DecideAccepts(c: Case, v: int, s: string, cid: string, id: string, consent: Consent, at: Clock)
    returns (request: Cancellation)
    requires c.revisions != [] && DecideCancellation(c, v, s, cid, id, consent, at).Ok?
    ensures c.status == CancellationPending && c.cancellations != []
    ensures var last := c.cancellations[|c.cancellations| - 1];
            && at.Some? && id in last.requiredApproverIds && !last.Says(id, Agreed) && !last.Says(id, Declined)
            && request == last.(decisions := last.decisions + [CancellationDecision(id, consent, at.value)])
    ensures DecideCancellation(c, v, s, cid, id, consent, at).value == WithCancellation(c, request)
  {
    hide WithCancellation, CurrentRevision, Cancellation.Status, Cancellation.Says;
    request := Consented(RequireCancellation(c, v, s, cid).value, cid, s, id, consent, at).value;
  }

  lemma DecidedRequestSound(c: Case, request: Cancellation)
    requires CaseSound(c) && c.status == CancellationPending &&
             KnownCancellation(c.cancellations, request.cancellationId)
    requires c.cancellations != [] && RequestKept(c.cancellations[|c.cancellations| - 1], request)
    requires var cs := Map(c.cancellations, ReplacingRequest(request));
             cs == c.cancellations[|c.cancellations| - 1 := request] && CancellationsSound(cs, Latest(c))
    requires !AllReceived(Latest(c).instructions, [])
    ensures CaseSound(WithCancellation(c, request)) && Grows(c, WithCancellation(c, request))
  {
    hide RevisionsSound, ApprovalsSound, PaymentsSound, AllApproved, AllEven, AnyRejection, AllReceived,
         Cancellation.Status, CancellationsSound, KnownCancellation, ReplacingRequest;
  }

  lemma DecideCancellationSound(c: Case, v: int, s: string, cid: string, id: string, consent: Consent, at: Clock)
    requires CaseSound(c) && DecideCancellation(c, v, s, cid, id, consent, at).Ok?
    ensures var c' := DecideCancellation(c, v, s, cid, id, consent, at).value; CaseSound(c') && Grows(c, c')
  {
    hide RevisionsSound, ApprovalsSound, PaymentsSound, AllApproved, AllEven, AnyRejection, AllReceived,
         DecideCancellation, WithCancellation, Grows, KnownCancellation, Cancellation.Status, Cancellation.Says;
    var request := DecideAccepts(c, v, s, cid, id, consent, at);
    var last := c.cancellations[|c.cancellations| - 1];
    assert RequestSound(c.cancellations, |c.cancellations| - 1, Latest(c));
    hide CancellationsSound, DistinctBy, ReplacingRequest;
    ConsentAdded(last, id, CancellationDecision(id, consent, at.value));
    DecisionRecorded(c.cancellations, Latest(c), request);
    LatestCaseId(c);
    NothingReported(Latest(c));
    DecidedRequestSound(c, request);
  }
}
