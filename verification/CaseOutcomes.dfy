/**
 * When each operation of a settlement case is accepted, and the one case it then leads to, in terms of the recorded
 * judgements, reports, receipts and consents alone.
 */
module CaseOutcomes {
  import opened Outcomes
  import opened Sequences
  import opened Text
  import opened TransferSearch
  import opened SnapshotContent
  import opened SnapshotProperties
  import opened SettlementCase
  import opened CaseInvariants

  // ---- what a call names ----

  /** The call names the version and the snapshot of the case. */
  ghost predicate Current(c: Case, v: int, s: string)
    requires c.revisions != []
  {
    -MAX_SAFE <= v <= MAX_SAFE && v == c.version && s == c.revisions[|c.revisions| - 1].snapshotId
  }

  /** The first applicant's subject, or the group's current owner, with nothing left blank. */
  ghost predicate MayAct(c: Case, applicant: Applicant, owner: string)
    requires c.revisions != []
  {
    && Nonempty(applicant.actorSubject) && Nonempty(applicant.participantId) && Nonempty(owner)
    && (applicant.actorSubject == c.revisions[0].applicant.actorSubject || applicant.actorSubject == owner)
  }

  lemma CurrentChecks(c: Case, v: int, s: string)
    requires c.revisions != []
    ensures CurrentRevision(c, v, s).Pass? <==> Current(c, v, s)
  {
  }

  lemma ActorChecks(c: Case, applicant: Applicant, owner: string)
    requires c.revisions != []
    ensures CaseActor(c, applicant, owner).Pass? <==> MayAct(c, applicant, owner)
  {
    hide Nonempty;
  }

  // ---- judgements ----

  ghost predicate HasJudged(c: Case, p: string)
    requires c.revisions != []
  {
    exists a :: a in c.approvals && a.snapshotId == c.revisions[|c.revisions| - 1].snapshotId && a.participantId == p
  }

  ghost predicate MayJudge(c: Case, v: int, s: string, p: string, at: Clock)
    requires c.revisions != []
  {
    && c.status == AwaitingApproval && Current(c, v, s) && at.Some? && !HasJudged(c, p)
    && p in c.revisions[|c.revisions| - 1].content.requiredApproverIds
  }

  /** Every required approver of the revision has approved it. */
  ghost predicate Unanimous(approvals: seq<Approval>, r: Revision) {
    forall p | p in r.content.requiredApproverIds ::
      exists a :: a in approvals && a.snapshotId == r.snapshotId && a.participantId == p &&
                  a.decision == Decision.Approved
  }

  ghost predicate NothingOwed(r: Revision) {
    forall x | x in r.content.balances :: x.amount == 0
  }

  ghost predicate ApprovedBy(c: Case, p: string, at: int, c': Case)
    requires c.revisions != []
  {
    var r := c.revisions[|c.revisions| - 1];
    var approvals := c.approvals + [Approval(r.snapshotId, p, Decision.Approved, at, None)];
    var status := if !Unanimous(approvals, r) then AwaitingApproval
                  else if NothingOwed(r) then Status.Archived else PaymentActive;
    c' == c.(approvals := approvals, status := status, version := c.version + 1,
             archivedAt := if status == Status.Archived then Some(at) else None)
  }

  ghost predicate RejectedBy(c: Case, p: string, at: int, reason: string, c': Case)
    requires c.revisions != []
  {
    var r := c.revisions[|c.revisions| - 1];
    c' == c.(approvals := c.approvals + [Approval(r.snapshotId, p, Decision.Rejected, at, Some(reason))],
             status := RevisionRejected, version := c.version + 1)
  }

  lemma JudgeChecks(c: Case, v: int, s: string, p: string)
    requires c.revisions != []
    ensures DecisionCheck(c, v, s, p).Pass? <==>
            c.status == AwaitingApproval && Current(c, v, s) && !HasJudged(c, p) &&
            p in c.revisions[|c.revisions| - 1].content.requiredApproverIds
  {
    CurrentChecks(c, v, s);
    hide CurrentRevision, Current;
    var snapshotId := Latest(c).snapshotId;
    if HasJudged(c, p) {
      var a :| a in c.approvals && a.snapshotId == snapshotId && a.participantId == p;
      var i :| 0 <= i < |c.approvals| && c.approvals[i] == a;
      assert a.decision == Decision.Approved || a.decision == Decision.Rejected;
    }
  }

  lemma UnanimousIs(approvals: seq<Approval>, r: Revision)
    ensures AllApproved(approvals, r) <==> Unanimous(approvals, r)
  {
    forall p ensures Judged(approvals, r.snapshotId, p, Decision.Approved) <==>
      exists a :: a in approvals && a.snapshotId == r.snapshotId && a.participantId == p &&
                  a.decision == Decision.Approved
    {
      if a :| a in approvals && a.snapshotId == r.snapshotId && a.participantId == p &&
              a.decision == Decision.Approved {
        var i :| 0 <= i < |approvals| && approvals[i] == a;
      }
    }
  }

  /** What is recorded while a revision is being judged. */
  lemma JudgedParts(c: Case)
    requires CaseSound(c) && c.status == AwaitingApproval
    ensures c.attempts == [] && c.cancellations == [] && c.withdrawal.None? && c.archivedAt.None?
    ensures !AnyRejection(c.approvals, Latest(c).snapshotId) && c.caseId == Latest(c).caseId
  {
    LatestCaseId(c);
    hide RevisionsSound, ApprovalsSound, PaymentsSound, CancellationsSound, AllReceived, AllApproved, AllEven,
         AnyRejection;
  }

  lemma OneMoreRejection(approvals: seq<Approval>, a: Approval, snapshotId: string)
    ensures AnyRejection(approvals + [a], snapshotId) <==>
            AnyRejection(approvals, snapshotId) || (a.snapshotId == snapshotId && a.decision == Decision.Rejected)
  {
    var more := approvals + [a];
    if i :| 0 <= i < |approvals| && approvals[i].snapshotId == snapshotId &&
            approvals[i].decision == Decision.Rejected {
      assert more[i] == approvals[i];
    }
    assert more[|approvals|] == a;
  }

  /** An approval is accepted from every required approver once, and decides the revision when it is the last one. */
  lemma ApproveExact(c: Case, v: int, s: string, p: string, at: Clock)
    requires CaseSound(c)
    ensures Approve(c, v, s, p, at).Ok? <==> MayJudge(c, v, s, p, at)
    ensures Approve(c, v, s, p, at).Ok? ==> ApprovedBy(c, p, at.value, Approve(c, v, s, p, at).value)
  {
    hide *;
    SoundParts(c);
    JudgeChecks(c, v, s, p);
    ApproveIs(c, v, s, p, at);
    MayJudgeIs(c, v, s, p, at);
    if Approve(c, v, s, p, at).Ok? {
      JudgedParts(c);
      ApprovedIs(c, p, at.value);
    }
  }

  lemma MayJudgeIs(c: Case, v: int, s: string, p: string, at: Clock)
    requires c.revisions != []
    ensures MayJudge(c, v, s, p, at) <==>
            c.status == AwaitingApproval && Current(c, v, s) && !HasJudged(c, p) && at.Some? &&
            p in c.revisions[|c.revisions| - 1].content.requiredApproverIds
  {
    hide Current, HasJudged;
  }

  /** The case after one more judgement on its latest revision. */
  function Decided(c: Case, p: string, decision: Decision, at: int, reason: Option<string>): Case
    requires c.revisions != []
  {
    WithDecisions(c.revisions, c.approvals + [Approval(Latest(c).snapshotId, p, decision, at, reason)], c.version + 1,
                  at, c.withdrawal)
  }

  lemma ApproveIs(c: Case, v: int, s: string, p: string, at: Clock)
    requires c.revisions != []
    ensures Approve(c, v, s, p, at).Ok? <==> DecisionCheck(c, v, s, p).Pass? && at.Some?
    ensures Approve(c, v, s, p, at).Ok? ==>
            Approve(c, v, s, p, at).value == Decided(c, p, Decision.Approved, at.value, None)
  {
    hide DecisionCheck, WithDecisions;
  }

  lemma RejectIs(c: Case, v: int, s: string, p: string, at: Clock, reason: string)
    requires c.revisions != []
    ensures Reject(c, v, s, p, at, reason).Ok? <==> DecisionCheck(c, v, s, p).Pass? && at.Some? && Nonempty(reason)
    ensures Reject(c, v, s, p, at, reason).Ok? ==>
            Reject(c, v, s, p, at, reason).value == Decided(c, p, Decision.Rejected, at.value, Some(reason))
  {
    hide DecisionCheck, WithDecisions, Nonempty;
  }

  lemma ApprovedIs(c: Case, p: string, at: int)
    requires c.revisions != [] && c.caseId == Latest(c).caseId && !AnyRejection(c.approvals, Latest(c).snapshotId)
    requires c.attempts == [] && c.cancellations == [] && c.withdrawal.None? && c.archivedAt.None?
    ensures ApprovedBy(c, p, at, Decided(c, p, Decision.Approved, at, None))
  {
    var a := Approval(Latest(c).snapshotId, p, Decision.Approved, at, None);
    OneMoreRejection(c.approvals, a, a.snapshotId);
    UnanimousIs(c.approvals + [a], Latest(c));
    EvenIs(Latest(c));
    hide AnyRejection, NothingOwed, AllApproved, Unanimous, AllEven;
  }

  lemma RejectedIs(c: Case, p: string, at: int, reason: string)
    requires c.revisions != [] && c.caseId == Latest(c).caseId
    requires c.attempts == [] && c.cancellations == [] && c.withdrawal.None? && c.archivedAt.None?
    ensures RejectedBy(c, p, at, reason, Decided(c, p, Decision.Rejected, at, Some(reason)))
  {
    var a := Approval(Latest(c).snapshotId, p, Decision.Rejected, at, Some(reason));
    OneMoreRejection(c.approvals, a, a.snapshotId);
    hide AnyRejection, AllApproved, AllEven;
  }

  lemma EvenIs(r: Revision)
    ensures AllEven(r.content) <==> NothingOwed(r)
  {
  }

  /** A rejection likewise, with a reason, and rejects the revision. */
  lemma RejectExact(c: Case, v: int, s: string, p: string, at: Clock, reason: string)
    requires CaseSound(c)
    ensures Reject(c, v, s, p, at, reason).Ok? <==> MayJudge(c, v, s, p, at) && Nonempty(reason)
    ensures Reject(c, v, s, p, at, reason).Ok? ==>
            RejectedBy(c, p, at.value, reason, Reject(c, v, s, p, at, reason).value)
  {
    hide *;
    SoundParts(c);
    JudgeChecks(c, v, s, p);
    RejectIs(c, v, s, p, at, reason);
    MayJudgeIs(c, v, s, p, at);
    if Reject(c, v, s, p, at, reason).Ok? {
      JudgedParts(c);
      RejectedIs(c, p, at.value, reason);
    }
  }

  // ---- the last report of an instruction ----

  /** The report at `k` is the last one of the instruction. */
  ghost predicate LastReport(attempts: seq<Attempt>, id: string, k: nat) {
    && k < |attempts| && attempts[k].instructionId == id
    && forall n | k < n < |attempts| :: attempts[n].instructionId != id
  }

  /** The last report of the instruction was answered so. */
  ghost predicate Answered(attempts: seq<Attempt>, id: string, decision: ReceiptDecision) {
    exists k: nat ::
      LastReport(attempts, id, k) && attempts[k].receipt.Some? && attempts[k].receipt.value.decision == decision
  }

  ghost predicate EverythingReceived(r: Revision, attempts: seq<Attempt>) {
    forall i | i in r.instructions :: Answered(attempts, i.instructionId, ReceiptDecision.Received)
  }

  lemma {:induction false} LatestIs(attempts: seq<Attempt>, id: string)
    ensures LatestAttempt(attempts, id).None? <==> forall a | a in attempts :: a.instructionId != id
    ensures forall k: nat | LastReport(attempts, id, k) ::
              k < |attempts| && LatestAttempt(attempts, id) == Some(attempts[k])
    ensures LatestAttempt(attempts, id).Some? ==> exists k: nat :: LastReport(attempts, id, k)
  {
    if attempts != [] {
      var init, a := attempts[..|attempts| - 1], attempts[|attempts| - 1];
      LatestIs(init, id);
      LatestSnoc(init, a, id);
      assert attempts == init + [a];
      assert attempts[|attempts| - 1] == a;
      LastSnoc(init, a, id);
      hide LatestAttempt, LastReport;
      if a.instructionId != id && LatestAttempt(init, id).Some? {
        var k: nat :| LastReport(init, id, k);
        assert LastReport(attempts, id, k);
      }
    }
  }

  lemma LatestSnoc(init: seq<Attempt>, a: Attempt, id: string)
    ensures LatestAttempt(init + [a], id) == if a.instructionId == id then Some(a) else LatestAttempt(init, id)
  {
    FilterAppend(init, a, ForInstruction(id));
    hide Filter;
    if a.instructionId != id {
      assert Filter(init, ForInstruction(id)) + [] == Filter(init, ForInstruction(id));
    }
  }

  lemma LastSnoc(init: seq<Attempt>, a: Attempt, id: string)
    ensures a.instructionId == id ==> LastReport(init + [a], id, |init|)
    ensures forall k: nat ::
              LastReport(init + [a], id, k) <==> if a.instructionId == id then k == |init| else LastReport(init, id, k)
    ensures forall k: nat | LastReport(init, id, k) :: (init + [a])[k] == init[k]
  {
    var all := init + [a];
    assert all[|init|] == a && forall k | 0 <= k < |init| :: all[k] == init[k];
  }

  lemma AnsweredIs(attempts: seq<Attempt>, id: string, decision: ReceiptDecision)
    ensures Answered(attempts, id, decision) <==>
            LatestAttempt(attempts, id).Some? && LatestAttempt(attempts, id).value.receipt.Some? &&
            LatestAttempt(attempts, id).value.receipt.value.decision == decision
  {
    LatestIs(attempts, id);
    hide LatestAttempt;
    if LatestAttempt(attempts, id).Some? {
      var k: nat :| LastReport(attempts, id, k);
    }
  }

  lemma ReceivedIs(r: Revision, attempts: seq<Attempt>)
    ensures AllReceived(r.instructions, attempts) <==> EverythingReceived(r, attempts)
  {
    hide Answered, LatestAttempt;
    forall id: string
      ensures Answered(attempts, id, ReceiptDecision.Received) <==>
              LatestAttempt(attempts, id).Some? && LatestAttempt(attempts, id).value.IsReceived()
    {
      AnsweredIs(attempts, id, ReceiptDecision.Received);
    }
  }

  /** Only the reports change, and the case is archived exactly when every instruction's last report was received. */
  ghost predicate PaidSoFar(c: Case, attempts: seq<Attempt>, at: int, c': Case)
    requires c.revisions != []
  {
    var done := EverythingReceived(c.revisions[|c.revisions| - 1], attempts);
    c' == c.(attempts := attempts, version := c.version + 1, status := if done then Status.Archived else PaymentActive,
             archivedAt := if done then Some(at) else None)
  }

  lemma FoundInstruction(instructions: seq<PaymentInstruction>, i: PaymentInstruction)
    requires i in instructions && DistinctBy(instructions, InstructionIdOf)
    ensures FindInstruction(instructions, i.instructionId) == Some(i)
  {
    DistinctByCounts(instructions, InstructionIdOf);
    assert InstructionIdOf(FindInstruction(instructions, i.instructionId).value) == InstructionIdOf(i);
  }

  lemma InstructionsDistinct(c: Case)
    requires CaseSound(c)
    ensures RevisionSound(Latest(c)) && DistinctBy(Latest(c).instructions, InstructionIdOf)
  {
    hide ApprovalsSound, PaymentsSound, CancellationsSound, StatusSound, Genuine;
    assert RevisionSound(c.revisions[|c.revisions| - 1]);
  }

  // ---- answering a report ----

  /** The named report is the last one of the instruction, still open, and the participant is its payee. */
  ghost predicate OpenReport(c: Case, i: string, id: string, p: string, k: nat) {
    && LastReport(c.attempts, i, k) && c.attempts[k].attemptId == id && c.attempts[k].receipt.None?
    && c.attempts[k].payeeParticipantId == p
  }

  ghost predicate MayAnswer(c: Case, v: int, s: string, i: string, id: string, p: string, at: Clock)
    requires c.revisions != []
  {
    c.status == PaymentActive && Current(c, v, s) && at.Some? && exists k: nat :: OpenReport(c, i, id, p, k)
  }

  ghost predicate AnsweredWith(c: Case, i: string, id: string, p: string, receipt: PaymentReceipt, c': Case)
    requires c.revisions != []
  {
    exists k: nat :: OpenReport(c, i, id, p, k) &&
      PaidSoFar(c, c.attempts[k := c.attempts[k].(receipt := Some(receipt))], receipt.decidedAt, c')
  }

  lemma RequiredAttempt(c: Case, v: int, s: string, i: string, id: string)
    requires CaseSound(c)
    ensures RequireLatestAttempt(c, v, s, i, id).Ok? <==>
            c.status == PaymentActive && Current(c, v, s) && LatestAttempt(c.attempts, i).Some? &&
            LatestAttempt(c.attempts, i).value.attemptId == id
    ensures RequireLatestAttempt(c, v, s, i, id).Ok? ==>
            RequireLatestAttempt(c, v, s, i, id) == Ok(LatestAttempt(c.attempts, i).value) &&
            LatestAttempt(c.attempts, i).Some?
  {
    hide *;
    SoundParts(c);
    SoundPayments(c);
    CurrentChecks(c, v, s);
    LatestIs(c.attempts, i);
    RequireIs(c, v, s, i, id);
    if k: nat :| LastReport(c.attempts, i, k) {
      ReportedInstruction(c, i, k);
    }
  }

  lemma RequireIs(c: Case, v: int, s: string, i: string, id: string)
    requires c.revisions != []
    ensures RequireLatestAttempt(c, v, s, i, id).Ok? <==>
            c.status == PaymentActive && CurrentRevision(c, v, s).Pass? &&
            FindInstruction(Latest(c).instructions, i).Some? && LatestAttempt(c.attempts, i).Some? &&
            LatestAttempt(c.attempts, i).value.attemptId == id
    ensures RequireLatestAttempt(c, v, s, i, id).Ok? ==>
            RequireLatestAttempt(c, v, s, i, id) == Ok(LatestAttempt(c.attempts, i).value)
  {
    hide CurrentRevision, LatestAttempt;
    if FindInstruction(Latest(c).instructions, i).Some? {
      assert FindInstruction(Latest(c).instructions, i).value.instructionId == i;
    }
    hide FindInstruction;
  }

  lemma ReportedInstruction(c: Case, i: string, k: nat)
    requires CaseSound(c) && LastReport(c.attempts, i, k)
    ensures FindInstruction(Latest(c).instructions, i).Some?
  {
    SoundPayments(c);
    hide CaseSound, ReportsSound, DistinctBy;
    var a := c.attempts[k];
    assert AttemptSound(a, Latest(c));
    var x := PaymentInstruction(a.instructionId, a.payerParticipantId, a.payeeParticipantId, a.amount);
    assert InstructionNamed(i)(x);
  }

  lemma ReplacedAt(attempts: seq<Attempt>, k: nat, a: Attempt)
    requires DistinctBy(attempts, AttemptIdOf) && k < |attempts| && a.attemptId == attempts[k].attemptId
    ensures KnownAttempt(attempts, a.attemptId) && Map(attempts, Replacing(a)) == attempts[k := a]
  {
    forall n | 0 <= n < |attempts| ensures Map(attempts, Replacing(a))[n] == attempts[k := a][n] {
      assert n < k ==> AttemptIdOf(attempts[n]) != AttemptIdOf(attempts[k]);
      assert k < n ==> AttemptIdOf(attempts[k]) != AttemptIdOf(attempts[n]);
    }
  }

  lemma AnswerBecomes(c: Case, i: string, k: nat, receipt: PaymentReceipt)
    requires CaseSound(c) && LastReport(c.attempts, i, k)
    ensures var a := c.attempts[k].(receipt := Some(receipt));
            PaidSoFar(c, c.attempts[k := a], receipt.decidedAt, WithPaymentAttempt(c, a, receipt.decidedAt))
  {
    SoundPayments(c);
    AttemptIdsDistinct(c);
    SoundParts(c);
    var a := c.attempts[k].(receipt := Some(receipt));
    ReplacedAt(c.attempts, k, a);
    ReceivedIs(Latest(c), c.attempts[k := a]);
    hide CaseSound, AllReceived, EverythingReceived, Map, Replacing, KnownAttempt, PaymentsSound, RevisionsSound,
         ApprovalsSound, DistinctBy;
  }

  lemma AttemptIdsDistinct(c: Case)
    requires c.revisions != [] && PaymentsSound(c.attempts, Latest(c))
    ensures DistinctBy(c.attempts, AttemptIdOf)
  {
    hide AttemptSound, ReportsSound;
  }

  /** What answering the last report amounts to. */
  function AnsweredCase(c: Case, i: string, p: string, decision: ReceiptDecision, at: int, reason: Option<string>): Case
    requires c.revisions != [] && LatestAttempt(c.attempts, i).Some?
  {
    WithPaymentAttempt(c, LatestAttempt(c.attempts, i).value.(receipt := Some(PaymentReceipt(p, decision, at, reason))),
                       at)
  }

  lemma ConfirmIs(c: Case, v: int, s: string, i: string, id: string, p: string, at: Clock)
    requires c.revisions != []
    requires RequireLatestAttempt(c, v, s, i, id).Ok? ==>
             LatestAttempt(c.attempts, i).Some? &&
             RequireLatestAttempt(c, v, s, i, id) == Ok(LatestAttempt(c.attempts, i).value)
    ensures ConfirmReceipt(c, v, s, i, id, p, at).Ok? <==>
            RequireLatestAttempt(c, v, s, i, id).Ok? && at.Some? &&
            LatestAttempt(c.attempts, i).Some? &&
            LatestAttempt(c.attempts, i).value.receipt.None? &&
            LatestAttempt(c.attempts, i).value.payeeParticipantId == p
    ensures ConfirmReceipt(c, v, s, i, id, p, at).Ok? ==>
            ConfirmReceipt(c, v, s, i, id, p, at).value ==
            AnsweredCase(c, i, p, ReceiptDecision.Received, at.value, None)
  {
    hide RequireLatestAttempt, LatestAttempt, WithPaymentAttempt;
  }

  lemma ReturnIs(c: Case, v: int, s: string, i: string, id: string, p: string, at: Clock, reason: string)
    requires c.revisions != []
    requires RequireLatestAttempt(c, v, s, i, id).Ok? ==>
             LatestAttempt(c.attempts, i).Some? &&
             RequireLatestAttempt(c, v, s, i, id) == Ok(LatestAttempt(c.attempts, i).value)
    ensures ReturnPayment(c, v, s, i, id, p, at, reason).Ok? <==>
            RequireLatestAttempt(c, v, s, i, id).Ok? && at.Some? && Nonempty(reason) &&
            LatestAttempt(c.attempts, i).Some? &&
            LatestAttempt(c.attempts, i).value.receipt.None? &&
            LatestAttempt(c.attempts, i).value.payeeParticipantId == p
    ensures ReturnPayment(c, v, s, i, id, p, at, reason).Ok? ==>
            ReturnPayment(c, v, s, i, id, p, at, reason).value ==
            AnsweredCase(c, i, p, ReceiptDecision.Returned, at.value, Some(reason))
  {
    hide RequireLatestAttempt, LatestAttempt, WithPaymentAttempt, Nonempty;
  }

  /** Who may answer, in terms of the last report. */
  lemma MayAnswerIs(c: Case, v: int, s: string, i: string, id: string, p: string, at: Clock)
    requires CaseSound(c)
    ensures MayAnswer(c, v, s, i, id, p, at) <==>
            RequireLatestAttempt(c, v, s, i, id).Ok? && at.Some? && LatestAttempt(c.attempts, i).Some? &&
            LatestAttempt(c.attempts, i).value.receipt.None? &&
            LatestAttempt(c.attempts, i).value.payeeParticipantId == p
  {
    hide *;
    SoundParts(c);
    RequiredAttempt(c, v, s, i, id);
    OpenIs(c, i, id, p);
    MayAnswerSays(c, v, s, i, id, p, at);
  }

  /** Some report is the open one exactly if the latest report is. */
  lemma OpenIs(c: Case, i: string, id: string, p: string)
    ensures (exists k: nat :: OpenReport(c, i, id, p, k)) <==>
            LatestAttempt(c.attempts, i).Some? && LatestAttempt(c.attempts, i).value.attemptId == id &&
            LatestAttempt(c.attempts, i).value.receipt.None? &&
            LatestAttempt(c.attempts, i).value.payeeParticipantId == p
  {
    LatestIs(c.attempts, i);
    hide LatestAttempt, LastReport;
    if LatestAttempt(c.attempts, i).Some? {
      var k: nat :| LastReport(c.attempts, i, k);
      assert LatestAttempt(c.attempts, i) == Some(c.attempts[k]);
      assert OpenReport(c, i, id, p, k) <==>
             c.attempts[k].attemptId == id && c.attempts[k].receipt.None? && c.attempts[k].payeeParticipantId == p;
    }
  }

  lemma MayAnswerSays(c: Case, v: int, s: string, i: string, id: string, p: string, at: Clock)
    requires c.revisions != []
    ensures MayAnswer(c, v, s, i, id, p, at) <==>
            c.status == PaymentActive && Current(c, v, s) && at.Some? && exists k: nat :: OpenReport(c, i, id, p, k)
  {
    hide Current, OpenReport;
  }

  lemma AnsweredIn(c: Case, v: int, s: string, i: string, id: string, p: string, decision: ReceiptDecision, at: int,
                   reason: Option<string>)
    requires CaseSound(c) && MayAnswer(c, v, s, i, id, p, Some(at)) && LatestAttempt(c.attempts, i).Some?
    ensures AnsweredWith(c, i, id, p, PaymentReceipt(p, decision, at, reason),
                         AnsweredCase(c, i, p, decision, at, reason))
  {
    SoundParts(c);
    LatestIs(c.attempts, i);
    hide CaseSound, LatestAttempt, Current, WithPaymentAttempt, PaidSoFar, RevisionsSound, ApprovalsSound;
    var k: nat :| OpenReport(c, i, id, p, k);
    AnswerBecomes(c, i, k, PaymentReceipt(p, decision, at, reason));
    hide LastReport;
  }

  /** A confirmation is accepted exactly from the payee of the open report, and records that the money was received. */
  lemma ConfirmExact(c: Case, v: int, s: string, i: string, id: string, p: string, at: Clock)
    requires CaseSound(c)
    ensures ConfirmReceipt(c, v, s, i, id, p, at).Ok? <==> MayAnswer(c, v, s, i, id, p, at)
    ensures ConfirmReceipt(c, v, s, i, id, p, at).Ok? ==>
            AnsweredWith(c, i, id, p, PaymentReceipt(p, ReceiptDecision.Received, at.value, None),
                         ConfirmReceipt(c, v, s, i, id, p, at).value)
  {
    hide *;
    SoundParts(c);
    RequiredAttempt(c, v, s, i, id);
    MayAnswerIs(c, v, s, i, id, p, at);
    ConfirmIs(c, v, s, i, id, p, at);
    if MayAnswer(c, v, s, i, id, p, at) {
      AnsweredIn(c, v, s, i, id, p, ReceiptDecision.Received, at.value, None);
    }
  }

  /** A return likewise, with a reason, and records that the payment has to be made again. */
  lemma ReturnExact(c: Case, v: int, s: string, i: string, id: string, p: string, at: Clock, reason: string)
    requires CaseSound(c)
    ensures ReturnPayment(c, v, s, i, id, p, at, reason).Ok? <==>
            MayAnswer(c, v, s, i, id, p, at) && Nonempty(reason)
    ensures ReturnPayment(c, v, s, i, id, p, at, reason).Ok? ==>
            AnsweredWith(c, i, id, p, PaymentReceipt(p, ReceiptDecision.Returned, at.value, Some(reason)),
                         ReturnPayment(c, v, s, i, id, p, at, reason).value)
  {
    hide *;
    SoundParts(c);
    RequiredAttempt(c, v, s, i, id);
    MayAnswerIs(c, v, s, i, id, p, at);
    ReturnIs(c, v, s, i, id, p, at, reason);
    if MayAnswer(c, v, s, i, id, p, at) && Nonempty(reason) {
      AnsweredIn(c, v, s, i, id, p, ReceiptDecision.Returned, at.value, Some(reason));
    }
  }

  // ---- reporting a payment ----

  /** Nothing was reported for the instruction, or the last report of it was returned. */
  ghost predicate Unpaid(attempts: seq<Attempt>, i: string) {
    (forall a | a in attempts :: a.instructionId != i) || Answered(attempts, i, ReceiptDecision.Returned)
  }

  /** One more than the reports of the instruction so far, which are numbered from one. */
  ghost predicate NextOrdinal(attempts: seq<Attempt>, i: string, n: int) {
    && n >= 1 && (forall a | a in attempts && a.instructionId == i :: a.ordinal < n)
    && (n == 1 || exists a :: a in attempts && a.instructionId == i && a.ordinal == n - 1)
  }

  /** The instruction asks this participant to pay this amount. */
  ghost predicate Owes(c: Case, i: string, p: string, amount: int, x: PaymentInstruction)
    requires c.revisions != []
  {
    && x in c.revisions[|c.revisions| - 1].instructions && x.instructionId == i
    && x.payerParticipantId == p && x.amount == amount
  }

  ghost predicate MayReport(c: Case, v: int, s: string, i: string, id: string, p: string, amount: int, at: Clock)
    requires c.revisions != []
  {
    && c.status == PaymentActive && Current(c, v, s) && at.Some? && CanonicalUuid(id)
    && (forall a | a in c.attempts :: a.attemptId != id)
    && Unpaid(c.attempts, i) && (exists x :: Owes(c, i, p, amount, x))
    && exists n :: NextOrdinal(c.attempts, i, n) && n <= MAX_SAFE
  }

  ghost predicate ReportedBy(c: Case, i: string, id: string, p: string, amount: int, at: int, c': Case)
    requires c.revisions != []
  {
    exists x, n :: Owes(c, i, p, amount, x) && NextOrdinal(c.attempts, i, n) &&
      PaidSoFar(c, c.attempts + [Attempt(id, c.revisions[|c.revisions| - 1].snapshotId, i, n, p, x.payeeParticipantId,
                                         amount, at, None)], at, c')
  }

  lemma OrdinalIs(attempts: seq<Attempt>, i: string, n: int)
    requires ReportsSound(Reports(attempts, i))
    ensures NextOrdinal(attempts, i, n) <==> n == |Reports(attempts, i)| + 1
  {
    var reports := Reports(attempts, i);
    forall a ensures a in reports <==> a in attempts && a.instructionId == i {
    }
    hide Reports;
    forall a | a in reports ensures 1 <= a.ordinal <= |reports| {
      var k :| 0 <= k < |reports| && reports[k] == a;
    }
    if reports != [] {
      assert reports[|reports| - 1] in reports && reports[|reports| - 1].ordinal == |reports|;
    }
  }

  lemma ReportsNumberedFor(c: Case, i: string)
    requires CaseSound(c)
    ensures ReportsSound(Reports(c.attempts, i))
  {
    SoundPayments(c);
    hide CaseSound, ReportsSound, AttemptSound, DistinctBy, Reports;
  }

  /** What an instruction of a sound revision asks for is payable. */
  lemma InstructionPayable(c: Case, x: PaymentInstruction)
    requires CaseSound(c) && x in Latest(c).instructions
    ensures Nonempty(x.payerParticipantId) && Nonempty(x.payeeParticipantId) && x.amount > 0
    ensures x.payerParticipantId != x.payeeParticipantId
    ensures CanonicalUuid(Latest(c).snapshotId) && CanonicalUuid(x.instructionId)
    ensures FindInstruction(Latest(c).instructions, x.instructionId) == Some(x)
  {
    hide *;
    SoundParts(c);
    InstructionsDistinct(c);
    FoundInstruction(Latest(c).instructions, x);
    var k :| 0 <= k < |Latest(c).instructions| && Latest(c).instructions[k] == x;
    InstructionAt(Latest(c), k);
    CandidateNamed(Latest(c).content, k);
  }

  lemma InstructionAt(r: Revision, k: nat)
    requires RevisionSound(r) && k < |r.instructions|
    ensures Genuine(r.content) && CanonicalUuid(r.snapshotId) && k < |r.content.candidates|
    ensures var x, y := r.instructions[k], r.content.candidates[k];
            && CanonicalUuid(x.instructionId) && x.payerParticipantId == y.payerParticipantId
            && x.payeeParticipantId == y.payeeParticipantId && x.amount == y.amount
  {
    hide Genuine, CanonicalUuid, DistinctBy;
  }

  lemma CandidateNamed(content: Content, k: nat)
    requires Genuine(content) && k < |content.candidates|
    ensures var y := content.candidates[k];
            && Nonempty(y.payerParticipantId) && Nonempty(y.payeeParticipantId) && y.amount > 0
            && y.payerParticipantId != y.payeeParticipantId
  {
    hide *;
    var payer, payee := CandidateEnds(content, k);
    BalanceNamed(content, payer);
    BalanceNamed(content, payee);
  }

  lemma BalanceNamed(content: Content, x: Balance)
    requires Genuine(content) && x in content.balances
    ensures Nonempty(x.participantId)
  {
    assert IsBalance(x, content.expenses);
    var a :| a in Flat(content.expenses) && a.participantId == x.participantId;
    FlatHas(content.expenses, a);
    var e :| e in content.expenses && a in e.allocations;
    assert ExpenseValid(content.groupId, e) && AllocationValid(a);
  }

  lemma ReportIs(c: Case, v: int, s: string, i: string, id: string, p: string, amount: int, at: Clock)
    requires c.revisions != []
    ensures ReportPayment(c, v, s, i, id, p, amount, at).Ok? <==>
            c.status == PaymentActive && CurrentRevision(c, v, s).Pass? &&
            FindInstruction(Latest(c).instructions, i).Some? &&
            (LatestAttempt(c.attempts, i).None? || LatestAttempt(c.attempts, i).value.IsReturned()) &&
            !KnownAttempt(c.attempts, id) &&
            NewAttempt(Latest(c).snapshotId, FindInstruction(Latest(c).instructions, i).value, id, p, amount, at,
                       |Reports(c.attempts, i)| + 1).Ok?
    ensures ReportPayment(c, v, s, i, id, p, amount, at).Ok? ==>
            var a := NewAttempt(Latest(c).snapshotId, FindInstruction(Latest(c).instructions, i).value, id, p, amount,
                                at, |Reports(c.attempts, i)| + 1).value;
            ReportPayment(c, v, s, i, id, p, amount, at).value == WithPaymentAttempt(c, a, a.reportedAt)
  {
    if FindInstruction(Latest(c).instructions, i).Some? {
      assert FindInstruction(Latest(c).instructions, i).value.instructionId == i;
    }
    hide CurrentRevision, FindInstruction, LatestAttempt, KnownAttempt, NewAttempt, Reports, WithPaymentAttempt;
  }

  lemma NewAttemptIs(snapshotId: string, x: PaymentInstruction, id: string, p: string, amount: int, at: Clock, n: int)
    requires CanonicalUuid(snapshotId) && CanonicalUuid(x.instructionId) && n >= 1 && x.amount > 0
    requires Nonempty(x.payerParticipantId) && Nonempty(x.payeeParticipantId)
    requires x.payerParticipantId != x.payeeParticipantId
    ensures NewAttempt(snapshotId, x, id, p, amount, at, n).Ok? <==>
            CanonicalUuid(id) && n <= MAX_SAFE && p == x.payerParticipantId && amount == x.amount && at.Some?
    ensures NewAttempt(snapshotId, x, id, p, amount, at, n).Ok? ==>
            NewAttempt(snapshotId, x, id, p, amount, at, n).value ==
            Attempt(id, snapshotId, x.instructionId, n, p, x.payeeParticipantId, amount, at.value, None)
  {
    hide CanonicalUuid, Nonempty;
  }

  lemma UnpaidIs(attempts: seq<Attempt>, i: string)
    ensures Unpaid(attempts, i) <==> LatestAttempt(attempts, i).None? || LatestAttempt(attempts, i).value.IsReturned()
  {
    LatestIs(attempts, i);
    AnsweredIs(attempts, i, ReceiptDecision.Returned);
    hide LatestAttempt, LastReport, Answered;
  }

  lemma UnknownAttempt(attempts: seq<Attempt>, id: string)
    ensures !KnownAttempt(attempts, id) <==> forall a | a in attempts :: a.attemptId != id
  {
  }

  lemma ReportBecomes(c: Case, a: Attempt)
    requires c.revisions != [] && !KnownAttempt(c.attempts, a.attemptId)
    ensures PaidSoFar(c, c.attempts + [a], a.reportedAt, WithPaymentAttempt(c, a, a.reportedAt))
  {
    ReceivedIs(Latest(c), c.attempts + [a]);
    hide AllReceived, EverythingReceived, KnownAttempt;
  }

  /**
   * A payment report is accepted exactly from the payer of an instruction that is unpaid, for exactly its amount, and
   * is recorded with the next number.
   */
  lemma ReportExact(c: Case, v: int, s: string, i: string, id: string, p: string, amount: int, at: Clock)
    requires CaseSound(c)
    ensures c.revisions != []
    ensures ReportPayment(c, v, s, i, id, p, amount, at).Ok? <==> MayReport(c, v, s, i, id, p, amount, at)
    ensures ReportPayment(c, v, s, i, id, p, amount, at).Ok? ==>
            at.Some? &&
            ReportedBy(c, i, id, p, amount, at.value, ReportPayment(c, v, s, i, id, p, amount, at).value)
  {
    hide *;
    SoundParts(c);
    CurrentChecks(c, v, s);
    ReportIs(c, v, s, i, id, p, amount, at);
    UnpaidIs(c.attempts, i);
    UnknownAttempt(c.attempts, id);
    ReportsNumberedFor(c, i);
    var n := |Reports(c.attempts, i)| + 1;
    NumberedNext(c.attempts, i, n);
    var found := FindInstruction(Latest(c).instructions, i);
    if found.Some? {
      InstructionPayable(c, found.value);
      NewAttemptIs(Latest(c).snapshotId, found.value, id, p, amount, at, n);
    }
    WhoOwes(c, i, p, amount);
    MayReportSays(c, v, s, i, id, p, amount, at, n);
    if ReportPayment(c, v, s, i, id, p, amount, at).Ok? {
      var a := NewAttempt(Latest(c).snapshotId, found.value, id, p, amount, at, n).value;
      ReportBecomes(c, a);
      ReportedSays(c, i, id, p, amount, at.value, found.value, n, WithPaymentAttempt(c, a, at.value));
    }
  }

  lemma NumberedNext(attempts: seq<Attempt>, i: string, n: int)
    requires ReportsSound(Reports(attempts, i)) && n == |Reports(attempts, i)| + 1
    ensures forall m :: NextOrdinal(attempts, i, m) <==> m == n
  {
    forall m ensures NextOrdinal(attempts, i, m) <==> m == n {
      OrdinalIs(attempts, i, m);
    }
  }

  /** Who owes an instruction is found by its identifier. */
  lemma WhoOwes(c: Case, i: string, p: string, amount: int)
    requires CaseSound(c) && c.revisions != []
    ensures (exists x :: Owes(c, i, p, amount, x)) <==>
            FindInstruction(Latest(c).instructions, i).Some? &&
            FindInstruction(Latest(c).instructions, i).value.payerParticipantId == p &&
            FindInstruction(Latest(c).instructions, i).value.amount == amount
    ensures FindInstruction(Latest(c).instructions, i).Some? ==>
            FindInstruction(Latest(c).instructions, i).value in Latest(c).instructions &&
            FindInstruction(Latest(c).instructions, i).value.instructionId == i
  {
    hide CaseSound, FindInstruction;
    forall x | Owes(c, i, p, amount, x) ensures FindInstruction(Latest(c).instructions, i) == Some(x) {
      InstructionPayable(c, x);
    }
    if FindInstruction(Latest(c).instructions, i).Some? {
      var x := FindInstruction(Latest(c).instructions, i).value;
      assert Owes(c, i, p, amount, x) <==> x.payerParticipantId == p && x.amount == amount;
    }
  }

  lemma MayReportSays(c: Case, v: int, s: string, i: string, id: string, p: string, amount: int, at: Clock, n: int)
    requires c.revisions != [] && forall m :: NextOrdinal(c.attempts, i, m) <==> m == n
    ensures MayReport(c, v, s, i, id, p, amount, at) <==>
            c.status == PaymentActive && Current(c, v, s) && at.Some? && CanonicalUuid(id) &&
            (forall a | a in c.attempts :: a.attemptId != id) && Unpaid(c.attempts, i) &&
            (exists x :: Owes(c, i, p, amount, x)) && n <= MAX_SAFE
  {
    hide Current, CanonicalUuid, Unpaid, Owes, NextOrdinal;
    assert NextOrdinal(c.attempts, i, n);
  }

  lemma ReportedSays(c: Case, i: string, id: string, p: string, amount: int, at: int, x: PaymentInstruction, n: int,
                     c': Case)
    requires c.revisions != [] && NextOrdinal(c.attempts, i, n)
    requires x in Latest(c).instructions && x.instructionId == i && x.payerParticipantId == p && x.amount == amount
    requires PaidSoFar(c, c.attempts + [Attempt(id, Latest(c).snapshotId, i, n, p, x.payeeParticipantId, amount, at,
                                                None)], at, c')
    ensures ReportedBy(c, i, id, p, amount, at, c')
  {
    hide NextOrdinal, PaidSoFar;
    assert Owes(c, i, p, amount, x);
  }
}
