/** The settlement case: revisions, approvals, payment reports, receipts and whole-case cancellation. */
module SettlementCase {
  import opened Outcomes
  import opened Sequences
  import opened Text
  import opened TransferSearch
  import opened SnapshotContent

  /** A caller's clock value; `None` is a date that is not an instant. */
  type Clock = Option<int>

  datatype Applicant = Applicant(actorSubject: string, participantId: string)

  datatype PaymentInstruction = PaymentInstruction(
    instructionId: string, payerParticipantId: string, payeeParticipantId: string, amount: int)

  datatype Revision = Revision(
    caseId: string, snapshotId: string, ordinal: nat, previousSnapshotId: Option<string>,
    applicant: Applicant, submittedAt: int, content: Content, instructions: seq<PaymentInstruction>)

  datatype Decision = Approved | Rejected

  datatype Approval = Approval(
    snapshotId: string, participantId: string, decision: Decision, decidedAt: int, reason: Option<string>)

  datatype ReceiptDecision = Received | Returned

  datatype PaymentReceipt = PaymentReceipt(
    participantId: string, decision: ReceiptDecision, decidedAt: int, reason: Option<string>)

  datatype Attempt = Attempt(
    attemptId: string, snapshotId: string, instructionId: string, ordinal: int,
    payerParticipantId: string, payeeParticipantId: string, amount: int, reportedAt: int,
    receipt: Option<PaymentReceipt>)
  {
    predicate IsReported() { receipt.None? }
    predicate IsReceived() { receipt.Some? && receipt.value.decision == Received }
    predicate IsReturned() { receipt.Some? && receipt.value.decision == Returned }
  }

  datatype Consent = Agreed | Declined

  datatype CancellationDecision = CancellationDecision(participantId: string, decision: Consent, decidedAt: int)

  datatype CancellationStatus = RequestPending | RequestAgreed | RequestDeclined

  datatype Cancellation = Cancellation(
    cancellationId: string, snapshotId: string, ordinal: int, applicant: Applicant, reason: string,
    requestedAt: int, requiredApproverIds: seq<string>, decisions: seq<CancellationDecision>)
  {
    predicate Says(id: string, consent: Consent) {
      exists i :: 0 <= i < |decisions| && decisions[i].participantId == id && decisions[i].decision == consent
    }

    predicate AnyDecline() {
      exists i :: 0 <= i < |decisions| && decisions[i].decision == Declined
    }

    function Status(): CancellationStatus {
      if AnyDecline() then RequestDeclined
      else if forall id | id in requiredApproverIds :: Says(id, Agreed) then RequestAgreed
      else RequestPending
    }
  }

  datatype Withdrawal = Withdrawal(snapshotId: string, applicant: Applicant, reason: string, withdrawnAt: int)

  datatype Status =
    AwaitingApproval | RevisionRejected | PaymentActive | Archived | Withdrawn | CancellationPending | Cancelled

  datatype CaseError =
    | CaseIdInvalid | SnapshotIdInvalid | ActorSubjectEmpty | CaseParticipantEmpty | InstructionCountMismatch
    | InstructionIdInvalid | InstructionIdDuplicated | UtcInstantInvalid | CaseNotAwaitingApproval
    | CaseVersionConflict | SnapshotMismatch | ParticipantNotRequired | ApprovalAlreadyRecorded
    | RejectionReasonEmpty | CaseNotRejected | CurrentOwnerSubjectEmpty | ActorNotCaseApplicantOrOwner
    | RevisionGroupMismatch | TargetExpenseSetMismatch | SnapshotIdReused | InstructionIdReused
    | CaseCannotBeWithdrawn | WithdrawalReasonEmpty | CaseNotPaymentActive | InstructionNotFound
    | InstructionNotUnpaid | AttemptIdReused | AttemptIdInvalid | AttemptOrdinalInvalid
    | InstructionParticipantsInvalid | ActorNotPaymentPayer | PaymentAmountMismatch | AttemptMismatch
    | AttemptNotReported | ActorNotPaymentPayee | PaymentReturnReasonEmpty | CancellationHasAttempts
    | CancellationIdReused | CancellationIdInvalid | CancellationReasonEmpty | CancellationOrdinalInvalid
    | CancellationApproversInvalid | CaseNotCancellationPending | CancellationMismatch
    | CancellationNotPending | CancellationParticipantNotRequired | CancellationAlreadyDecided

  datatype Case = Case(
    caseId: string, revisions: seq<Revision>, approvals: seq<Approval>, status: Status, version: int,
    attempts: seq<Attempt>, cancellations: seq<Cancellation>, withdrawal: Option<Withdrawal>,
    archivedAt: Option<int>)

  function CopyUtc(at: Clock): Result<int, CaseError> {
    match at
    case Some(t) => Ok(t)
    case None => Err(UtcInstantInvalid)
  }

  // ---- revisions ----

  /** The first instruction id from position `i` on that is malformed or repeats an earlier one. */
  function InstructionIdRejection(ids: seq<string>, i: nat): Check<CaseError>
    requires i <= |ids|
    decreases |ids| - i
  {
    if i == |ids| then Pass
    else if !CanonicalUuid(ids[i]) then Fail(InstructionIdInvalid)
    else if ids[i] in ids[..i] then Fail(InstructionIdDuplicated)
    else InstructionIdRejection(ids, i + 1)
  }

  function Bound(ids: seq<string>, candidates: seq<Instruction>): (r: seq<PaymentInstruction>)
    requires |ids| == |candidates|
    ensures |r| == |ids|
  {
    seq(|ids|, i requires 0 <= i < |ids| =>
      PaymentInstruction(ids[i], candidates[i].payerParticipantId, candidates[i].payeeParticipantId,
                         candidates[i].amount))
  }

  function CreateRevision(caseId: string, snapshotId: string, content: Content, applicant: Applicant,
                          submittedAt: Clock, instructionIds: seq<string>, ordinal: nat, previous: Option<string>)
    : Result<Revision, CaseError>
  {
    var check := Require(CanonicalUuid(caseId), CaseIdInvalid);
    :- check;
    :- Require(CanonicalUuid(snapshotId), SnapshotIdInvalid);
    :- Require(Nonempty(applicant.actorSubject), ActorSubjectEmpty);
    :- Require(Nonempty(applicant.participantId), CaseParticipantEmpty);
    :- Require(|instructionIds| == |content.candidates|, InstructionCountMismatch);
    :- InstructionIdRejection(instructionIds, 0);
    var at :- CopyUtc(submittedAt);
    Ok(Revision(caseId, snapshotId, ordinal, previous, applicant, at, content,
                Bound(instructionIds, content.candidates)))
  }

  function SelfApproval(r: Revision): seq<Approval> {
    if r.applicant.participantId in r.content.requiredApproverIds
    then [Approval(r.snapshotId, r.applicant.participantId, Approved, r.submittedAt, None)]
    else []
  }

  // ---- decisions on a revision ----

  predicate Judged(approvals: seq<Approval>, snapshotId: string, id: string, decision: Decision) {
    exists i :: 0 <= i < |approvals| && approvals[i].snapshotId == snapshotId &&
                approvals[i].participantId == id && approvals[i].decision == decision
  }

  predicate AnyRejection(approvals: seq<Approval>, snapshotId: string) {
    exists i :: 0 <= i < |approvals| && approvals[i].snapshotId == snapshotId && approvals[i].decision == Rejected
  }

  predicate AllApproved(approvals: seq<Approval>, r: Revision) {
    forall id | id in r.content.requiredApproverIds :: Judged(approvals, r.snapshotId, id, Approved)
  }

  predicate AllEven(c: Content) {
    forall x | x in c.balances :: x.amount == 0
  }

  function DecidedStatus(approvals: seq<Approval>, r: Revision, withdrawal: Option<Withdrawal>): Status {
    if withdrawal.Some? then Withdrawn
    else if AnyRejection(approvals, r.snapshotId) then RevisionRejected
    else if AllApproved(approvals, r) then if AllEven(r.content) then Archived else PaymentActive
    else AwaitingApproval
  }

  /** The case the recorded decisions give. Payment and cancellation histories start empty. */
  function WithDecisions(revisions: seq<Revision>, approvals: seq<Approval>, version: int, decidedAt: int,
                         withdrawal: Option<Withdrawal>): Case
    requires revisions != []
  {
    var r := revisions[|revisions| - 1];
    var status := DecidedStatus(approvals, r, withdrawal);
    Case(r.caseId, revisions, approvals, status, version, [], [], withdrawal,
         if status == Archived then Some(decidedAt) else None)
  }

  function Latest(c: Case): Revision
    requires c.revisions != []
  {
    c.revisions[|c.revisions| - 1]
  }

  function CurrentRevision(c: Case, expectedVersion: int, snapshotId: string): Check<CaseError>
    requires c.revisions != []
  {
    if !(SafeInteger(expectedVersion) && expectedVersion == c.version) then Fail(CaseVersionConflict)
    else Require(snapshotId == Latest(c).snapshotId, SnapshotMismatch)
  }

  function CaseActor(c: Case, applicant: Applicant, currentOwnerSubject: string): Check<CaseError>
    requires c.revisions != []
  {
    if !Nonempty(applicant.actorSubject) then Fail(ActorSubjectEmpty)
    else if !Nonempty(applicant.participantId) then Fail(CaseParticipantEmpty)
    else if !Nonempty(currentOwnerSubject) then Fail(CurrentOwnerSubjectEmpty)
    else Require(applicant.actorSubject == c.revisions[0].applicant.actorSubject ||
                 applicant.actorSubject == currentOwnerSubject, ActorNotCaseApplicantOrOwner)
  }

  function Start(caseId: string, snapshotId: string, content: Content, applicant: Applicant,
                 submittedAt: Clock, instructionIds: seq<string>): Result<Case, CaseError>
  {
    var r :- CreateRevision(caseId, snapshotId, content, applicant, submittedAt, instructionIds, 1, None);
    Ok(WithDecisions([r], SelfApproval(r), 1, r.submittedAt, None))
  }

  function DecisionCheck(c: Case, expectedVersion: int, snapshotId: string, id: string): Check<CaseError>
    requires c.revisions != []
  {
    if c.status != AwaitingApproval then Fail(CaseNotAwaitingApproval)
    else if CurrentRevision(c, expectedVersion, snapshotId).Fail? then CurrentRevision(c, expectedVersion, snapshotId)
    else if id !in Latest(c).content.requiredApproverIds then Fail(ParticipantNotRequired)
    else Require(!Judged(c.approvals, Latest(c).snapshotId, id, Approved) &&
                 !Judged(c.approvals, Latest(c).snapshotId, id, Rejected), ApprovalAlreadyRecorded)
  }

  function Record(c: Case, id: string, decision: Decision, decidedAt: Clock, reason: Option<string>)
    : Result<Case, CaseError>
    requires c.revisions != []
  {
    var at :- CopyUtc(decidedAt);
    var approval := Approval(Latest(c).snapshotId, id, decision, at, reason);
    Ok(WithDecisions(c.revisions, c.approvals + [approval], c.version + 1, at, c.withdrawal))
  }

  function Approve(c: Case, expectedVersion: int, snapshotId: string, id: string, decidedAt: Clock)
    : Result<Case, CaseError>
    requires c.revisions != []
  {
    var check := DecisionCheck(c, expectedVersion, snapshotId, id);
    :- check;
    Record(c, id, Approved, decidedAt, None)
  }

  function Reject(c: Case, expectedVersion: int, snapshotId: string, id: string, decidedAt: Clock, reason: string)
    : Result<Case, CaseError>
    requires c.revisions != []
  {
    var check := DecisionCheck(c, expectedVersion, snapshotId, id);
    :- check;
    :- Require(Nonempty(reason), RejectionReasonEmpty);
    Record(c, id, Rejected, decidedAt, Some(reason))
  }

  function TargetIds(r: Revision): (ids: seq<string>)
    ensures |ids| == |r.content.expenses|
  {
    Map(r.content.expenses, ExpenseIdOf)
  }

  predicate UsedInstruction(revisions: seq<Revision>, id: string) {
    exists k, i :: 0 <= k < |revisions| && 0 <= i < |revisions[k].instructions| &&
                   revisions[k].instructions[i].instructionId == id
  }

  function Resubmit(c: Case, expectedVersion: int, currentSnapshotId: string, applicant: Applicant,
                    currentOwnerSubject: string, snapshotId: string, content: Content, submittedAt: Clock,
                    instructionIds: seq<string>): Result<Case, CaseError>
    requires c.revisions != []
  {
    var check := Require(c.status == RevisionRejected, CaseNotRejected);
    :- check;
    :- CurrentRevision(c, expectedVersion, currentSnapshotId);
    :- CaseActor(c, applicant, currentOwnerSubject);
    var r :- CreateRevision(c.caseId, snapshotId, content, applicant, submittedAt, instructionIds,
                            |c.revisions| + 1, Some(Latest(c).snapshotId));
    :- Require(content.groupId == c.revisions[0].content.groupId, RevisionGroupMismatch);
    :- Require(TargetIds(r) == TargetIds(c.revisions[0]), TargetExpenseSetMismatch);
    :- Require(forall k | 0 <= k < |c.revisions| :: c.revisions[k].snapshotId != snapshotId, SnapshotIdReused);
    :- Require(forall i | 0 <= i < |r.instructions| :: !UsedInstruction(c.revisions, r.instructions[i].instructionId),
               InstructionIdReused);
    Ok(WithDecisions(c.revisions + [r], c.approvals + SelfApproval(r), c.version + 1, r.submittedAt, None))
  }

  function Withdraw(c: Case, expectedVersion: int, snapshotId: string, applicant: Applicant,
                    currentOwnerSubject: string, reason: string, withdrawnAt: Clock): Result<Case, CaseError>
    requires c.revisions != []
  {
    var check := Require(c.status == AwaitingApproval || c.status == RevisionRejected, CaseCannotBeWithdrawn);
    :- check;
    :- CurrentRevision(c, expectedVersion, snapshotId);
    :- CaseActor(c, applicant, currentOwnerSubject);
    :- Require(Nonempty(reason), WithdrawalReasonEmpty);
    var at :- CopyUtc(withdrawnAt);
    Ok(WithDecisions(c.revisions, c.approvals, c.version + 1, at,
                     Some(Withdrawal(Latest(c).snapshotId, applicant, reason, at))))
  }

  // ---- payments ----

  function ForInstruction(id: string): Attempt -> bool {
    (a: Attempt) => a.instructionId == id
  }

  /** The reports of one instruction, oldest first. */
  function Reports(attempts: seq<Attempt>, instructionId: string): seq<Attempt> {
    Filter(attempts, ForInstruction(instructionId))
  }

  function LatestAttempt(attempts: seq<Attempt>, instructionId: string): Option<Attempt> {
    var reports := Reports(attempts, instructionId);
    if reports == [] then None else Some(reports[|reports| - 1])
  }

  function InstructionNamed(id: string): PaymentInstruction -> bool {
    (x: PaymentInstruction) => x.instructionId == id
  }

  function FindInstruction(instructions: seq<PaymentInstruction>, id: string): (r: Option<PaymentInstruction>)
    ensures r.Some? ==> r.value in instructions && r.value.instructionId == id
  {
    Find(instructions, InstructionNamed(id))
  }

  function RequireInstruction(c: Case, expectedVersion: int, snapshotId: string, instructionId: string)
    : Result<PaymentInstruction, CaseError>
    requires c.revisions != []
  {
    var check := Require(c.status == PaymentActive, CaseNotPaymentActive);
    :- check;
    :- CurrentRevision(c, expectedVersion, snapshotId);
    match FindInstruction(Latest(c).instructions, instructionId)
    case Some(i) => Ok(i)
    case None => Err(InstructionNotFound)
  }

  function NewAttempt(snapshotId: string, i: PaymentInstruction, attemptId: string, participantId: string,
                      amount: int, reportedAt: Clock, ordinal: int): Result<Attempt, CaseError>
  {
    var check := Require(CanonicalUuid(snapshotId), SnapshotIdInvalid);
    :- check;
    :- Require(CanonicalUuid(i.instructionId), InstructionIdInvalid);
    :- Require(CanonicalUuid(attemptId), AttemptIdInvalid);
    :- Require(SafeInteger(ordinal) && ordinal > 0, AttemptOrdinalInvalid);
    :- Require(Nonempty(i.payerParticipantId) && Nonempty(i.payeeParticipantId) &&
               i.payerParticipantId != i.payeeParticipantId, InstructionParticipantsInvalid);
    :- Require(participantId == i.payerParticipantId, ActorNotPaymentPayer);
    :- Require(i.amount > 0 && amount == i.amount, PaymentAmountMismatch);
    var at :- CopyUtc(reportedAt);
    Ok(Attempt(attemptId, snapshotId, i.instructionId, ordinal, participantId, i.payeeParticipantId, i.amount, at,
               None))
  }

  function Replacing(attempt: Attempt): Attempt -> Attempt {
    (a: Attempt) => if a.attemptId == attempt.attemptId then attempt else a
  }

  predicate KnownAttempt(attempts: seq<Attempt>, id: string) {
    exists i :: 0 <= i < |attempts| && attempts[i].attemptId == id
  }

  predicate AllReceived(instructions: seq<PaymentInstruction>, attempts: seq<Attempt>) {
    forall i | i in instructions ::
      var latest := LatestAttempt(attempts, i.instructionId); latest.Some? && latest.value.IsReceived()
  }

  function WithPaymentAttempt(c: Case, attempt: Attempt, decidedAt: int): Case
    requires c.revisions != []
  {
    var attempts := if KnownAttempt(c.attempts, attempt.attemptId) then Map(c.attempts, Replacing(attempt))
                    else c.attempts + [attempt];
    var received := AllReceived(Latest(c).instructions, attempts);
    c.(status := if received then Archived else PaymentActive, version := c.version + 1, attempts := attempts,
       archivedAt := if received then Some(decidedAt) else None)
  }

  function ReportPayment(c: Case, expectedVersion: int, snapshotId: string, instructionId: string, attemptId: string,
                         participantId: string, amount: int, reportedAt: Clock): Result<Case, CaseError>
    requires c.revisions != []
  {
    var i :- RequireInstruction(c, expectedVersion, snapshotId, instructionId);
    var latest := LatestAttempt(c.attempts, i.instructionId);
    :- Require(latest.None? || latest.value.IsReturned(), InstructionNotUnpaid);
    :- Require(!KnownAttempt(c.attempts, attemptId), AttemptIdReused);
    var attempt :- NewAttempt(Latest(c).snapshotId, i, attemptId, participantId, amount, reportedAt,
                              |Reports(c.attempts, i.instructionId)| + 1);
    Ok(WithPaymentAttempt(c, attempt, attempt.reportedAt))
  }

  function RequireLatestAttempt(c: Case, expectedVersion: int, snapshotId: string, instructionId: string,
                                attemptId: string)
    : Result<Attempt, CaseError>
    requires c.revisions != []
  {
    var i :- RequireInstruction(c, expectedVersion, snapshotId, instructionId);
    var latest := LatestAttempt(c.attempts, i.instructionId);
    :- Require(latest.Some? && latest.value.attemptId == attemptId, AttemptMismatch);
    Ok(latest.value)
  }

  function Decide(a: Attempt, participantId: string, decision: ReceiptDecision, decidedAt: Clock,
                  reason: Option<string>)
    : Result<Attempt, CaseError>
  {
    var check := Require(a.IsReported(), AttemptNotReported);
    :- check;
    :- Require(participantId == a.payeeParticipantId, ActorNotPaymentPayee);
    var at :- CopyUtc(decidedAt);
    Ok(a.(receipt := Some(PaymentReceipt(participantId, decision, at, reason))))
  }

  function ConfirmReceipt(c: Case, expectedVersion: int, snapshotId: string, instructionId: string, attemptId: string,
                          participantId: string, decidedAt: Clock): Result<Case, CaseError>
    requires c.revisions != []
  {
    var latest :- RequireLatestAttempt(c, expectedVersion, snapshotId, instructionId, attemptId);
    var attempt :- Decide(latest, participantId, Received, decidedAt, None);
    Ok(WithPaymentAttempt(c, attempt, attempt.receipt.value.decidedAt))
  }

  function ReturnPayment(c: Case, expectedVersion: int, snapshotId: string, instructionId: string, attemptId: string,
                         participantId: string, decidedAt: Clock, reason: string): Result<Case, CaseError>
    requires c.revisions != []
  {
    var latest :- RequireLatestAttempt(c, expectedVersion, snapshotId, instructionId, attemptId);
    :- Require(Nonempty(reason), PaymentReturnReasonEmpty);
    var attempt :- Decide(latest, participantId, Returned, decidedAt, Some(reason));
    Ok(WithPaymentAttempt(c, attempt, attempt.receipt.value.decidedAt))
  }

  // ---- whole-case cancellation ----

  predicate KnownCancellation(cancellations: seq<Cancellation>, id: string) {
    exists i :: 0 <= i < |cancellations| && cancellations[i].cancellationId == id
  }

  predicate Repeats(ids: seq<string>) {
    exists i, j :: 0 <= i < j < |ids| && ids[i] == ids[j]
  }

  function NewCancellation(snapshotId: string, approvers: seq<string>, cancellationId: string, applicant: Applicant,
                           reason: string, requestedAt: Clock, ordinal: int): Result<Cancellation, CaseError>
  {
    var check := Require(CanonicalUuid(cancellationId), CancellationIdInvalid);
    :- check;
    :- Require(CanonicalUuid(snapshotId), SnapshotIdInvalid);
    :- Require(Nonempty(reason), CancellationReasonEmpty);
    :- Require(Nonempty(applicant.actorSubject), ActorSubjectEmpty);
    :- Require(Nonempty(applicant.participantId), CaseParticipantEmpty);
    :- Require(SafeInteger(ordinal) && ordinal > 0, CancellationOrdinalInvalid);
    :- Require(approvers != [] && (forall id | id in approvers :: Nonempty(id)) && !Repeats(approvers),
               CancellationApproversInvalid);
    var at :- CopyUtc(requestedAt);
    Ok(Cancellation(cancellationId, snapshotId, ordinal, applicant, reason, at, approvers, []))
  }

  function ReplacingRequest(request: Cancellation): Cancellation -> Cancellation {
    (r: Cancellation) => if r.cancellationId == request.cancellationId then request else r
  }

  function WithCancellation(c: Case, request: Cancellation): Case {
    var cancellations := if KnownCancellation(c.cancellations, request.cancellationId)
                         then Map(c.cancellations, ReplacingRequest(request))
                         else c.cancellations + [request];
    var status := match request.Status()
      case RequestAgreed => Cancelled
      case RequestDeclined => PaymentActive
      case RequestPending => CancellationPending;
    c.(status := status, version := c.version + 1, cancellations := cancellations, archivedAt := None)
  }

  function RequestCancellation(c: Case, expectedVersion: int, snapshotId: string, applicant: Applicant,
                               currentOwnerSubject: string, cancellationId: string, reason: string, requestedAt: Clock)
    : Result<Case, CaseError>
    requires c.revisions != []
  {
    var check := Require(c.status == PaymentActive, CaseNotPaymentActive);
    :- check;
    :- CurrentRevision(c, expectedVersion, snapshotId);
    :- CaseActor(c, applicant, currentOwnerSubject);
    :- Require(c.attempts == [], CancellationHasAttempts);
    :- Require(!KnownCancellation(c.cancellations, cancellationId), CancellationIdReused);
    var request :- NewCancellation(Latest(c).snapshotId, Latest(c).content.requiredApproverIds, cancellationId,
                                   applicant, reason, requestedAt, |c.cancellations| + 1);
    Ok(WithCancellation(c, request))
  }

  function RequireCancellation(c: Case, expectedVersion: int, snapshotId: string, cancellationId: string)
    : Result<Cancellation, CaseError>
    requires c.revisions != []
  {
    var check := Require(c.status == CancellationPending, CaseNotCancellationPending);
    :- check;
    :- CurrentRevision(c, expectedVersion, snapshotId);
    :- Require(c.cancellations != [] && c.cancellations[|c.cancellations| - 1].cancellationId == cancellationId,
               CancellationMismatch);
    Ok(c.cancellations[|c.cancellations| - 1])
  }

  function Consented(r: Cancellation, cancellationId: string, snapshotId: string, id: string, consent: Consent,
                     decidedAt: Clock): Result<Cancellation, CaseError>
  {
    var check := Require(r.Status() == RequestPending, CancellationNotPending);
    :- check;
    :- Require(cancellationId == r.cancellationId && snapshotId == r.snapshotId, CancellationMismatch);
    :- Require(id in r.requiredApproverIds, CancellationParticipantNotRequired);
    :- Require(!r.Says(id, Agreed) && !r.Says(id, Declined), CancellationAlreadyDecided);
    var at :- CopyUtc(decidedAt);
    Ok(r.(decisions := r.decisions + [CancellationDecision(id, consent, at)]))
  }

  function DecideCancellation(c: Case, expectedVersion: int, snapshotId: string, cancellationId: string, id: string,
                              consent: Consent, decidedAt: Clock): Result<Case, CaseError>
    requires c.revisions != []
  {
    var request :- RequireCancellation(c, expectedVersion, snapshotId, cancellationId);
    var decided :- Consented(request, cancellationId, snapshotId, id, consent, decidedAt);
    Ok(WithCancellation(c, decided))
  }

  // ---- all operations ----

  datatype Operation =
    | OpApprove(expectedVersion: int, snapshotId: string, participantId: string, at: Clock)
    | OpReject(expectedVersion: int, snapshotId: string, participantId: string, at: Clock, reason: string)
    | OpResubmit(expectedVersion: int, snapshotId: string, applicant: Applicant, owner: string, newSnapshotId: string,
                 content: Content, at: Clock, instructionIds: seq<string>)
    | OpWithdraw(expectedVersion: int, snapshotId: string, applicant: Applicant, owner: string, reason: string,
                 at: Clock)
    | OpReport(expectedVersion: int, snapshotId: string, instructionId: string, attemptId: string,
               participantId: string, amount: int, at: Clock)
    | OpConfirm(expectedVersion: int, snapshotId: string, instructionId: string, attemptId: string,
                participantId: string, at: Clock)
    | OpReturn(expectedVersion: int, snapshotId: string, instructionId: string, attemptId: string,
               participantId: string, at: Clock, reason: string)
    | OpRequestCancellation(expectedVersion: int, snapshotId: string, applicant: Applicant, owner: string,
                            cancellationId: string, reason: string, at: Clock)
    | OpDecideCancellation(expectedVersion: int, snapshotId: string, cancellationId: string, participantId: string,
                           consent: Consent, at: Clock)

  function Apply(c: Case, op: Operation): Result<Case, CaseError>
    requires c.revisions != []
  {
    match op
    case OpApprove(v, s, p, at) => Approve(c, v, s, p, at)
    case OpReject(v, s, p, at, reason) => Reject(c, v, s, p, at, reason)
    case OpResubmit(v, s, a, o, n, content, at, ids) => Resubmit(c, v, s, a, o, n, content, at, ids)
    case OpWithdraw(v, s, a, o, reason, at) => Withdraw(c, v, s, a, o, reason, at)
    case OpReport(v, s, i, a, p, amount, at) => ReportPayment(c, v, s, i, a, p, amount, at)
    case OpConfirm(v, s, i, a, p, at) => ConfirmReceipt(c, v, s, i, a, p, at)
    case OpReturn(v, s, i, a, p, at, reason) => ReturnPayment(c, v, s, i, a, p, at, reason)
    case OpRequestCancellation(v, s, a, o, id, reason, at) => RequestCancellation(c, v, s, a, o, id, reason, at)
    case OpDecideCancellation(v, s, id, p, consent, at) => DecideCancellation(c, v, s, id, p, consent, at)
  }
}
