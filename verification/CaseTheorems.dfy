/** What holds of every run of a settlement case, and where the money is when the case is archived. */
module CaseTheorems {
  import opened Outcomes
  import opened Sequences
  import opened Text
  import opened TransferSearch
  import opened SnapshotContent
  import opened SnapshotProperties
  import opened SettlementCase
  import opened CaseInvariants

  datatype Submission = Submission(
    caseId: string, snapshotId: string, content: Content, applicant: Applicant, at: Clock, instructionIds: seq<string>)

  function Begin(s: Submission): Result<Case, CaseError> {
    Start(s.caseId, s.snapshotId, s.content, s.applicant, s.at, s.instructionIds)
  }

  /** Contents reach the case only through the snapshot factory. */
  ghost predicate Supplied(op: Operation) {
    op.OpResubmit? ==> Genuine(op.content)
  }

  /** A rejected operation leaves the case as it was. */
  function After(c: Case, op: Operation): (r: Case)
    requires c.revisions != []
  {
    if Apply(c, op).Ok? then Apply(c, op).value else c
  }

  ghost predicate Run(cs: seq<Case>, ops: seq<Operation>) {
    && |cs| == |ops| + 1
    && forall k | 0 <= k < |ops| :: cs[k].revisions != [] && Supplied(ops[k]) && cs[k + 1] == After(cs[k], ops[k])
  }

  ghost predicate Started(c: Case) {
    exists s: Submission :: Genuine(s.content) && Begin(s) == Ok(c)
  }

  ghost predicate Leads(c: Case, cs: seq<Case>, ops: seq<Operation>, c': Case) {
    Run(cs, ops) && cs[0] == c && cs[|ops|] == c'
  }

  /** `c'` is some later state of `c`. */
  ghost predicate Later(c: Case, c': Case) {
    exists cs, ops :: Leads(c, cs, ops, c')
  }

  ghost predicate Reachable(c: Case) {
    exists c0 :: Started(c0) && Later(c0, c)
  }

  // ---- every step ----

  lemma StepSound(c: Case, op: Operation)
    requires CaseSound(c) && Supplied(op) && Apply(c, op).Ok?
    ensures CaseSound(Apply(c, op).value) && Grows(c, Apply(c, op).value)
  {
    hide CaseSound, Grows, Start, Approve, Reject, Resubmit, Withdraw, ReportPayment, ConfirmReceipt, ReturnPayment,
         RequestCancellation, DecideCancellation;
    assert c.revisions != [] by { HasRevisions(c); }
    match op
    case OpApprove(v, s, p, at) => ApproveSound(c, v, s, p, at);
    case OpReject(v, s, p, at, reason) => RejectSound(c, v, s, p, at, reason);
    case OpResubmit(v, s, a, o, n, content, at, ids) => ResubmitSound(c, v, s, a, o, n, content, at, ids);
    case OpWithdraw(v, s, a, o, reason, at) => WithdrawSound(c, v, s, a, o, reason, at);
    case OpReport(v, s, i, a, p, amount, at) => ReportSound(c, v, s, i, a, p, amount, at);
    case OpConfirm(v, s, i, a, p, at) => ConfirmSound(c, v, s, i, a, p, at);
    case OpReturn(v, s, i, a, p, at, reason) => ReturnSound(c, v, s, i, a, p, at, reason);
    case OpRequestCancellation(v, s, a, o, id, reason, at) => RequestCancellationSound(c, v, s, a, o, id, reason, at);
    case OpDecideCancellation(v, s, id, p, consent, at) => DecideCancellationSound(c, v, s, id, p, consent, at);
  }

  lemma HasRevisions(c: Case)
    requires CaseSound(c)
    ensures c.revisions != []
  {
  }

  lemma GrowsItself(c: Case)
    ensures Grows(c, c)
  {
  }

  lemma GrowsTrans(a: Case, b: Case, c: Case)
    requires Grows(a, b) && Grows(b, c)
    ensures Grows(a, c)
  {
    forall i | 0 <= i < |a.cancellations| ensures RequestKept(a.cancellations[i], c.cancellations[i]) {
      assert RequestKept(a.cancellations[i], b.cancellations[i]) && RequestKept(b.cancellations[i], c.cancellations[i]);
    }
    forall i | 0 <= i < |a.attempts| ensures AttemptKept(a.attempts[i], c.attempts[i]) {
      assert AttemptKept(a.attempts[i], b.attempts[i]) && AttemptKept(b.attempts[i], c.attempts[i]);
    }
  }

  lemma {:induction false} RunSound(cs: seq<Case>, ops: seq<Operation>, k: nat)
    requires Run(cs, ops) && k <= |ops| && CaseSound(cs[0])
    ensures CaseSound(cs[k]) && Grows(cs[0], cs[k])
  {
    hide *;
    RunLength(cs, ops);
    if k > 0 {
      RunSound(cs, ops, k - 1);
      RunStep(cs, ops, k - 1);
      AfterSound(cs[k - 1], ops[k - 1]);
      GrowsTrans(cs[0], cs[k - 1], cs[k]);
    } else {
      GrowsItself(cs[0]);
    }
  }

  lemma RunLength(cs: seq<Case>, ops: seq<Operation>)
    requires Run(cs, ops)
    ensures |cs| == |ops| + 1
  {
  }

  lemma RunStep(cs: seq<Case>, ops: seq<Operation>, k: nat)
    requires Run(cs, ops) && k < |ops|
    ensures |cs| == |ops| + 1 && cs[k].revisions != [] && Supplied(ops[k]) && cs[k + 1] == After(cs[k], ops[k])
  {
  }

  lemma AfterSound(c: Case, op: Operation)
    requires CaseSound(c) && c.revisions != [] && Supplied(op)
    ensures CaseSound(After(c, op)) && Grows(c, After(c, op))
  {
    hide CaseSound, Grows, Apply;
    if Apply(c, op).Ok? {
      StepSound(c, op);
    } else {
      GrowsItself(c);
    }
  }

  lemma StartedSound(c: Case)
    requires Started(c)
    ensures CaseSound(c)
  {
    hide CaseSound, Start;
    var s: Submission :| Genuine(s.content) && Begin(s) == Ok(c);
    StartSound(s.caseId, s.snapshotId, s.content, s.applicant, s.at, s.instructionIds);
  }

  /** Nothing recorded is ever undone. */
  lemma LaterGrows(c: Case, c': Case)
    requires CaseSound(c) && Later(c, c')
    ensures CaseSound(c') && Grows(c, c')
  {
    hide CaseSound, Grows, Run;
    var cs, ops :| Leads(c, cs, ops, c');
    RunSound(cs, ops, |ops|);
  }

  /** Whatever sequence of operations was tried, accepted or not, the case is sound. */
  lemma ReachableSound(c: Case)
    requires Reachable(c)
    ensures CaseSound(c)
  {
    hide CaseSound, Started, Later;
    var c0 :| Started(c0) && Later(c0, c);
    StartedSound(c0);
    LaterGrows(c0, c);
  }

  /** An accepted operation raises the version by exactly one, and must have named the version and snapshot it saw. */
  lemma AcceptedNamesVersion(c: Case, op: Operation)
    requires c.revisions != [] && Apply(c, op).Ok?
    ensures op.expectedVersion == c.version && op.snapshotId == Latest(c).snapshotId
    ensures Apply(c, op).value.version == c.version + 1
  {
    hide CaseActor, CreateRevision, CanonicalUuid, Judged, KnownAttempt, KnownCancellation, AllReceived,
         UsedInstruction, TargetIds, Cancellation.Status, SelfApproval, DecidedStatus, Reports, FindInstruction,
         Cancellation.Says;
    AcceptedChecked(c, op);
    match op
    case OpApprove(v, s, p, at) =>
    case OpReject(v, s, p, at, reason) =>
    case OpResubmit(v, s, a, o, n, content, at, ids) => ResubmitAccepts(c, v, s, a, o, n, content, at, ids);
    case OpWithdraw(v, s, a, o, reason, at) =>
    case OpReport(v, s, i, a, p, amount, at) =>
    case OpConfirm(v, s, i, a, p, at) =>
    case OpReturn(v, s, i, a, p, at, reason) =>
    case OpRequestCancellation(v, s, a, o, id, reason, at) => var _ := RequestAccepts(c, v, s, a, o, id, reason, at);
    case OpDecideCancellation(v, s, id, p, consent, at) =>
  }

  lemma {:induction false} VersionNeverFalls(cs: seq<Case>, ops: seq<Operation>, i: nat, k: nat)
    requires Run(cs, ops) && i <= k <= |ops|
    ensures cs[i].version <= cs[k].version
  {
    hide Apply;
    if i < k {
      VersionNeverFalls(cs, ops, i, k - 1);
      if Apply(cs[k - 1], ops[k - 1]).Ok? {
        AcceptedNamesVersion(cs[k - 1], ops[k - 1]);
      }
    }
  }

  /**
   * In any run at most one of the operations that name the same version is accepted: whoever comes later works on a
   * case they have not seen, and is refused. The case in between is exactly the one the accepted operation named.
   */
  lemma VersionServesOnce(cs: seq<Case>, ops: seq<Operation>, i: nat, k: nat)
    requires Run(cs, ops) && i < k < |ops| && Apply(cs[i], ops[i]).Ok? && Apply(cs[k], ops[k]).Ok?
    ensures ops[i].expectedVersion < ops[k].expectedVersion == cs[k].version
    ensures ops[i].expectedVersion == cs[i].version && ops[i].snapshotId == Latest(cs[i]).snapshotId
  {
    AcceptedNamesVersion(cs[i], ops[i]);
    AcceptedNamesVersion(cs[k], ops[k]);
    hide Apply;
    assert cs[i + 1] == After(cs[i], ops[i]);
    VersionNeverFalls(cs, ops, i + 1, k);
  }

  lemma AcceptedChecked(c: Case, op: Operation)
    requires c.revisions != [] && Apply(c, op).Ok?
    ensures CurrentRevision(c, op.expectedVersion, op.snapshotId).Pass?
    ensures match op
            case OpApprove(_, _, _, _) => c.status == AwaitingApproval
            case OpReject(_, _, _, _, _) => c.status == AwaitingApproval
            case OpResubmit(_, _, _, _, _, _, _, _) => c.status == RevisionRejected
            case OpWithdraw(_, _, _, _, _, _) => c.status == AwaitingApproval || c.status == RevisionRejected
            case OpReport(_, _, _, _, _, _, _) => c.status == PaymentActive
            case OpConfirm(_, _, _, _, _, _) => c.status == PaymentActive
            case OpReturn(_, _, _, _, _, _, _) => c.status == PaymentActive
            case OpRequestCancellation(_, _, _, _, _, _, _) => c.status == PaymentActive && c.attempts == []
            case OpDecideCancellation(_, _, _, _, _, _) => c.status == CancellationPending
  {
    hide CurrentRevision, CaseActor, CreateRevision, CanonicalUuid, Judged, KnownAttempt, KnownCancellation,
         AllReceived, UsedInstruction, TargetIds, Cancellation.Status, SelfApproval, DecidedStatus, Reports,
         FindInstruction, WithDecisions, WithPaymentAttempt, WithCancellation, NewAttempt, NewCancellation,
         LatestAttempt, Cancellation.Says;
  }

  ghost predicate Terminal(c: Case) {
    c.status == Archived || c.status == Withdrawn || c.status == Cancelled
  }

  /** Archived, Withdrawn and Cancelled are final: no operation is accepted there, so nothing changes any more. */
  lemma {:induction false} TerminalIsFinal(cs: seq<Case>, ops: seq<Operation>, k: nat)
    requires Run(cs, ops) && k <= |ops| && Terminal(cs[0])
    ensures cs[k] == cs[0]
    ensures k < |ops| ==> Apply(cs[k], ops[k]).Err?
  {
    hide Apply;
    if k > 0 {
      TerminalIsFinal(cs, ops, k - 1);
    }
    if k < |ops| && Apply(cs[k], ops[k]).Ok? {
      AcceptedChecked(cs[k], ops[k]);
    }
  }

  // ---- approval ----

  /** Payment, cancellation and archiving presuppose that every required approver approved and none rejected. */
  lemma PaymentNeedsUnanimity(c: Case, id: string)
    requires Reachable(c) && c.revisions != [] && id in Latest(c).content.requiredApproverIds
    requires c.status == PaymentActive || c.status == CancellationPending || c.status == Cancelled ||
             c.status == Archived
    ensures exists i :: 0 <= i < |c.approvals| && c.approvals[i].snapshotId == Latest(c).snapshotId &&
                        c.approvals[i].participantId == id && c.approvals[i].decision == Approved
    ensures forall i | 0 <= i < |c.approvals| && c.approvals[i].snapshotId == Latest(c).snapshotId ::
              c.approvals[i].decision == Approved
  {
    hide Reachable, RevisionsSound, ApprovalsSound, PaymentsSound, CancellationsSound;
    ReachableSound(c);
    assert Judged(c.approvals, Latest(c).snapshotId, id, Approved);
    var current := Latest(c).snapshotId;
    assert !AnyRejection(c.approvals, current);
    hide CaseSound, StatusSound;
    NobodyRejected(c.approvals, current);
  }

  lemma NobodyRejected(approvals: seq<Approval>, snapshotId: string)
    requires !AnyRejection(approvals, snapshotId)
    ensures forall i | 0 <= i < |approvals| && approvals[i].snapshotId == snapshotId ::
            approvals[i].decision == Approved
  {
    assert forall a: Approval :: a.decision != Rejected ==> a.decision == Approved;
  }

  /** A new case is archived at once exactly when its applicant is the only required approver; otherwise it waits. */
  lemma StartOutcome(s: Submission)
    requires Genuine(s.content) && Begin(s).Ok?
    ensures Begin(s).value.status
            == if s.content.requiredApproverIds == [s.applicant.participantId] then Archived else AwaitingApproval
  {
    hide Genuine, DistinctBy, AnyRejection, AllApproved, SelfApproval, CanonicalUuid, InstructionIdRejection;
    var r := CreateRevision(s.caseId, s.snapshotId, s.content, s.applicant, s.at, s.instructionIds, 1, None).value;
    assert r.content == s.content && r.applicant == s.applicant && r.snapshotId == s.snapshotId;
    hide CreateRevision;
    ApproversDistinct(s.content);
    FirstDecision(r);
    if s.content.requiredApproverIds == [s.applicant.participantId] {
      SoleApproverIsEven(s.content);
    }
  }

  lemma FirstDecision(r: Revision)
    requires r.content.requiredApproverIds != [] && DistinctBy(r.content.requiredApproverIds, Itself)
    ensures !AnyRejection(SelfApproval(r), r.snapshotId)
    ensures AllApproved(SelfApproval(r), r) <==> r.content.requiredApproverIds == [r.applicant.participantId]
  {
    var ids, own := r.content.requiredApproverIds, r.applicant.participantId;
    if ids == [own] {
      assert SelfApproval(r)[0].decision == Approved;
    } else {
      assert ids[0] == own ==> |ids| > 1 && Itself(ids[0]) != Itself(ids[1]) && ids[1] in ids;
      assert ids[0] in ids;
      var other :| other in ids && other != own;
      assert !Judged(SelfApproval(r), r.snapshotId, other, Approved);
    }
  }

  // ---- who acts ----

  /** The participant an operation speaks for. */
  function ActorOf(op: Operation): string {
    match op
    case OpApprove(_, _, p, _) => p
    case OpReject(_, _, p, _, _) => p
    case OpResubmit(_, _, a, _, _, _, _, _) => a.participantId
    case OpWithdraw(_, _, a, _, _, _) => a.participantId
    case OpReport(_, _, _, _, p, _, _) => p
    case OpConfirm(_, _, _, _, p, _) => p
    case OpReturn(_, _, _, _, p, _, _) => p
    case OpRequestCancellation(_, _, a, _, _, _, _) => a.participantId
    case OpDecideCancellation(_, _, _, p, _, _) => p
  }

  /** Everything the step added to the histories was said by `p`: judgements, reports, receipts and consents. */
  ghost predicate SaidBy(c: Case, c': Case, p: string) {
    && (forall i | |c.approvals| <= i < |c'.approvals| :: c'.approvals[i].participantId == p)
    && (forall i | |c.attempts| <= i < |c'.attempts| :: c'.attempts[i].payerParticipantId == p)
    && (forall i | 0 <= i < |c.attempts| && i < |c'.attempts| && c'.attempts[i] != c.attempts[i] ::
          c'.attempts[i].receipt.Some? &&
            c'.attempts[i].receipt.value.participantId == p == c.attempts[i].payeeParticipantId)
    && (forall i, j | 0 <= i < |c.cancellations| && i < |c'.cancellations| &&
                      |c.cancellations[i].decisions| <= j < |c'.cancellations[i].decisions| ::
          c'.cancellations[i].decisions[j].participantId == p)
  }

  lemma JudgementSaid(c: Case, p: string, decision: Decision, at: Clock, reason: Option<string>)
    requires c.revisions != [] && c.attempts == [] && c.cancellations == [] && Record(c, p, decision, at, reason).Ok?
    ensures SaidBy(c, Record(c, p, decision, at, reason).value, p)
  {
    hide DecidedStatus;
  }

  lemma ReportSaid(c: Case, v: int, s: string, i: string, a: string, p: string, amount: int, at: Clock)
    requires c.revisions != [] && ReportPayment(c, v, s, i, a, p, amount, at).Ok?
    ensures SaidBy(c, ReportPayment(c, v, s, i, a, p, amount, at).value, p)
  {
    hide RequireInstruction, AllReceived, Reports, LatestAttempt, CanonicalUuid, Nonempty, KnownAttempt;
    var instruction := RequireInstruction(c, v, s, i).value;
    var attempt := NewAttempt(Latest(c).snapshotId, instruction, a, p, amount, at,
                              |Reports(c.attempts, instruction.instructionId)| + 1).value;
    assert attempt.attemptId == a;
  }

  lemma AttemptsDistinct(c: Case)
    requires CaseSound(c)
    ensures DistinctBy(c.attempts, AttemptIdOf)
  {
    hide RevisionsSound, ApprovalsSound, CancellationsSound, StatusSound;
  }

  lemma AnswerSaid(c: Case, latest: Attempt, p: string, d: ReceiptDecision, at: Clock, reason: Option<string>)
    requires CaseSound(c) && latest in c.attempts && KnownAttempt(c.attempts, latest.attemptId) &&
             Decide(latest, p, d, at, reason).Ok?
    ensures var a := Decide(latest, p, d, at, reason).value;
            a.receipt.Some? && SaidBy(c, WithPaymentAttempt(c, a, a.receipt.value.decidedAt), p)
  {
    AttemptsDistinct(c);
    HasRevisions(c);
    hide CaseSound;
    var a := Decide(latest, p, d, at, reason).value;
    DecideIs(latest, p, d, at, reason);
    assert a.receipt.value.participantId == p == latest.payeeParticipantId;
    hide Decide;
    ReplacedSaid(c, latest, a, p);
  }

  lemma ReplacedSaid(c: Case, latest: Attempt, a: Attempt, p: string)
    requires c.revisions != [] && DistinctBy(c.attempts, AttemptIdOf) && latest in c.attempts &&
             KnownAttempt(c.attempts, latest.attemptId)
    requires a == latest.(receipt := a.receipt) && a.receipt.Some? &&
             a.receipt.value.participantId == p == latest.payeeParticipantId
    ensures SaidBy(c, WithPaymentAttempt(c, a, a.receipt.value.decidedAt), p)
  {
    hide AllReceived, KnownAttempt;
    ReplacingOne(c.attempts, latest, a);
    hide DistinctBy, Replacing;
  }

  lemma ConfirmSaid(c: Case, v: int, s: string, i: string, id: string, p: string, at: Clock)
    requires CaseSound(c) && ConfirmReceipt(c, v, s, i, id, p, at).Ok?
    ensures SaidBy(c, ConfirmReceipt(c, v, s, i, id, p, at).value, p)
  {
    hide RevisionsSound, ApprovalsSound, PaymentsSound, CancellationsSound, StatusSound, WithPaymentAttempt, SaidBy;
    var latest := RequireLatestAttempt(c, v, s, i, id).value;
    LatestIsKnown(c.attempts, RequireInstruction(c, v, s, i).value.instructionId);
    AnswerSaid(c, latest, p, Received, at, None);
  }

  lemma ReturnSaid(c: Case, v: int, s: string, i: string, id: string, p: string, at: Clock, reason: string)
    requires CaseSound(c) && ReturnPayment(c, v, s, i, id, p, at, reason).Ok?
    ensures SaidBy(c, ReturnPayment(c, v, s, i, id, p, at, reason).value, p)
  {
    hide RevisionsSound, ApprovalsSound, PaymentsSound, CancellationsSound, StatusSound, WithPaymentAttempt, SaidBy;
    var latest := RequireLatestAttempt(c, v, s, i, id).value;
    LatestIsKnown(c.attempts, RequireInstruction(c, v, s, i).value.instructionId);
    AnswerSaid(c, latest, p, Returned, at, Some(reason));
  }

  lemma ConsentSaid(c: Case, v: int, s: string, cid: string, p: string, consent: Consent, at: Clock)
    requires CaseSound(c) && DecideCancellation(c, v, s, cid, p, consent, at).Ok?
    ensures SaidBy(c, DecideCancellation(c, v, s, cid, p, consent, at).value, p)
  {
    hide RevisionsSound, ApprovalsSound, PaymentsSound, StatusSound, DecideCancellation, Cancellation.Status,
         Cancellation.Says;
    var request := DecideAccepts(c, v, s, cid, p, consent, at);
    var last := |c.cancellations| - 1;
    assert DistinctBy(c.cancellations, CancellationIdOf);
    hide CancellationsSound, CaseSound;
    forall i | 0 <= i < |c.cancellations|
      ensures ReplacingRequest(request)(c.cancellations[i]) == if i == last then request else c.cancellations[i] {
      assert i < last ==> CancellationIdOf(c.cancellations[i]) != CancellationIdOf(c.cancellations[last]);
    }
    assert KnownCancellation(c.cancellations, request.cancellationId) by {
      assert c.cancellations[last].cancellationId == request.cancellationId;
    }
  }

  lemma RequestSaid(c: Case, v: int, s: string, a: Applicant, o: string, id: string, reason: string, at: Clock)
    requires c.revisions != [] && RequestCancellation(c, v, s, a, o, id, reason, at).Ok?
    ensures SaidBy(c, RequestCancellation(c, v, s, a, o, id, reason, at).value, a.participantId)
  {
    hide RequestCancellation, Cancellation.Status;
    var request := RequestAccepts(c, v, s, a, o, id, reason, at);
  }

  lemma ResubmitSaid(c: Case, v: int, s: string, a: Applicant, o: string, n: string, content: Content, at: Clock,
                     ids: seq<string>)
    requires c.revisions != [] && c.attempts == [] && c.cancellations == [] &&
             Resubmit(c, v, s, a, o, n, content, at, ids).Ok?
    ensures SaidBy(c, Resubmit(c, v, s, a, o, n, content, at, ids).value, a.participantId)
  {
    hide Resubmit, DecidedStatus, UsedInstruction, TargetIds;
    ResubmitAccepts(c, v, s, a, o, n, content, at, ids);
    assert CreateRevision(c.caseId, n, content, a, at, ids, |c.revisions| + 1,
                          Some(Latest(c).snapshotId)).value.applicant == a by {
      hide InstructionIdRejection, CanonicalUuid, Nonempty;
    }
    hide CreateRevision;
  }

  /** Nobody is spoken for: a step adds judgements, reports, receipts and consents only in the name of its own actor. */
  lemma OnlyTheActorSpeaks(c: Case, op: Operation)
    requires CaseSound(c) && Apply(c, op).Ok?
    ensures SaidBy(c, Apply(c, op).value, ActorOf(op))
  {
    hide RevisionsSound, ApprovalsSound, PaymentsSound, CancellationsSound, Approve, Reject, Resubmit, Withdraw,
         ReportPayment, ConfirmReceipt, ReturnPayment, RequestCancellation, DecideCancellation, SaidBy;
    AcceptedChecked(c, op);
    assert (op.OpApprove? || op.OpReject? || op.OpResubmit? || op.OpWithdraw?) ==>
      c.attempts == [] && c.cancellations == [];
    hide StatusSound, CaseSound;
    match op
    case OpApprove(v, s, p, at) => ApproveSaid(c, v, s, p, at);
    case OpReject(v, s, p, at, reason) => RejectSaid(c, v, s, p, at, reason);
    case OpResubmit(v, s, a, o, n, content, at, ids) => ResubmitSaid(c, v, s, a, o, n, content, at, ids);
    case OpWithdraw(v, s, a, o, reason, at) => WithdrawSaid(c, v, s, a, o, reason, at);
    case OpReport(v, s, i, a, p, amount, at) => ReportSaid(c, v, s, i, a, p, amount, at);
    case OpConfirm(v, s, i, a, p, at) => ConfirmSaid(c, v, s, i, a, p, at);
    case OpReturn(v, s, i, a, p, at, reason) => ReturnSaid(c, v, s, i, a, p, at, reason);
    case OpRequestCancellation(v, s, a, o, id, reason, at) => RequestSaid(c, v, s, a, o, id, reason, at);
    case OpDecideCancellation(v, s, id, p, consent, at) => ConsentSaid(c, v, s, id, p, consent, at);
  }

  lemma ApproveSaid(c: Case, v: int, s: string, p: string, at: Clock)
    requires c.revisions != [] && c.attempts == [] && c.cancellations == [] && Approve(c, v, s, p, at).Ok?
    ensures SaidBy(c, Approve(c, v, s, p, at).value, p)
  {
    hide DecisionCheck, Record, SaidBy;
    JudgementSaid(c, p, Approved, at, None);
  }

  lemma RejectSaid(c: Case, v: int, s: string, p: string, at: Clock, reason: string)
    requires c.revisions != [] && c.attempts == [] && c.cancellations == [] && Reject(c, v, s, p, at, reason).Ok?
    ensures SaidBy(c, Reject(c, v, s, p, at, reason).value, p)
  {
    hide DecisionCheck, Record, SaidBy, Nonempty;
    JudgementSaid(c, p, Rejected, at, Some(reason));
  }

  lemma WithdrawSaid(c: Case, v: int, s: string, a: Applicant, o: string, reason: string, at: Clock)
    requires c.revisions != [] && c.attempts == [] && c.cancellations == [] && Withdraw(c, v, s, a, o, reason, at).Ok?
    ensures SaidBy(c, Withdraw(c, v, s, a, o, reason, at).value, a.participantId)
  {
    hide DecidedStatus, CaseActor, CurrentRevision, Nonempty;
  }

  // ---- what identifiers name ----

  /**
   * Over a whole run the revisions keep one expense set and one group, and share no snapshot or instruction identifier.
   */
  lemma IdentifiersServeOnce(c: Case, k: nat, k': nat)
    requires Reachable(c) && k < k' < |c.revisions|
    ensures TargetIds(c.revisions[k]) == TargetIds(c.revisions[k'])
    ensures c.revisions[k].content.groupId == c.revisions[k'].content.groupId
    ensures c.revisions[k].snapshotId != c.revisions[k'].snapshotId
    ensures forall i, i' | 0 <= i < |c.revisions[k].instructions| && 0 <= i' < |c.revisions[k'].instructions| ::
              c.revisions[k].instructions[i].instructionId != c.revisions[k'].instructions[i'].instructionId
  {
    hide Reachable, StatusSound, ApprovalsSound, PaymentsSound, CancellationsSound, RevisionSound, TargetIds;
    ReachableSound(c);
    assert Follows(c.revisions, k) && Follows(c.revisions, k') && !SharesInstruction(c.revisions[k], c.revisions[k']);
    assert SnapshotIdOf(c.revisions[k]) != SnapshotIdOf(c.revisions[k']);
  }

  // ---- payments and cancellation exclude one another ----

  lemma StepKeepsRequests(c: Case, op: Operation)
    requires CaseSound(c) && c.attempts != [] && Apply(c, op).Ok?
    ensures Apply(c, op).value.cancellations == c.cancellations
  {
    hide RevisionsSound, ApprovalsSound, PaymentsSound, CancellationsSound, Apply;
    AcceptedChecked(c, op);
    hide StatusSound;
    assert op.OpReport? || op.OpConfirm? || op.OpReturn?;
    PaymentKeepsRequests(c, op);
  }

  lemma PaymentKeepsRequests(c: Case, op: Operation)
    requires c.revisions != [] && Apply(c, op).Ok? && (op.OpReport? || op.OpConfirm? || op.OpReturn?)
    ensures Apply(c, op).value.cancellations == c.cancellations
  {
    hide CurrentRevision, CanonicalUuid, KnownAttempt, AllReceived, Reports, FindInstruction, NewAttempt, LatestAttempt;
  }

  /** After the first payment report no cancellation request is ever recorded again, answered, or in force. */
  lemma {:induction false} ReportRulesOutCancellation(cs: seq<Case>, ops: seq<Operation>, k: nat)
    requires Run(cs, ops) && k <= |ops| && Reachable(cs[0]) && cs[0].attempts != []
    ensures cs[k].attempts != [] && cs[k].cancellations == cs[0].cancellations
    ensures cs[k].status == PaymentActive || cs[k].status == Archived
  {
    hide Reachable, Apply, Grows, CaseSound;
    ReachableSound(cs[0]);
    RunSound(cs, ops, k);
    RunKeepsAttempts(cs[0], cs[k]);
    if k > 0 {
      ReportRulesOutCancellation(cs, ops, k - 1);
      RunSound(cs, ops, k - 1);
      if Apply(cs[k - 1], ops[k - 1]).Ok? {
        StepKeepsRequests(cs[k - 1], ops[k - 1]);
      }
    }
  }

  lemma RunKeepsAttempts(c: Case, c': Case)
    requires CaseSound(c') && Grows(c, c') && c.attempts != []
    ensures c'.attempts != [] && (c'.status == PaymentActive || c'.status == Archived)
  {
    hide RevisionsSound, ApprovalsSound, PaymentsSound, CancellationsSound, AttemptKept, RequestKept;
  }

  /** A cancelled case never saw a payment report: everyone required agreed, nobody declined, earlier requests fell. */
  lemma CancelledMeans(c: Case)
    requires Reachable(c) && c.status == Cancelled
    ensures c.attempts == [] && c.cancellations != [] && c.revisions != []
    ensures var last := c.cancellations[|c.cancellations| - 1];
            && last.requiredApproverIds == Latest(c).content.requiredApproverIds
            && (forall id | id in Latest(c).content.requiredApproverIds ::
                last.Says(id, Agreed) && !last.Says(id, Declined))
    ensures forall k | 0 <= k < |c.cancellations| - 1 :: c.cancellations[k].AnyDecline()
  {
    hide Reachable, RevisionsSound, ApprovalsSound, PaymentsSound;
    ReachableSound(c);
    assert RequestSound(c.cancellations, |c.cancellations| - 1, Latest(c));
    forall k | 0 <= k < |c.cancellations| - 1 ensures c.cancellations[k].AnyDecline() {
      assert RequestSound(c.cancellations, k, Latest(c));
    }
  }

  /** The reports of one instruction are numbered 1..k; all but the last were returned, so at most one was received. */
  lemma ReportsNumbered(c: Case, instructionId: string)
    requires Reachable(c)
    ensures var reports := Reports(c.attempts, instructionId);
            && (forall k | 0 <= k < |reports| :: reports[k].ordinal == k + 1)
            && (forall k | 0 <= k < |reports| - 1 :: reports[k].IsReturned())
            && (forall k, k' | 0 <= k < |reports| && 0 <= k' < |reports| && reports[k].IsReceived() &&
                reports[k'].IsReceived() :: k == k')
  {
    hide Reachable, RevisionsSound, ApprovalsSound, StatusSound, CancellationsSound, Reports;
    ReachableSound(c);
    assert ReportsSound(Reports(c.attempts, instructionId));
  }

  // ---- where the money is ----

  function AttemptPayerOf(a: Attempt): string { a.payerParticipantId }
  function AttemptPayeeOf(a: Attempt): string { a.payeeParticipantId }
  function AttemptInstructionOf(a: Attempt): string { a.instructionId }
  function ReceivedAmount(a: Attempt): int { if a.IsReceived() then a.amount else 0 }

  /** The received payments one participant sent. */
  function ReceivedFrom(id: string): Attempt -> int { Keyed(AttemptPayerOf, ReceivedAmount, id) }

  /** The received payments one participant took. */
  function ReceivedBy(id: string): Attempt -> int { Keyed(AttemptPayeeOf, ReceivedAmount, id) }

  lemma {:induction false} KeyedIsFiltered(attempts: seq<Attempt>, w: Attempt -> int, id: string)
    ensures Sum(attempts, Keyed(AttemptInstructionOf, w, id)) == Sum(Reports(attempts, id), w)
  {
    if attempts != [] {
      KeyedIsFiltered(attempts[1..], w, id);
      var rest := Reports(attempts[1..], id);
      if attempts[0].instructionId == id {
        assert ([attempts[0]] + rest)[1..] == rest;
      } else {
        assert [] + rest == rest;
      }
    }
  }

  /** Of one instruction's reports only the last carries weight. */
  lemma {:induction false} LastCounts(reports: seq<Attempt>, w: Attempt -> int)
    requires reports != [] && forall k | 0 <= k < |reports| - 1 :: w(reports[k]) == 0
    ensures Sum(reports, w) == w(reports[|reports| - 1])
  {
    if |reports| > 1 {
      LastCounts(reports[1..], w);
    } else {
      assert Sum(reports, w) == w(reports[0]) + Sum(reports[1..], w);
    }
  }

  /** Weights of received reports that copy a fixed fact of their instruction. */
  ghost predicate Weighs(w: Attempt -> int, g: PaymentInstruction -> int) {
    forall a: Attempt :: w(a) == if a.IsReceived()
      then g(PaymentInstruction(a.instructionId, a.payerParticipantId, a.payeeParticipantId, a.amount)) else 0
  }

  lemma InstructionsDiffer(r: Revision, i: PaymentInstruction, i': PaymentInstruction)
    requires RevisionSound(r) && i in r.instructions && i' in r.instructions && i.instructionId == i'.instructionId
    ensures i == i'
  {
    DistinctByCounts(r.instructions, InstructionIdOf);
    assert InstructionIdOf(i) == InstructionIdOf(i');
  }

  lemma ReceivedInstructionCounts(attempts: seq<Attempt>, r: Revision, i: PaymentInstruction,
                                  w: Attempt -> int, g: PaymentInstruction -> int)
    requires PaymentsSound(attempts, r) && RevisionSound(r) && AllReceived(r.instructions, attempts) && Weighs(w, g)
    requires i in r.instructions
    ensures Sum(attempts, Keyed(AttemptInstructionOf, w, i.instructionId)) == g(i)
  {
    hide RevisionSound, DistinctBy;
    var reports := Reports(attempts, i.instructionId);
    assert ReportsSound(reports);
    KeyedIsFiltered(attempts, w, i.instructionId);
    LastCounts(reports, w);
    var last := reports[|reports| - 1];
    assert last in reports && AttemptSound(last, r);
    InstructionsDiffer(r, PaymentInstruction(last.instructionId, last.payerParticipantId, last.payeeParticipantId,
                                             last.amount), i);
  }

  /** When everything was received, the received reports add up to what the instructions say. */
  lemma ReceivedAddUp(attempts: seq<Attempt>, r: Revision, w: Attempt -> int, g: PaymentInstruction -> int)
    requires PaymentsSound(attempts, r) && RevisionSound(r) && AllReceived(r.instructions, attempts) && Weighs(w, g)
    ensures Sum(attempts, w) == Sum(r.instructions, g)
  {
    hide PaymentsSound, AllReceived, Weighs;
    forall a | a in attempts ensures exists i :: i in r.instructions && InstructionIdOf(i) == AttemptInstructionOf(a) {
      AttemptNamesInstruction(attempts, r, a);
    }
    HoldersShareAll(r.instructions, InstructionIdOf, attempts, AttemptInstructionOf, w);
    forall i | i in r.instructions ensures KeyedSum(attempts, AttemptInstructionOf, w, InstructionIdOf)(i) == g(i) {
      ReceivedInstructionCounts(attempts, r, i, w, g);
    }
    SumEqual(r.instructions, KeyedSum(attempts, AttemptInstructionOf, w, InstructionIdOf), g);
  }

  lemma AttemptNamesInstruction(attempts: seq<Attempt>, r: Revision, a: Attempt)
    requires PaymentsSound(attempts, r) && a in attempts
    ensures exists i :: i in r.instructions && InstructionIdOf(i) == AttemptInstructionOf(a)
  {
    var i := PaymentInstruction(a.instructionId, a.payerParticipantId, a.payeeParticipantId, a.amount);
    assert i in r.instructions && InstructionIdOf(i) == AttemptInstructionOf(a);
  }

  function InstructionPayerOf(i: PaymentInstruction): string { i.payerParticipantId }
  function InstructionPayeeOf(i: PaymentInstruction): string { i.payeeParticipantId }
  function InstructionAmountOf(i: PaymentInstruction): int { i.amount }

  lemma InstructionsRepeatCandidates(r: Revision, id: string)
    requires RevisionSound(r)
    ensures Sum(r.instructions, Keyed(InstructionPayerOf, InstructionAmountOf, id)) ==
            Sum(r.content.candidates, SentBy(id))
    ensures Sum(r.instructions, Keyed(InstructionPayeeOf, InstructionAmountOf, id)) ==
            Sum(r.content.candidates, TakenBy(id))
  {
    hide Genuine, DistinctBy;
    forall i | 0 <= i < |r.instructions|
      ensures InstructionPayerOf(r.instructions[i]) == SenderOf(r.content.candidates[i])
      ensures InstructionPayeeOf(r.instructions[i]) == TakerOf(r.content.candidates[i])
      ensures InstructionAmountOf(r.instructions[i]) == InstructedAmount(r.content.candidates[i])
    {
    }
    SumsAlike(r.instructions, r.content.candidates, Keyed(InstructionPayerOf, InstructionAmountOf, id), SentBy(id));
    SumsAlike(r.instructions, r.content.candidates, Keyed(InstructionPayeeOf, InstructionAmountOf, id), TakenBy(id));
  }

  lemma ReceivedWeighs(id: string)
    ensures Weighs(ReceivedFrom(id), Keyed(InstructionPayerOf, InstructionAmountOf, id))
    ensures Weighs(ReceivedBy(id), Keyed(InstructionPayeeOf, InstructionAmountOf, id))
  {
    forall a: Attempt
      ensures var i := PaymentInstruction(a.instructionId, a.payerParticipantId, a.payeeParticipantId, a.amount);
              && AttemptPayerOf(a) == InstructionPayerOf(i) && AttemptPayeeOf(a) == InstructionPayeeOf(i)
              && ReceivedAmount(a) == if a.IsReceived() then InstructionAmountOf(i) else 0
    {
    }
  }

  /**
   * End-to-end conservation: when a case is archived, everyone has paid exactly what they bear.
   * What a participant paid for the expenses, plus the payments received from them, less the payments they took,
   * is the sum of their burdens.
   */
  lemma ArchivedConserves(c: Case, id: string)
    requires Reachable(c) && c.status == Archived
    ensures c.revisions != []
    ensures var es := Latest(c).content.expenses;
            Sum(es, PaidBy(id)) + Sum(c.attempts, ReceivedFrom(id)) - Sum(c.attempts, ReceivedBy(id))
            == Sum(Flat(es), BurdenBy(id))
  {
    hide Reachable, RevisionsSound, RevisionSound, ApprovalsSound, PaymentsSound, CancellationsSound, Genuine,
         AllReceived, AllApproved, AnyRejection;
    ReachableSound(c);
    LatestCaseId(c);
    hide CaseSound, Weighs;
    var r := Latest(c);
    ReceivedWeighs(id);
    ReceivedAddUp(c.attempts, r, ReceivedFrom(id), Keyed(InstructionPayerOf, InstructionAmountOf, id));
    ReceivedAddUp(c.attempts, r, ReceivedBy(id), Keyed(InstructionPayeeOf, InstructionAmountOf, id));
    InstructionsRepeatCandidates(r, id);
    assert Genuine(r.content) by { ContentGenuine(r); }
    CandidatesConserve(r.content, id);
  }

  lemma ContentGenuine(r: Revision)
    requires RevisionSound(r)
    ensures Genuine(r.content)
  {
  }

  datatype ArchiveReason = NoPaymentRequired | AllPaymentsReceived

  function ReasonOf(c: Case): Option<ArchiveReason>
    requires c.revisions != []
  {
    if c.status != Archived then None
    else if |Latest(c).instructions| == 0 then Some(NoPaymentRequired)
    else Some(AllPaymentsReceived)
  }

  /** The archive reason says nothing had to be paid exactly when every balance is zero. */
  lemma NoPaymentMeansEven(c: Case)
    requires Reachable(c) && c.status == Archived
    ensures c.revisions != []
    ensures ReasonOf(c) == Some(NoPaymentRequired) <==> forall x | x in Latest(c).content.balances :: x.amount == 0
    ensures ReasonOf(c) == Some(NoPaymentRequired) ==> c.attempts == []
  {
    hide Reachable, RevisionsSound, RevisionSound, ApprovalsSound, CancellationsSound, Genuine, AllReceived,
         AllApproved, AnyRejection;
    ReachableSound(c);
    LatestCaseId(c);
    NothingReported(Latest(c));
    assert c.attempts != [] ==> AttemptSound(c.attempts[0], Latest(c));
  }
}
