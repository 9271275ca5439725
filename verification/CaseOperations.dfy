/** Every operation of a settlement case: when it is accepted, and the case it leads to. */
module CaseOperations {
  import opened Outcomes
  import opened Text
  import opened SnapshotContent
  import opened SettlementCase
  import opened CaseInvariants
  import opened CaseTheorems
  import opened CaseOutcomes
  import opened CaseSubmissions
  import opened CaseCancellations

  /** The operation may be made now: its own conditions, with the version and snapshot it names. */
  ghost predicate May(c: Case, op: Operation)
    requires c.revisions != []
  {
    match op
    case OpApprove(v, s, p, at) => MayJudge(c, v, s, p, at)
    case OpReject(v, s, p, at, reason) => MayJudge(c, v, s, p, at) && Nonempty(reason)
    case OpResubmit(v, s, a, o, n, content, at, ids) => MayResubmit(c, v, s, a, o, n, content, at, ids)
    case OpWithdraw(v, s, a, o, reason, at) =>
      && (c.status == AwaitingApproval || c.status == RevisionRejected) && Current(c, v, s) && MayAct(c, a, o)
      && Nonempty(reason) && at.Some?
    case OpReport(v, s, i, id, p, amount, at) => MayReport(c, v, s, i, id, p, amount, at)
    case OpConfirm(v, s, i, id, p, at) => MayAnswer(c, v, s, i, id, p, at)
    case OpReturn(v, s, i, id, p, at, reason) => MayAnswer(c, v, s, i, id, p, at) && Nonempty(reason)
    case OpRequestCancellation(v, s, a, o, id, reason, at) => MayRequest(c, v, s, a, o, id, reason, at)
    case OpDecideCancellation(v, s, id, p, consent, at) => MayConsent(c, v, s, id, p, at)
  }

  /** The case the operation leads to. */
  ghost predicate Becomes(c: Case, op: Operation, c': Case)
    requires c.revisions != [] && op.at.Some?
  {
    match op
    case OpApprove(v, s, p, at) => ApprovedBy(c, p, at.value, c')
    case OpReject(v, s, p, at, reason) => RejectedBy(c, p, at.value, reason, c')
    case OpResubmit(v, s, a, o, n, content, at, ids) =>
      |ids| == |content.candidates| && ResubmittedAs(c, n, content, a, at.value, ids, c')
    case OpWithdraw(v, s, a, o, reason, at) =>
      c' == c.(status := Withdrawn, version := c.version + 1,
               withdrawal := Some(Withdrawal(c.revisions[|c.revisions| - 1].snapshotId, a, reason, at.value)))
    case OpReport(v, s, i, id, p, amount, at) => ReportedBy(c, i, id, p, amount, at.value, c')
    case OpConfirm(v, s, i, id, p, at) =>
      AnsweredWith(c, i, id, p, PaymentReceipt(p, ReceiptDecision.Received, at.value, None), c')
    case OpReturn(v, s, i, id, p, at, reason) =>
      AnsweredWith(c, i, id, p, PaymentReceipt(p, ReceiptDecision.Returned, at.value, Some(reason)), c')
    case OpRequestCancellation(v, s, a, o, id, reason, at) => c' == RequestedCase(c, a, id, reason, at.value)
    case OpDecideCancellation(v, s, id, p, consent, at) =>
      c.cancellations != [] && ConsentedBy(c, p, consent, at.value, c')
  }

  /** An operation on a sound case is accepted exactly when it may be made, and has exactly its own effect. */
  lemma OperationExact(c: Case, op: Operation)
    requires CaseSound(c) && Supplied(op)
    ensures c.revisions != []
    ensures Apply(c, op).Ok? <==> May(c, op)
    ensures Apply(c, op).Ok? ==> op.at.Some? && Becomes(c, op, Apply(c, op).value)
  {
    hide *;
    SoundParts(c);
    if op.OpApprove? || op.OpReject? {
      JudgementExact(c, op);
    } else if op.OpResubmit? || op.OpWithdraw? {
      SubmissionExact(c, op);
    } else if op.OpReport? {
      PaymentExact(c, op);
    } else if op.OpConfirm? || op.OpReturn? {
      AnswerExact(c, op);
    } else {
      CancellationExact(c, op);
    }
  }

  lemma JudgementExact(c: Case, op: Operation)
    requires CaseSound(c) && c.revisions != [] && (op.OpApprove? || op.OpReject?)
    ensures Apply(c, op).Ok? <==> May(c, op)
    ensures Apply(c, op).Ok? ==> op.at.Some? && Becomes(c, op, Apply(c, op).value)
  {
    hide CaseSound, Approve, Reject, ApprovedBy, RejectedBy, Current, HasJudged, Nonempty;
    match op
    case OpApprove(v, s, p, at) => ApproveExact(c, v, s, p, at);
    case OpReject(v, s, p, at, reason) => RejectExact(c, v, s, p, at, reason);
    case _ =>
  }

  lemma SubmissionExact(c: Case, op: Operation)
    requires CaseSound(c) && c.revisions != [] && Supplied(op) && (op.OpResubmit? || op.OpWithdraw?)
    ensures Apply(c, op).Ok? <==> May(c, op)
    ensures Apply(c, op).Ok? ==> op.at.Some? && Becomes(c, op, Apply(c, op).value)
  {
    hide CaseSound, Resubmit, Withdraw, ResubmittedAs, MayResubmit, Current, MayAct, Nonempty, Genuine;
    match op
    case OpResubmit(v, s, a, o, n, content, at, ids) => ResubmitExact(c, v, s, a, o, n, content, at, ids);
    case OpWithdraw(v, s, a, o, reason, at) => WithdrawExact(c, v, s, a, o, reason, at);
    case _ =>
  }

  lemma PaymentExact(c: Case, op: Operation)
    requires CaseSound(c) && c.revisions != [] && op.OpReport?
    ensures Apply(c, op).Ok? <==> May(c, op)
    ensures Apply(c, op).Ok? ==> op.at.Some? && Becomes(c, op, Apply(c, op).value)
  {
    hide CaseSound, ReportPayment, ReportedBy, MayReport;
    match op
    case OpReport(v, s, i, id, p, amount, at) => ReportExact(c, v, s, i, id, p, amount, at);
    case _ =>
  }

  lemma AnswerExact(c: Case, op: Operation)
    requires CaseSound(c) && c.revisions != [] && (op.OpConfirm? || op.OpReturn?)
    ensures Apply(c, op).Ok? <==> May(c, op)
    ensures Apply(c, op).Ok? ==> op.at.Some? && Becomes(c, op, Apply(c, op).value)
  {
    hide CaseSound, ConfirmReceipt, ReturnPayment, AnsweredWith, Current, OpenReport, Nonempty;
    match op
    case OpConfirm(v, s, i, id, p, at) => ConfirmExact(c, v, s, i, id, p, at);
    case OpReturn(v, s, i, id, p, at, reason) => ReturnExact(c, v, s, i, id, p, at, reason);
    case _ =>
  }

  lemma CancellationExact(c: Case, op: Operation)
    requires CaseSound(c) && c.revisions != [] && (op.OpRequestCancellation? || op.OpDecideCancellation?)
    ensures Apply(c, op).Ok? <==> May(c, op)
    ensures Apply(c, op).Ok? ==> op.at.Some? && Becomes(c, op, Apply(c, op).value)
  {
    hide CaseSound, RequestCancellation, DecideCancellation, RequestedCase, ConsentedBy, Current, MayAct, CanonicalUuid,
         Nonempty;
    match op
    case OpRequestCancellation(v, s, a, o, id, reason, at) => RequestExact(c, v, s, a, o, id, reason, at);
    case OpDecideCancellation(v, s, id, p, consent, at) => DecideExact(c, v, s, id, p, consent, at);
    case _ =>
  }
}
