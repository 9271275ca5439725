/** When a case is started, resubmitted or withdrawn, and the one case that follows. */
module CaseSubmissions {
  import opened Outcomes
  import opened Sequences
  import opened Text
  import opened SnapshotContent
  import opened SnapshotProperties
  import opened SettlementCase
  import opened CaseInvariants
  import opened CaseTheorems
  import opened CaseOutcomes

  // ---- revisions ----

  /** Well-formed references, an applicant, and one fresh identifier for every candidate. */
  ghost predicate Submittable(caseId: string, snapshotId: string, content: Content, a: Applicant, at: Clock,
                              ids: seq<string>)
  {
    && CanonicalUuid(caseId) && CanonicalUuid(snapshotId) && Nonempty(a.actorSubject) && Nonempty(a.participantId)
    && at.Some? && |ids| == |content.candidates| && (forall k | 0 <= k < |ids| :: CanonicalUuid(ids[k]))
    && forall j, k | 0 <= j < k < |ids| :: ids[j] != ids[k]
  }

  /** The revision a submission fixes: its candidates become instructions with the given identifiers, in order. */
  ghost predicate Submitted(r: Revision, caseId: string, snapshotId: string, content: Content, a: Applicant, at: int,
                            ids: seq<string>)
    requires |ids| == |content.candidates|
  {
    && r.caseId == caseId && r.snapshotId == snapshotId && r.content == content && r.applicant == a
    && r.submittedAt == at && |r.instructions| == |ids|
    && forall k | 0 <= k < |ids| ::
         && r.instructions[k].instructionId == ids[k]
         && r.instructions[k].payerParticipantId == content.candidates[k].payerParticipantId
         && r.instructions[k].payeeParticipantId == content.candidates[k].payeeParticipantId
         && r.instructions[k].amount == content.candidates[k].amount
  }

  lemma {:induction false} IdsAccepts(ids: seq<string>, i: nat)
    requires i <= |ids| && (forall k | 0 <= k < i :: CanonicalUuid(ids[k]))
    requires forall j, k | 0 <= j < k < i :: ids[j] != ids[k]
    ensures InstructionIdRejection(ids, i).Pass? <==>
            (forall k | 0 <= k < |ids| :: CanonicalUuid(ids[k])) && forall j, k | 0 <= j < k < |ids| :: ids[j] != ids[k]
    decreases |ids| - i
  {
    hide CanonicalUuid;
    if i < |ids| {
      if ids[i] in ids[..i] {
        var j :| 0 <= j < i && ids[j] == ids[i];
      } else if CanonicalUuid(ids[i]) {
        forall j | 0 <= j < i ensures ids[j] != ids[i] {
          assert ids[j] in ids[..i];
        }
        IdsAccepts(ids, i + 1);
      }
    }
  }

  lemma RevisionExact(caseId: string, snapshotId: string, content: Content, a: Applicant, at: Clock, ids: seq<string>,
                      ordinal: nat, previous: Option<string>)
    ensures CreateRevision(caseId, snapshotId, content, a, at, ids, ordinal, previous).Ok? <==>
            Submittable(caseId, snapshotId, content, a, at, ids)
    ensures CreateRevision(caseId, snapshotId, content, a, at, ids, ordinal, previous).Ok? ==>
            var r := CreateRevision(caseId, snapshotId, content, a, at, ids, ordinal, previous).value;
            && |ids| == |content.candidates| && at.Some?
            && Submitted(r, caseId, snapshotId, content, a, at.value, ids)
            && r.ordinal == ordinal && r.previousSnapshotId == previous
  {
    IdsAccepts(ids, 0);
    hide CanonicalUuid, Nonempty, InstructionIdRejection;
  }

  /** The applicant's own approval, when it is required. */
  ghost predicate OwnApproval(r: Revision, approvals: seq<Approval>) {
    approvals == if r.applicant.participantId in r.content.requiredApproverIds
                 then [Approval(r.snapshotId, r.applicant.participantId, Decision.Approved, r.submittedAt, None)]
                   else []
  }

  function SubmittedStatus(r: Revision): Status {
    if r.content.requiredApproverIds == [r.applicant.participantId] then Status.Archived else AwaitingApproval
  }

  /** The decisions that stand when a revision is submitted: nobody has judged it but, possibly, its applicant. */
  lemma FirstStatus(approvals: seq<Approval>, r: Revision)
    requires Genuine(r.content) && forall a | a in approvals :: a.snapshotId != r.snapshotId
    ensures DecidedStatus(approvals + SelfApproval(r), r, None) == SubmittedStatus(r)
  {
    hide *;
    ApproversDistinct(r.content);
    FirstDecision(r);
    OthersElsewhere(approvals, SelfApproval(r), r);
    if r.content.requiredApproverIds == [r.applicant.participantId] {
      SoleApproverIsEven(r.content);
    }
    StatusOf(approvals + SelfApproval(r), r);
    EvenIs(r);
    EvenSays(r);
  }

  lemma EvenSays(r: Revision)
    ensures NothingOwed(r) <==> forall x | x in r.content.balances :: x.amount == 0
  {
  }

  lemma StatusOf(approvals: seq<Approval>, r: Revision)
    ensures DecidedStatus(approvals, r, None) ==
            if AnyRejection(approvals, r.snapshotId) then RevisionRejected
            else if AllApproved(approvals, r) then if AllEven(r.content) then Status.Archived else PaymentActive
            else AwaitingApproval
    ensures SubmittedStatus(r) ==
            if r.content.requiredApproverIds == [r.applicant.participantId] then Status.Archived else AwaitingApproval
  {
    hide AnyRejection, AllApproved, AllEven;
  }

  lemma OthersElsewhere(approvals: seq<Approval>, own: seq<Approval>, r: Revision)
    requires forall a | a in approvals :: a.snapshotId != r.snapshotId
    ensures AnyRejection(approvals + own, r.snapshotId) <==> AnyRejection(own, r.snapshotId)
    ensures AllApproved(approvals + own, r) <==> AllApproved(own, r)
  {
    var all := approvals + own;
    assert forall i | 0 <= i < |approvals| :: all[i] == approvals[i] && approvals[i] in approvals;
    forall i | 0 <= i < |own| ensures all[i + |approvals|] == own[i] {
    }
    forall p, d ensures Judged(all, r.snapshotId, p, d) <==> Judged(own, r.snapshotId, p, d) {
      if i :| 0 <= i < |all| && all[i].snapshotId == r.snapshotId && all[i].participantId == p && all[i].decision == d {
        assert own[i - |approvals|] == all[i];
      }
      if i :| 0 <= i < |own| && own[i].snapshotId == r.snapshotId && own[i].participantId == p && own[i].decision == d {
        assert all[i + |approvals|] == own[i];
      }
    }
    if i :| 0 <= i < |all| && all[i].snapshotId == r.snapshotId && all[i].decision == Decision.Rejected {
      assert own[i - |approvals|] == all[i];
    }
  }

  // ---- starting ----

  ghost predicate StartedAs(s: Submission, c: Case)
    requires |s.instructionIds| == |s.content.candidates| && s.at.Some?
  {
    exists r, own ::
      && Submitted(r, s.caseId, s.snapshotId, s.content, s.applicant, s.at.value, s.instructionIds)
      && r.ordinal == 1 && r.previousSnapshotId == None && OwnApproval(r, own)
      && c == Case(s.caseId, [r], own, SubmittedStatus(r), 1, [], [], None,
                   if SubmittedStatus(r) == Status.Archived then s.at else None)
  }

  /** A case is started exactly from a well-formed submission, with its one revision and the applicant's approval. */
  lemma StartExact(s: Submission)
    requires Genuine(s.content)
    ensures Begin(s).Ok? <==>
            Submittable(s.caseId, s.snapshotId, s.content, s.applicant, s.at, s.instructionIds)
    ensures Begin(s).Ok? ==> |s.instructionIds| == |s.content.candidates| && s.at.Some? && StartedAs(s, Begin(s).value)
  {
    RevisionExact(s.caseId, s.snapshotId, s.content, s.applicant, s.at, s.instructionIds, 1, None);
    hide CreateRevision, Submittable, DecidedStatus, SubmittedStatus, Genuine;
    if Begin(s).Ok? {
      var r := CreateRevision(s.caseId, s.snapshotId, s.content, s.applicant, s.at, s.instructionIds, 1, None).value;
      FirstStatus([], r);
      assert [] + SelfApproval(r) == SelfApproval(r);
      assert OwnApproval(r, SelfApproval(r));
    }
  }

  // ---- resubmitting ----

  ghost predicate SameTargets(content: Content, first: Content) {
    && |content.expenses| == |first.expenses|
    && forall k | 0 <= k < |content.expenses| :: content.expenses[k].expenseId == first.expenses[k].expenseId
  }

  /** No snapshot and no instruction identifier was used by an earlier revision. */
  ghost predicate UnusedBefore(revisions: seq<Revision>, snapshotId: string, ids: seq<string>) {
    && (forall r | r in revisions :: r.snapshotId != snapshotId)
    && forall r, i | r in revisions && i in r.instructions :: i.instructionId !in ids
  }

  ghost predicate MayResubmit(c: Case, v: int, s: string, a: Applicant, o: string, n: string, content: Content,
                              at: Clock, ids: seq<string>)
    requires c.revisions != []
  {
    && c.status == RevisionRejected && Current(c, v, s) && MayAct(c, a, o)
    && Submittable(c.caseId, n, content, a, at, ids) && content.groupId == c.revisions[0].content.groupId
    && SameTargets(content, c.revisions[0].content) && UnusedBefore(c.revisions, n, ids)
  }

  ghost predicate ResubmittedAs(c: Case, n: string, content: Content, a: Applicant, at: int, ids: seq<string>, c': Case)
    requires c.revisions != [] && |ids| == |content.candidates|
  {
    exists r, own ::
      && Submitted(r, c.caseId, n, content, a, at, ids) && OwnApproval(r, own)
      && r.ordinal == |c.revisions| + 1 && r.previousSnapshotId == Some(c.revisions[|c.revisions| - 1].snapshotId)
      && c' == c.(revisions := c.revisions + [r], approvals := c.approvals + own, status := SubmittedStatus(r),
                  version := c.version + 1, archivedAt := if SubmittedStatus(r) == Status.Archived then Some(at)
                  else None)
  }

  lemma TargetsAre(r: Revision, first: Revision)
    ensures TargetIds(r) == TargetIds(first) <==> SameTargets(r.content, first.content)
  {
    forall k | 0 <= k < |r.content.expenses| ensures TargetIds(r)[k] == r.content.expenses[k].expenseId {
    }
    forall k | 0 <= k < |first.content.expenses| ensures TargetIds(first)[k] == first.content.expenses[k].expenseId {
    }
    if SameTargets(r.content, first.content) {
      assert TargetIds(r) == TargetIds(first);
    }
  }

  lemma UnusedIs(revisions: seq<Revision>, snapshotId: string, r: Revision, ids: seq<string>)
    requires |r.instructions| == |ids| && forall k | 0 <= k < |ids| :: r.instructions[k].instructionId == ids[k]
    ensures UnusedBefore(revisions, snapshotId, ids) <==>
            (forall k | 0 <= k < |revisions| :: revisions[k].snapshotId != snapshotId) &&
            forall i | 0 <= i < |r.instructions| :: !UsedInstruction(revisions, r.instructions[i].instructionId)
  {
    forall id ensures UsedInstruction(revisions, id) <==>
      exists r', i :: r' in revisions && i in r'.instructions && i.instructionId == id
    {
      if r', i :| r' in revisions && i in r'.instructions && i.instructionId == id {
        var k :| 0 <= k < |revisions| && revisions[k] == r';
        var j :| 0 <= j < |r'.instructions| && r'.instructions[j] == i;
        assert revisions[k].instructions[j].instructionId == id;
      }
      if UsedInstruction(revisions, id) {
        var k, i :| 0 <= k < |revisions| && 0 <= i < |revisions[k].instructions| &&
          revisions[k].instructions[i].instructionId == id;
        assert revisions[k] in revisions && revisions[k].instructions[i] in revisions[k].instructions;
      }
    }
    hide UsedInstruction;
    if UnusedBefore(revisions, snapshotId, ids) {
      forall i | 0 <= i < |r.instructions| ensures !UsedInstruction(revisions, r.instructions[i].instructionId) {
        assert ids[i] in ids;
      }
    }
    if forall i | 0 <= i < |r.instructions| :: !UsedInstruction(revisions, r.instructions[i].instructionId) {
      forall id | id in ids ensures !UsedInstruction(revisions, id) {
        var k :| 0 <= k < |ids| && ids[k] == id;
        assert r.instructions[k].instructionId == id;
      }
    }
  }

  lemma RejectedParts(c: Case)
    requires CaseSound(c) && (c.status == RevisionRejected || c.status == AwaitingApproval)
    ensures c.attempts == [] && c.cancellations == [] && c.withdrawal.None? && c.archivedAt.None?
    ensures c.caseId == Latest(c).caseId
  {
    LatestCaseId(c);
    hide RevisionsSound, ApprovalsSound, PaymentsSound, CancellationsSound, AllReceived, AllApproved, AllEven,
         AnyRejection;
  }

  /** Nobody has judged a snapshot no revision has. */
  lemma UnjudgedSnapshot(c: Case, snapshotId: string)
    requires CaseSound(c) && forall k | 0 <= k < |c.revisions| :: c.revisions[k].snapshotId != snapshotId
    ensures forall a | a in c.approvals :: a.snapshotId != snapshotId
  {
    hide RevisionsSound, PaymentsSound, CancellationsSound, StatusSound, DistinctBy;
    forall a | a in c.approvals ensures a.snapshotId != snapshotId {
      assert Asked(c.revisions, a);
    }
  }

  lemma ResubmitIs(c: Case, v: int, s: string, a: Applicant, o: string, n: string, content: Content, at: Clock,
                   ids: seq<string>)
    requires c.revisions != []
    ensures var created := CreateRevision(c.caseId, n, content, a, at, ids, |c.revisions| + 1,
                                          Some(Latest(c).snapshotId));
            Resubmit(c, v, s, a, o, n, content, at, ids).Ok? <==>
            && c.status == RevisionRejected && CurrentRevision(c, v, s).Pass? && CaseActor(c, a, o).Pass? && created.Ok?
            && content.groupId == c.revisions[0].content.groupId
            && TargetIds(created.value) == TargetIds(c.revisions[0])
            && (forall k | 0 <= k < |c.revisions| :: c.revisions[k].snapshotId != n)
            && forall i | 0 <= i < |created.value.instructions| ::
                 !UsedInstruction(c.revisions, created.value.instructions[i].instructionId)
  {
    hide CreateRevision, CaseActor, CurrentRevision, TargetIds, UsedInstruction, SelfApproval, WithDecisions;
  }

  lemma ResubmittedIs(c: Case, r: Revision, at: int)
    requires c.revisions != [] && r.caseId == c.caseId && r.submittedAt == at
    requires c.attempts == [] && c.cancellations == [] && c.withdrawal.None?
    requires DecidedStatus(c.approvals + SelfApproval(r), r, None) == SubmittedStatus(r)
    ensures WithDecisions(c.revisions + [r], c.approvals + SelfApproval(r), c.version + 1, at, None) ==
            c.(revisions := c.revisions + [r], approvals := c.approvals + SelfApproval(r), status := SubmittedStatus(r),
               version := c.version + 1, archivedAt := if SubmittedStatus(r) == Status.Archived then Some(at) else None)
  {
    hide DecidedStatus, SubmittedStatus, SelfApproval;
  }

  /**
   * A rejected case is resubmitted exactly by its applicant's subject or the owner, for the same expenses and with
   * identifiers no revision has used.
   */
  lemma ResubmitExact(c: Case, v: int, s: string, a: Applicant, o: string, n: string, content: Content, at: Clock,
                      ids: seq<string>)
    requires CaseSound(c) && Genuine(content)
    ensures c.revisions != []
    ensures Resubmit(c, v, s, a, o, n, content, at, ids).Ok? <==> MayResubmit(c, v, s, a, o, n, content, at, ids)
    ensures Resubmit(c, v, s, a, o, n, content, at, ids).Ok? ==>
            |ids| == |content.candidates| && at.Some? &&
            ResubmittedAs(c, n, content, a, at.value, ids, Resubmit(c, v, s, a, o, n, content, at, ids).value)
  {
    hide *;
    SoundParts(c);
    CurrentChecks(c, v, s);
    ActorChecks(c, a, o);
    ResubmitIs(c, v, s, a, o, n, content, at, ids);
    var previous := Some(Latest(c).snapshotId);
    RevisionExact(c.caseId, n, content, a, at, ids, |c.revisions| + 1, previous);
    MayResubmitSays(c, v, s, a, o, n, content, at, ids);
    var created := CreateRevision(c.caseId, n, content, a, at, ids, |c.revisions| + 1, previous);
    if created.Ok? {
      var r := created.value;
      SubmittedParts(r, c.caseId, n, content, a, at.value, ids);
      TargetsAre(r, c.revisions[0]);
      UnusedIs(c.revisions, n, r, ids);
      if Resubmit(c, v, s, a, o, n, content, at, ids).Ok? {
        ResubmitAccepts(c, v, s, a, o, n, content, at, ids);
        RejectedParts(c);
        UnjudgedSnapshot(c, n);
        FirstStatus(c.approvals, r);
        ResubmittedIs(c, r, at.value);
        ResubmittedSays(c, n, content, a, at.value, ids, r);
      }
    }
  }

  lemma SubmittedParts(r: Revision, caseId: string, n: string, content: Content, a: Applicant, at: int,
                       ids: seq<string>)
    requires |ids| == |content.candidates| && Submitted(r, caseId, n, content, a, at, ids)
    ensures r.caseId == caseId && r.snapshotId == n && r.content == content && r.submittedAt == at
    ensures |r.instructions| == |ids| && forall k | 0 <= k < |ids| :: r.instructions[k].instructionId == ids[k]
  {
  }

  lemma MayResubmitSays(c: Case, v: int, s: string, a: Applicant, o: string, n: string, content: Content,
                        at: Clock, ids: seq<string>)
    requires c.revisions != []
    ensures MayResubmit(c, v, s, a, o, n, content, at, ids) <==>
            c.status == RevisionRejected && Current(c, v, s) && MayAct(c, a, o) &&
            Submittable(c.caseId, n, content, a, at, ids) && content.groupId == c.revisions[0].content.groupId &&
            SameTargets(content, c.revisions[0].content) && UnusedBefore(c.revisions, n, ids)
  {
    hide Current, MayAct, Submittable, SameTargets, UnusedBefore;
  }

  lemma ResubmittedSays(c: Case, n: string, content: Content, a: Applicant, at: int, ids: seq<string>, r: Revision)
    requires c.revisions != [] && |ids| == |content.candidates| && Submitted(r, c.caseId, n, content, a, at, ids)
    requires r.ordinal == |c.revisions| + 1 && r.previousSnapshotId == Some(Latest(c).snapshotId)
    ensures ResubmittedAs(c, n, content, a, at, ids,
                          c.(revisions := c.revisions + [r], approvals := c.approvals + SelfApproval(r),
                             status := SubmittedStatus(r), version := c.version + 1,
                             archivedAt := if SubmittedStatus(r) == Status.Archived then Some(at) else None))
  {
    hide Submitted, SubmittedStatus;
    assert OwnApproval(r, SelfApproval(r));
  }

  // ---- withdrawing ----

  /** A case that is not decided yet is withdrawn exactly by its applicant's subject or the owner, with a reason. */
  lemma WithdrawExact(c: Case, v: int, s: string, a: Applicant, o: string, reason: string, at: Clock)
    requires CaseSound(c)
    ensures c.revisions != []
    ensures Withdraw(c, v, s, a, o, reason, at).Ok? <==>
            (c.status == AwaitingApproval || c.status == RevisionRejected) && Current(c, v, s) && MayAct(c, a, o) &&
            Nonempty(reason) && at.Some?
    ensures Withdraw(c, v, s, a, o, reason, at).Ok? ==>
            Withdraw(c, v, s, a, o, reason, at).value ==
            c.(status := Withdrawn, version := c.version + 1,
               withdrawal := Some(Withdrawal(c.revisions[|c.revisions| - 1].snapshotId, a, reason, at.value)))
  {
    hide *;
    SoundParts(c);
    CurrentChecks(c, v, s);
    ActorChecks(c, a, o);
    WithdrawAccepts(c, v, s, a, o, reason, at);
    if Withdraw(c, v, s, a, o, reason, at).Ok? {
      RejectedParts(c);
      WithdrawnBecomes(c, v, s, a, o, reason, at);
    }
  }

  lemma WithdrawAccepts(c: Case, v: int, s: string, a: Applicant, o: string, reason: string, at: Clock)
    requires c.revisions != []
    ensures Withdraw(c, v, s, a, o, reason, at).Ok? <==>
            (c.status == AwaitingApproval || c.status == RevisionRejected) && CurrentRevision(c, v, s).Pass? &&
            CaseActor(c, a, o).Pass? && Nonempty(reason) && at.Some?
  {
    hide CurrentRevision, CaseActor, Nonempty, WithDecisions;
  }

  lemma WithdrawnBecomes(c: Case, v: int, s: string, a: Applicant, o: string, reason: string, at: Clock)
    requires c.revisions != [] && Withdraw(c, v, s, a, o, reason, at).Ok? && c.caseId == Latest(c).caseId
    requires c.attempts == [] && c.cancellations == [] && c.archivedAt.None?
    ensures at.Some?
    ensures Withdraw(c, v, s, a, o, reason, at).value ==
            c.(status := Withdrawn, version := c.version + 1,
               withdrawal := Some(Withdrawal(c.revisions[|c.revisions| - 1].snapshotId, a, reason, at.value)))
  {
    hide CurrentRevision, CaseActor, Nonempty, AnyRejection, AllApproved, AllEven;
  }
}
