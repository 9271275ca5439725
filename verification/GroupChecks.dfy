/** The looping checks of the source, each against the rule it implements. */
module GroupChecks {
  import opened Outcomes
  import opened Sequences
  import opened Text
  import opened GroupRoot
  import opened GroupRuns
  import opened CommandSystem

  function PeopleIds(ps: seq<Participant>): set<string> {
    set p | p in ps :: p.id
  }

  function ActiveSubjects(ps: seq<Participant>): set<string> {
    set p | p in ps && p.active :: p.subject
  }

  function Orders(ps: seq<Participant>): set<int> {
    set p | p in ps :: p.joinOrder
  }

  /** What the three sets of the loop know about the participants seen so far. */
  lemma SeenSets(ps: seq<Participant>, p: Participant)
    ensures FindParticipant(ps, p.id).Some? <==> p.id in PeopleIds(ps)
    ensures ActiveSubject(ps, p.subject) <==> p.subject in ActiveSubjects(ps)
    ensures (exists q :: q in ps && q.joinOrder == p.joinOrder) <==> p.joinOrder in Orders(ps)
  {
    if FindParticipant(ps, p.id).Some? {
      assert FindParticipant(ps, p.id).value in ps;
    }
  }

  /** Participants that meet every rule pass the check from any place on. */
  lemma {:induction false} SoundParticipantsPass(ps: seq<Participant>, k: nat)
    requires k <= |ps| && ParticipantsSound(ps)
    ensures ParticipantsCheck(ps, k).Pass?
    decreases |ps| - k
  {
    if k < |ps| {
      SoundParticipantPasses(ps, k);
      SoundParticipantsPass(ps, k + 1);
    }
  }

  lemma SoundParticipantPasses(ps: seq<Participant>, k: nat)
    requires k < |ps| && ParticipantsSound(ps)
    ensures ParticipantsCheck(ps, k) == ParticipantsCheck(ps, k + 1)
  {
    assert ps[k] in ps;
    forall q | q in ps[..k]
      ensures q.id != ps[k].id && q.joinOrder != ps[k].joinOrder &&
              (q.active && ps[k].active ==> q.subject != ps[k].subject) {
      var j :| 0 <= j < k && ps[j] == q;
      assert ParticipantIdOf(ps[j]) != ParticipantIdOf(ps[k]) && JoinOrderOf(ps[j]) != JoinOrderOf(ps[k]);
    }
    assert FindParticipant(ps[..k], ps[k].id).None? && (ps[k].active ==> !ActiveSubject(ps[..k], ps[k].subject));
    hide ParticipantsSound, DistinctBy, FindParticipant, ActiveSubject;
  }

  method AssertParticipants(ps: seq<Participant>) returns (check: Check<GroupError>)
    ensures check == ParticipantsCheck(ps, 0)
    ensures check.Pass? <==> ParticipantsSound(ps)
  {
    ParticipantsMean(ps);
    hide ParticipantsSound, FindParticipant, ActiveSubject, PeopleIds, ActiveSubjects, Orders;
    var participantIds, activeSubjects, joinOrders := {}, {}, {};
    NobodySeen(ps);
    for k := 0 to |ps|
      invariant participantIds == PeopleIds(ps[..k]) && activeSubjects == ActiveSubjects(ps[..k]) &&
                joinOrders == Orders(ps[..k])
      invariant ParticipantsCheck(ps, 0) == ParticipantsCheck(ps, k)
    {
      var p := ps[k];
      SeenSets(ps[..k], p);
      OneMoreSeen(ps, k);
      if p.id in participantIds {
        return Fail(ParticipantDuplicated);
      }
      participantIds := participantIds + {p.id};
      if p.active && p.subject in activeSubjects {
        return Fail(ActiveSubjectDuplicated);
      }
      if p.active {
        activeSubjects := activeSubjects + {p.subject};
      }
      if !SafeInteger(p.joinOrder) || p.joinOrder < 1 {
        return Fail(JoinOrderInvalid);
      }
      if p.joinOrder in joinOrders {
        return Fail(JoinOrderDuplicated);
      }
      joinOrders := joinOrders + {p.joinOrder};
      if p.active && p.leftAt.Some? {
        return Fail(LeftAtNotAllowed);
      }
      if !p.active {
        if p.leftAt.None? {
          return Fail(LeftAtRequired);
        }
        if p.leftAt.value < p.joinedAt {
          return Fail(LeftAtBeforeJoinedAt);
        }
      }
    }
    check := Pass;
  }

  /** What passing the participant check says, without the loop. */
  lemma ParticipantsMean(ps: seq<Participant>)
    ensures ParticipantsCheck(ps, 0).Pass? <==> ParticipantsSound(ps)
  {
    assert ParticipantsSound(ps[..0]);
    hide ParticipantsSound, ParticipantsCheck;
    if ParticipantsCheck(ps, 0).Pass? {
      ParticipantsPass(ps, 0);
    }
    if ParticipantsSound(ps) {
      SoundParticipantsPass(ps, 0);
    }
  }

  lemma NobodySeen(ps: seq<Participant>)
    ensures PeopleIds(ps[..0]) == {} && ActiveSubjects(ps[..0]) == {} && Orders(ps[..0]) == {}
  {
  }

  lemma OneMoreSeen(ps: seq<Participant>, k: nat)
    requires k < |ps|
    ensures PeopleIds(ps[..k + 1]) == PeopleIds(ps[..k]) + {ps[k].id}
    ensures ActiveSubjects(ps[..k + 1]) == ActiveSubjects(ps[..k]) + (if ps[k].active then {ps[k].subject} else {})
    ensures Orders(ps[..k + 1]) == Orders(ps[..k]) + {ps[k].joinOrder}
  {
    assert ps[..k + 1] == ps[..k] + [ps[k]];
  }

  function InvitationIds(invitations: seq<Invitation>): set<string> {
    set i | i in invitations :: i.id
  }

  lemma SeenInvitations(invitations: seq<Invitation>, id: string)
    ensures FindInvitation(invitations, id).Some? <==> id in InvitationIds(invitations)
  {
  }

  /** An invitation in force for a week, issued by someone who was a participant then. */
  predicate Issued(i: Invitation, ps: seq<Participant>) {
    && i.expiryAt == i.createdAt + WEEK
    && exists p :: p in ps && p.id == i.issuerParticipantId && p.joinedAt <= i.createdAt &&
         (p.leftAt.Some? ==> i.createdAt < p.leftAt.value)
  }

  /** Consumed exactly when it names a participant, who then is the invited one and joined while it was in force. */
  predicate Resulted(i: Invitation, ps: seq<Participant>) {
    && (i.status == Consumed <==> i.resultingParticipantId.Some?)
    && (i.resultingParticipantId.Some? ==>
          exists p :: p in ps && Some(p.id) == i.resultingParticipantId && p.subject == i.targetSubject &&
            i.createdAt <= p.joinedAt < i.expiryAt)
  }

  ghost predicate InvitationsHold(invitations: seq<Invitation>, ps: seq<Participant>) {
    && DistinctBy(invitations, InvitationIdOf)
    && forall i | i in invitations :: Issued(i, ps) && Resulted(i, ps)
  }

  lemma MemberOnce(ps: seq<Participant>, p: Participant)
    requires DistinctBy(ps, ParticipantIdOf) && p in ps
    ensures FindParticipant(ps, p.id) == Some(p)
  {
    var q := FindParticipant(ps, p.id).value;
    SameParticipant(ps, p, q);
  }

  lemma InvitationMeans(i: Invitation, earlier: seq<Invitation>, ps: seq<Participant>)
    requires DistinctBy(ps, ParticipantIdOf)
    ensures InvitationCheck(i, earlier, ps).Pass? <==>
            i.id !in InvitationIds(earlier) && Issued(i, ps) && Resulted(i, ps)
  {
    SeenInvitations(earlier, i.id);
    forall p | p in ps ensures FindParticipant(ps, p.id) == Some(p) {
      MemberOnce(ps, p);
    }
  }

  /** What passing the invitation check says, in terms of the participants alone. */
  lemma {:induction false} InvitationsMean(invitations: seq<Invitation>, ps: seq<Participant>, k: nat)
    requires k <= |invitations| && DistinctBy(ps, ParticipantIdOf) && InvitationsHold(invitations[..k], ps)
    ensures InvitationsCheck(invitations, ps, k).Pass? <==> InvitationsHold(invitations, ps)
    decreases |invitations| - k
  {
    if k == |invitations| {
      assert invitations[..k] == invitations;
    } else {
      var i := invitations[k];
      assert invitations[..k + 1] == invitations[..k] + [i];
      InvitationMeans(i, invitations[..k], ps);
      DistinctSnoc(invitations[..k], i, InvitationIdOf);
      hide InvitationCheck, Issued, Resulted;
      assert i.id in InvitationIds(invitations[..k]) <==> exists j :: j in invitations[..k] && j.id == i.id;
      if InvitationsHold(invitations, ps) {
        assert i in invitations;
        InvitationsHoldBefore(invitations, ps, k);
      }
      if InvitationsHold(invitations[..k + 1], ps) {
        InvitationsMean(invitations, ps, k + 1);
      }
    }
  }

  lemma InvitationsHoldBefore(invitations: seq<Invitation>, ps: seq<Participant>, k: nat)
    requires k < |invitations| && InvitationsHold(invitations, ps)
    ensures InvitationsHold(invitations[..k + 1], ps)
  {
    hide Issued, Resulted;
  }

  lemma NothingSeen(invitations: seq<Invitation>)
    ensures InvitationIds(invitations[..0]) == {}
  {
  }

  lemma OneMoreInvitation(invitations: seq<Invitation>, k: nat)
    requires k < |invitations|
    ensures InvitationIds(invitations[..k + 1]) == InvitationIds(invitations[..k]) + {invitations[k].id}
  {
    assert invitations[..k + 1] == invitations[..k] + [invitations[k]];
  }

  method AssertInvitations(invitations: seq<Invitation>, ps: seq<Participant>) returns (check: Check<GroupError>)
    ensures check == InvitationsCheck(invitations, ps, 0)
    ensures DistinctBy(ps, ParticipantIdOf) ==> (check.Pass? <==> InvitationsHold(invitations, ps))
  {
    if DistinctBy(ps, ParticipantIdOf) {
      InvitationsMean(invitations, ps, 0);
    }
    hide InvitationsHold, FindParticipant, FindInvitation, InvitationIds;
    var invitationIds := {};
    NothingSeen(invitations);
    for k := 0 to |invitations|
      invariant invitationIds == InvitationIds(invitations[..k])
      invariant InvitationsCheck(invitations, ps, 0) == InvitationsCheck(invitations, ps, k)
    {
      var i := invitations[k];
      SeenInvitations(invitations[..k], i.id);
      OneMoreInvitation(invitations, k);
      if i.id in invitationIds {
        return Fail(InvitationDuplicated);
      }
      invitationIds := invitationIds + {i.id};
      if i.expiryAt != i.createdAt + WEEK {
        return Fail(InvitationExpiryInvalid);
      }
      var issuer := FindParticipant(ps, i.issuerParticipantId);
      var issuerWasActiveAtCreation :=
        issuer.Some? && i.createdAt >= issuer.value.joinedAt &&
        (issuer.value.leftAt.None? || i.createdAt < issuer.value.leftAt.value);
      if !issuerWasActiveAtCreation {
        return Fail(InvitationIssuerNotFound);
      }
      var hasResult := i.resultingParticipantId.Some?;
      if (i.status == Consumed) != hasResult {
        return Fail(InvitationResultInvalid);
      }
      if hasResult {
        var joined := FindParticipant(ps, i.resultingParticipantId.value);
        if joined.None? || joined.value.subject != i.targetSubject ||
           joined.value.joinedAt < i.createdAt || joined.value.joinedAt >= i.expiryAt {
          return Fail(InvitationResultInvalid);
        }
      }
    }
    check := Pass;
  }

  function FenceContexts(receipts: seq<FenceReceipt>): set<Context> {
    set f | f in receipts :: f.fence.context
  }

  function UnfenceContexts(receipts: seq<Fence>): set<Context> {
    set f | f in receipts :: f.context
  }

  lemma SeenContexts(receipts: seq<FenceReceipt>, unfences: seq<Fence>, context: Context)
    ensures FindFence(receipts, context).Some? <==> context in FenceContexts(receipts)
    ensures FindUnfence(unfences, context).Some? <==> context in UnfenceContexts(unfences)
  {
  }

  function FenceContextOf(r: FenceReceipt): Context { r.fence.context }
  function UnfenceContextOf(f: Fence): Context { f.context }

  predicate FenceHolds(r: FenceReceipt, groupId: string, closing: ClosingState) {
    FenceShaped(r.fence) && FenceFits(r.fence, groupId, closing)
  }

  /** The unfence receipt is bound to the intent and answers the fence that was installed for its context. */
  predicate UnfenceHolds(f: Fence, groupId: string, closing: ClosingState) {
    && FenceShaped(f) && FenceFits(f, groupId, closing)
    && exists r ::
       r in closing.fenceReceipts && r.fence.context == f.context && r.fence.fenceVersion == f.fenceVersion &&
         r.fence.completedAt <= f.completedAt
  }

  ghost predicate FencesHold(groupId: string, closing: ClosingState, k: nat)
    requires k <= |closing.fenceReceipts|
  {
    && DistinctBy(closing.fenceReceipts[..k], FenceContextOf)
    && forall r | r in closing.fenceReceipts[..k] :: FenceHolds(r, groupId, closing)
  }

  ghost predicate UnfencesHold(groupId: string, closing: ClosingState, k: nat)
    requires k <= |closing.unfenceReceipts|
  {
    && DistinctBy(closing.unfenceReceipts[..k], UnfenceContextOf)
    && forall f | f in closing.unfenceReceipts[..k] :: UnfenceHolds(f, groupId, closing)
  }

  /** At most one fence and one unfence receipt a context, all of this closing, and unfencing only while cancelling. */
  ghost predicate ClosingHolds(groupId: string, closing: ClosingState) {
    && FencesHold(groupId, closing, |closing.fenceReceipts|) &&
       UnfencesHold(groupId, closing, |closing.unfenceReceipts|)
    && (closing.phase == Fencing ==> closing.unfenceReceipts == [])
  }

  lemma {:induction false} FencesMean(groupId: string, closing: ClosingState, k: nat)
    requires k <= |closing.fenceReceipts| && FencesHold(groupId, closing, k)
    ensures FencesCheck(groupId, closing, k).Pass? <==> FencesHold(groupId, closing, |closing.fenceReceipts|)
    decreases |closing.fenceReceipts| - k
  {
    var n := |closing.fenceReceipts|;
    if k < n {
      hide *;
      FenceStep(groupId, closing, k);
      FencesEarlier(groupId, closing, k + 1, n);
      if FencesHold(groupId, closing, k + 1) {
        FencesMean(groupId, closing, k + 1);
      }
    }
  }

  lemma FencesEarlier(groupId: string, closing: ClosingState, k: nat, n: nat)
    requires k <= n <= |closing.fenceReceipts|
    ensures FencesHold(groupId, closing, n) ==> FencesHold(groupId, closing, k)
  {
    hide FenceHolds;
    assert forall r | r in closing.fenceReceipts[..k] :: r in closing.fenceReceipts[..n];
  }

  lemma FenceStep(groupId: string, closing: ClosingState, k: nat)
    requires k < |closing.fenceReceipts| && FencesHold(groupId, closing, k)
    ensures FencesCheck(groupId, closing, k).Pass? <==>
            FencesHold(groupId, closing, k + 1) && FencesCheck(groupId, closing, k + 1).Pass?
  {
    FenceAdded(groupId, closing, k);
    hide FencesHold, FindFence, FenceShaped, FenceFits;
  }

  lemma FenceAdded(groupId: string, closing: ClosingState, k: nat)
    requires k < |closing.fenceReceipts| && FencesHold(groupId, closing, k)
    ensures var r := closing.fenceReceipts[k];
            FencesHold(groupId, closing, k + 1) <==>
            FenceHolds(r, groupId, closing) && FindFence(closing.fenceReceipts[..k], r.fence.context).None?
  {
    var r := closing.fenceReceipts[k];
    assert closing.fenceReceipts[..k + 1] == closing.fenceReceipts[..k] + [r];
    DistinctSnoc(closing.fenceReceipts[..k], r, FenceContextOf);
    hide FenceHolds, FindFence, DistinctBy;
    assert FindFence(closing.fenceReceipts[..k], r.fence.context).None? <==>
           forall x | x in closing.fenceReceipts[..k] :: FenceContextOf(x) != FenceContextOf(r);
  }

  lemma AnswersMeans(f: Fence, groupId: string, closing: ClosingState)
    requires FencesHold(groupId, closing, |closing.fenceReceipts|)
    ensures UnfenceHolds(f, groupId, closing) <==>
            FenceShaped(f) && FenceFits(f, groupId, closing) && Answers(f, FindFence(closing.fenceReceipts, f.context))
  {
    var receipts := closing.fenceReceipts;
    assert receipts[..|receipts|] == receipts;
    DistinctByCounts(receipts, FenceContextOf);
    hide FenceShaped, FenceFits;
    forall r | r in receipts && r.fence.context == f.context ensures FindFence(receipts, f.context) == Some(r) {
      var q := FindFence(receipts, f.context).value;
      assert FenceContextOf(q) == FenceContextOf(r);
    }
  }

  lemma {:induction false} UnfencesMean(groupId: string, closing: ClosingState, k: nat)
    requires k <= |closing.unfenceReceipts| && UnfencesHold(groupId, closing, k)
    requires FencesHold(groupId, closing, |closing.fenceReceipts|)
    ensures UnfencesCheck(groupId, closing, k).Pass? <==> UnfencesHold(groupId, closing, |closing.unfenceReceipts|)
    decreases |closing.unfenceReceipts| - k
  {
    var n := |closing.unfenceReceipts|;
    if k < n {
      hide *;
      UnfenceStep(groupId, closing, k);
      UnfencesEarlier(groupId, closing, k + 1, n);
      if UnfencesHold(groupId, closing, k + 1) {
        UnfencesMean(groupId, closing, k + 1);
      }
    }
  }

  lemma UnfencesEarlier(groupId: string, closing: ClosingState, k: nat, n: nat)
    requires k <= n <= |closing.unfenceReceipts|
    ensures UnfencesHold(groupId, closing, n) ==> UnfencesHold(groupId, closing, k)
  {
    hide UnfenceHolds;
    assert forall f | f in closing.unfenceReceipts[..k] :: f in closing.unfenceReceipts[..n];
  }

  /** The check goes on exactly when one more receipt holds. */
  lemma UnfenceStep(groupId: string, closing: ClosingState, k: nat)
    requires k < |closing.unfenceReceipts| && UnfencesHold(groupId, closing, k)
    requires FencesHold(groupId, closing, |closing.fenceReceipts|)
    ensures UnfencesCheck(groupId, closing, k).Pass? <==>
            UnfencesHold(groupId, closing, k + 1) && UnfencesCheck(groupId, closing, k + 1).Pass?
  {
    var f := closing.unfenceReceipts[k];
    AnswersMeans(f, groupId, closing);
    UnfenceAdded(groupId, closing, k);
    hide FencesHold, UnfencesHold, UnfenceHolds, FindFence, FindUnfence, FenceShaped, FenceFits, Answers;
  }

  lemma UnfenceAdded(groupId: string, closing: ClosingState, k: nat)
    requires k < |closing.unfenceReceipts| && UnfencesHold(groupId, closing, k)
    ensures var f := closing.unfenceReceipts[k];
            UnfencesHold(groupId, closing, k + 1) <==>
            UnfenceHolds(f, groupId, closing) && FindUnfence(closing.unfenceReceipts[..k], f.context).None?
  {
    var f := closing.unfenceReceipts[k];
    assert closing.unfenceReceipts[..k + 1] == closing.unfenceReceipts[..k] + [f];
    DistinctSnoc(closing.unfenceReceipts[..k], f, UnfenceContextOf);
    hide UnfenceHolds, FindUnfence, DistinctBy;
    assert FindUnfence(closing.unfenceReceipts[..k], f.context).None? <==>
           forall x | x in closing.unfenceReceipts[..k] :: UnfenceContextOf(x) != UnfenceContextOf(f);
  }

  /** What passing the closing checks says, without the loops. */
  lemma ClosingMeans(groupId: string, closing: ClosingState)
    ensures ClosingCheck(groupId, closing).Pass? <==> ClosingHolds(groupId, closing)
  {
    assert FencesHold(groupId, closing, 0) && UnfencesHold(groupId, closing, 0);
    FencesMean(groupId, closing, 0);
    if FencesHold(groupId, closing, |closing.fenceReceipts|) {
      UnfencesMean(groupId, closing, 0);
    }
  }

  method AssertFences(groupId: string, closing: ClosingState) returns (check: Check<GroupError>)
    ensures check == FencesCheck(groupId, closing, 0)
  {
    var seen := {};
    for k := 0 to |closing.fenceReceipts|
      invariant seen == FenceContexts(closing.fenceReceipts[..k])
      invariant FencesCheck(groupId, closing, 0) == FencesCheck(groupId, closing, k)
    {
      var f := closing.fenceReceipts[k].fence;
      SeenContexts(closing.fenceReceipts[..k], [], f.context);
      assert closing.fenceReceipts[..k + 1] == closing.fenceReceipts[..k] + [closing.fenceReceipts[k]];
      if !FenceShaped(f) || !FenceFits(f, groupId, closing) {
        return Fail(CloseReceiptMismatch);
      }
      if f.context in seen {
        return Fail(CloseReceiptDuplicated);
      }
      seen := seen + {f.context};
    }
    check := Pass;
  }

  method AssertUnfences(groupId: string, closing: ClosingState) returns (check: Check<GroupError>)
    ensures check == UnfencesCheck(groupId, closing, 0)
  {
    hide Answers, FenceShaped, FenceFits;
    var seen := {};
    for k := 0 to |closing.unfenceReceipts|
      invariant seen == UnfenceContexts(closing.unfenceReceipts[..k])
      invariant UnfencesCheck(groupId, closing, 0) == UnfencesCheck(groupId, closing, k)
    {
      var f := closing.unfenceReceipts[k];
      SeenContexts([], closing.unfenceReceipts[..k], f.context);
      assert closing.unfenceReceipts[..k + 1] == closing.unfenceReceipts[..k] + [f];
      var installed := FindFence(closing.fenceReceipts, f.context);
      if !FenceShaped(f) || !FenceFits(f, groupId, closing) || !Answers(f, installed) {
        return Fail(CloseReceiptMismatch);
      }
      if f.context in seen {
        return Fail(CloseReceiptDuplicated);
      }
      seen := seen + {f.context};
    }
    check := Pass;
  }

  method AssertClosing(groupId: string, closing: ClosingState) returns (check: Check<GroupError>)
    ensures check == ClosingCheck(groupId, closing)
    ensures check.Pass? <==> ClosingHolds(groupId, closing)
  {
    ClosingMeans(groupId, closing);
    hide ClosingHolds, FencesCheck, UnfencesCheck;
    check := AssertFences(groupId, closing);
    if check.Pass? {
      check := AssertUnfences(groupId, closing);
    }
    if check.Pass? && closing.phase == Fencing && |closing.unfenceReceipts| > 0 {
      check := Fail(CloseStateInvalid);
    }
  }

  /** The coordinator's map from context to receipt; a later receipt replaces an earlier one. */
  method ReceiptMap(receipts: seq<FenceReceipt>) returns (byContext: map<Context, FenceReceipt>)
    ensures forall c: Context :: c in byContext <==> ReceiptFor(receipts, c).Some?
    ensures forall c: Context | c in byContext :: Some(byContext[c]) == ReceiptFor(receipts, c)
  {
    byContext := map[];
    for k := 0 to |receipts|
      invariant forall c: Context :: c in byContext <==> ReceiptFor(receipts[..k], c).Some?
      invariant forall c: Context | c in byContext :: Some(byContext[c]) == ReceiptFor(receipts[..k], c)
    {
      var all := receipts[..k + 1];
      assert all[..|all| - 1] == receipts[..k];
      byContext := byContext[receipts[k].fence.context := receipts[k]];
    }
    assert receipts[..|receipts|] == receipts;
  }

  /**
   * The coordinator goes on exactly when both contexts' receipts name the reserved group and intent under one cutoff.
   */
  method ValidateFenceReceipts(receipts: seq<FenceReceipt>, command: Command) returns (ok: bool)
    requires command.CmdReserve?
    ensures ok == ReceiptsValid(receipts, command)
  {
    var byContext := ReceiptMap(receipts);
    if ExpenseRecording !in byContext || Settlement !in byContext {
      return false;
    }
    var e, s := byContext[ExpenseRecording].fence, byContext[Settlement].fence;
    assert Some(byContext[ExpenseRecording]) == ReceiptFor(receipts, ExpenseRecording);
    assert Some(byContext[Settlement]) == ReceiptFor(receipts, Settlement);
    if e.cutoff != s.cutoff {
      return false;
    }
    ok := e.groupId == command.groupId && e.closeIntentId == command.closeIntentId &&
          s.groupId == command.groupId && s.closeIntentId == command.closeIntentId;
  }
}
