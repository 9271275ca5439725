/** A group: membership, invitations, and the closing phases with their fence receipts. */
module GroupRoot {
  import opened Outcomes
  import opened Sequences
  import opened Text

  datatype GroupStatus = Active | Closing | Archived

  datatype Participant = Participant(
    id: string, subject: string, joinedAt: int, joinOrder: int, active: bool, leftAt: Option<int>)

  datatype InvitationStatus = Pending | Consumed | Cancelled | Expired

  datatype Invitation = Invitation(
    id: string, targetSubject: string, issuerParticipantId: string, createdAt: int, expiryAt: int,
    status: InvitationStatus, resultingParticipantId: Option<string>)

  datatype Context = ExpenseRecording | Settlement

  /** The common part of a receipt about a fence. */
  datatype Fence = Fence(
    groupId: string, closeIntentId: string, context: Context, cutoff: int, fenceVersion: int, completedAt: int)

  datatype FenceReceipt = FenceReceipt(fence: Fence, eligible: bool)

  datatype ClosePhase = Fencing | Canceling

  datatype ClosingState = ClosingState(
    closeIntentId: string, cutoff: int, phase: ClosePhase, fenceReceipts: seq<FenceReceipt>,
    unfenceReceipts: seq<Fence>)

  datatype Group = Group(
    id: string, status: GroupStatus, ownerParticipantId: Option<string>, participants: seq<Participant>,
    invitations: seq<Invitation>, accessPolicyVersion: int, closing: Option<ClosingState>,
    ownerAtArchive: Option<string>, archivedAt: Option<int>, deleteEligibleAt: Option<int>)

  datatype GroupError =
    | AccessPolicyVersionInvalid | ActiveParticipantCountOutOfRange | OwnerMissing | OwnerMembershipMismatch
    | OwnerDuplicated | OwnerNotActive | CloseStateInvalid | ArchiveStateInvalid | ParticipantDuplicated
    | ActiveSubjectDuplicated | JoinOrderInvalid | JoinOrderDuplicated | LeftAtNotAllowed | LeftAtRequired
    | LeftAtBeforeJoinedAt | InvitationDuplicated | InvitationExpiryInvalid | InvitationIssuerNotFound
    | InvitationResultInvalid | CloseReceiptMismatch | CloseReceiptDuplicated | GroupNotActive | NotCurrentOwner
    | TargetParticipantNotActive | ActorParticipantMismatch | AlreadyLeft | OwnerMustTransferOrEnd
    | GroupCapacityReached | InvitationNotFound | InvitationActionBeforeCreated | InvitationExpired
    | InvitationNotPending | InvitationTargetMismatch | CloseIntentMismatch | CloseReceiptMissing | CloseNotEligible

  const WEEK: int := 7 * 24 * 60 * 60 * 1000

  /** The retention boundary of an archive instant; its calendar arithmetic is not part of this model. */
  ghost function DeleteEligibleAt(archivedAt: int): int {
    var boundary: int :| boundary > archivedAt;
    boundary
  }

  // ---- lookups ----

  function HasId(id: string): Participant -> bool {
    (p: Participant) => p.id == id
  }

  function FindParticipant(ps: seq<Participant>, id: string): (r: Option<Participant>)
    ensures r.Some? ==> r.value in ps && r.value.id == id
    ensures r.None? ==> forall p | p in ps :: p.id != id
  {
    Find(ps, HasId(id))
  }

  function InvitationNamed(id: string): Invitation -> bool {
    (x: Invitation) => x.id == id
  }

  function FindInvitation(invitations: seq<Invitation>, id: string): (r: Option<Invitation>)
    ensures r.Some? ==> r.value in invitations && r.value.id == id
    ensures r.None? ==> forall i | i in invitations :: i.id != id
  {
    Find(invitations, InvitationNamed(id))
  }

  function FenceOf(context: Context): FenceReceipt -> bool {
    (x: FenceReceipt) => x.fence.context == context
  }

  function FindFence(receipts: seq<FenceReceipt>, context: Context): (r: Option<FenceReceipt>)
    ensures r.Some? ==> r.value in receipts && r.value.fence.context == context
    ensures r.None? ==> forall f | f in receipts :: f.fence.context != context
  {
    Find(receipts, FenceOf(context))
  }

  function UnfenceOf(context: Context): Fence -> bool {
    (x: Fence) => x.context == context
  }

  function FindUnfence(receipts: seq<Fence>, context: Context): (r: Option<Fence>)
    ensures r.Some? ==> r.value in receipts && r.value.context == context
    ensures r.None? ==> forall f | f in receipts :: f.context != context
  {
    Find(receipts, UnfenceOf(context))
  }

  predicate IsActive(p: Participant) { p.active }

  function ActiveCount(ps: seq<Participant>): nat {
    |Filter(ps, IsActive)|
  }

  predicate ActiveSubject(ps: seq<Participant>, subject: string) {
    exists p :: p in ps && p.active && p.subject == subject
  }

  // ---- what a stored group must satisfy ----

  function ParticipantsCheck(ps: seq<Participant>, k: nat): Check<GroupError>
    requires k <= |ps|
    decreases |ps| - k
  {
    if k == |ps| then Pass
    else
      var p := ps[k];
      if FindParticipant(ps[..k], p.id).Some? then Fail(ParticipantDuplicated)
      else if p.active && ActiveSubject(ps[..k], p.subject) then Fail(ActiveSubjectDuplicated)
      else if !(SafeInteger(p.joinOrder) && p.joinOrder >= 1) then Fail(JoinOrderInvalid)
      else if exists q :: q in ps[..k] && q.joinOrder == p.joinOrder then Fail(JoinOrderDuplicated)
      else if p.active && p.leftAt.Some? then Fail(LeftAtNotAllowed)
      else if !p.active && p.leftAt.None? then Fail(LeftAtRequired)
      else if !p.active && p.leftAt.value < p.joinedAt then Fail(LeftAtBeforeJoinedAt)
      else ParticipantsCheck(ps, k + 1)
  }

  function InvitationCheck(i: Invitation, earlier: seq<Invitation>, ps: seq<Participant>): Check<GroupError> {
    var issuer := FindParticipant(ps, i.issuerParticipantId);
    if FindInvitation(earlier, i.id).Some? then Fail(InvitationDuplicated)
    else if i.expiryAt != i.createdAt + WEEK then Fail(InvitationExpiryInvalid)
    else if !(issuer.Some? && issuer.value.joinedAt <= i.createdAt &&
              (issuer.value.leftAt.None? || i.createdAt < issuer.value.leftAt.value))
      then Fail(InvitationIssuerNotFound)
    else if (i.status == Consumed) != i.resultingParticipantId.Some? then Fail(InvitationResultInvalid)
    else if i.resultingParticipantId.Some? then
      var joined := FindParticipant(ps, i.resultingParticipantId.value);
      Require(joined.Some? && joined.value.subject == i.targetSubject &&
              i.createdAt <= joined.value.joinedAt < i.expiryAt,
              InvitationResultInvalid)
    else Pass
  }

  function InvitationsCheck(list: seq<Invitation>, ps: seq<Participant>, k: nat): Check<GroupError>
    requires k <= |list|
    decreases |list| - k
  {
    if k == |list| then Pass
    else if InvitationCheck(list[k], list[..k], ps).Fail? then InvitationCheck(list[k], list[..k], ps)
    else InvitationsCheck(list, ps, k + 1)
  }

  predicate FenceFits(f: Fence, groupId: string, closing: ClosingState) {
    f.groupId == groupId && f.closeIntentId == closing.closeIntentId && f.cutoff == closing.cutoff
  }

  predicate FenceShaped(f: Fence) {
    SafeInteger(f.fenceVersion) && f.fenceVersion >= 1
  }

  /** The receipt answers an installed fence: same version, and not completed before it. */
  predicate Answers(f: Fence, installed: Option<FenceReceipt>) {
    installed.Some? && installed.value.fence.fenceVersion == f.fenceVersion &&
      installed.value.fence.completedAt <= f.completedAt
  }

  function FencesCheck(groupId: string, closing: ClosingState, k: nat): Check<GroupError>
    requires k <= |closing.fenceReceipts|
    decreases |closing.fenceReceipts| - k
  {
    if k == |closing.fenceReceipts| then Pass
    else
      var f := closing.fenceReceipts[k].fence;
      if !(FenceShaped(f) && FenceFits(f, groupId, closing)) then Fail(CloseReceiptMismatch)
      else if FindFence(closing.fenceReceipts[..k], f.context).Some? then Fail(CloseReceiptDuplicated)
      else FencesCheck(groupId, closing, k + 1)
  }

  function UnfencesCheck(groupId: string, closing: ClosingState, k: nat): Check<GroupError>
    requires k <= |closing.unfenceReceipts|
    decreases |closing.unfenceReceipts| - k
  {
    if k == |closing.unfenceReceipts| then Pass
    else
      var f := closing.unfenceReceipts[k];
      if !(FenceShaped(f) && FenceFits(f, groupId, closing) && Answers(f, FindFence(closing.fenceReceipts, f.context)))
        then Fail(CloseReceiptMismatch)
      else if FindUnfence(closing.unfenceReceipts[..k], f.context).Some? then Fail(CloseReceiptDuplicated)
      else UnfencesCheck(groupId, closing, k + 1)
  }

  function ClosingCheck(groupId: string, closing: ClosingState): Check<GroupError> {
    if FencesCheck(groupId, closing, 0).Fail? then FencesCheck(groupId, closing, 0)
    else if UnfencesCheck(groupId, closing, 0).Fail? then UnfencesCheck(groupId, closing, 0)
    else Require(closing.phase == Canceling || closing.unfenceReceipts == [], CloseStateInvalid)
  }

  function OwnerCheck(g: Group): Check<GroupError> {
    if !(1 <= ActiveCount(g.participants) <= 4) then Fail(ActiveParticipantCountOutOfRange)
    else if g.ownerParticipantId.None? then Fail(OwnerMissing)
    else
      var owners := Filter(g.participants, HasId(g.ownerParticipantId.value));
      if owners == [] then Fail(OwnerMembershipMismatch)
      else if |owners| > 1 then Fail(OwnerDuplicated)
      else Require(owners[0].active, OwnerNotActive)
  }

  predicate NotArchived(g: Group) {
    g.ownerAtArchive.None? && g.archivedAt.None? && g.deleteEligibleAt.None?
  }

  ghost predicate ArchiveComplete(g: Group) {
    && g.ownerParticipantId.None? && g.closing.None? && g.ownerAtArchive.Some?
    && (var owners := Filter(g.participants, HasId(g.ownerAtArchive.value)); |owners| == 1 && owners[0].active)
    && g.archivedAt.Some? && g.deleteEligibleAt == Some(DeleteEligibleAt(g.archivedAt.value))
  }

  ghost function StatusCheck(g: Group): Check<GroupError> {
    match g.status
    case Active =>
      if OwnerCheck(g).Fail? then OwnerCheck(g) else Require(g.closing.None? && NotArchived(g), CloseStateInvalid)
    case Closing =>
      if OwnerCheck(g).Fail? then OwnerCheck(g)
      else if !(g.closing.Some? && NotArchived(g)) then Fail(CloseStateInvalid)
      else ClosingCheck(g.id, g.closing.value)
    case Archived => Require(ArchiveComplete(g), ArchiveStateInvalid)
  }

  /** The group a snapshot restores to: the snapshot itself, when it breaks no rule. */
  ghost function Restore(g: Group): (r: Result<Group, GroupError>)
    ensures r.Ok? ==> r.value == g
  {
    var check := Require(SafeInteger(g.accessPolicyVersion) && g.accessPolicyVersion >= 1, AccessPolicyVersionInvalid);
    :- check;
    :- StatusCheck(g);
    :- ParticipantsCheck(g.participants, 0);
    :- InvitationsCheck(g.invitations, g.participants, 0);
    Ok(g)
  }

  ghost function Create(id: string, participantId: string, creatorSubject: string,
                        createdAt: int): Result<Group, GroupError> {
    Restore(Group(id, Active, Some(participantId),
                  [Participant(participantId, creatorSubject, createdAt, 1, true, None)], [], 1,
                  None, None, None, None))
  }

  // ---- transitions ----

  function ActiveGroup(g: Group): Check<GroupError> {
    Require(g.status == Active, GroupNotActive)
  }

  function OwnerFor(g: Group, actor: string): (r: Result<Participant, GroupError>)
    ensures r.Ok? ==> g.ownerParticipantId == Some(r.value.id) && r.value in g.participants
  {
    var owner := if g.ownerParticipantId.None? then None
      else FindParticipant(g.participants, g.ownerParticipantId.value);
    :- Require(owner.Some?, OwnerMissing);
    :- Require(owner.value.subject == actor, NotCurrentOwner);
    Ok(owner.value)
  }

  function NextPolicy(g: Group): Result<int, GroupError> {
    var check := Require(SafeInteger(g.accessPolicyVersion + 1), AccessPolicyVersionInvalid);
    :- check;
    Ok(g.accessPolicyVersion + 1)
  }

  /** The one transition that skips the restoring checks. */
  function TransferOwnership(g: Group, actor: string, target: string): Result<Group, GroupError> {
    var check := ActiveGroup(g);
    :- check;
    :- Require(g.ownerParticipantId.Some?, OwnerMissing);
    var owner := FindParticipant(g.participants, g.ownerParticipantId.value);
    :- Require(owner.Some? && owner.value.subject == actor, NotCurrentOwner);
    var next := FindParticipant(g.participants, target);
    :- Require(next.Some? && next.value.active, TargetParticipantNotActive);
    if target == g.ownerParticipantId.value then Ok(g)
    else
      var policy :- NextPolicy(g);
      Ok(g.(ownerParticipantId := Some(target), accessPolicyVersion := policy))
  }

  function Leaving(id: string, leftAt: int): Participant -> Participant {
    (p: Participant) => if p.id == id then p.(active := false, leftAt := Some(leftAt)) else p
  }

  ghost function Leave(g: Group, actor: string, participantId: string, leftAt: int): Result<Group, GroupError> {
    var check := ActiveGroup(g);
    :- check;
    :- Require(g.ownerParticipantId.Some?, OwnerMissing);
    var p := FindParticipant(g.participants, participantId);
    :- Require(p.Some? && p.value.subject == actor, ActorParticipantMismatch);
    :- Require(p.value.active, AlreadyLeft);
    :- Require(participantId != g.ownerParticipantId.value, OwnerMustTransferOrEnd);
    :- Require(leftAt >= p.value.joinedAt, LeftAtBeforeJoinedAt);
    var policy :- NextPolicy(g);
    Restore(g.(participants := Map(g.participants, Leaving(participantId, leftAt)), accessPolicyVersion := policy))
  }

  ghost function Invite(g: Group, actor: string, invitationId: string, target: string,
                        createdAt: int): Result<Group, GroupError> {
    var check := ActiveGroup(g);
    :- check;
    var owner :- OwnerFor(g, actor);
    :- Require(ActiveCount(g.participants) < 4, GroupCapacityReached);
    :- Require(!ActiveSubject(g.participants, target), ActiveSubjectDuplicated);
    :- Require(FindInvitation(g.invitations, invitationId).None?, InvitationDuplicated);
    var policy :- NextPolicy(g);
    Restore(g.(invitations := g.invitations + [Invitation(invitationId, target, owner.id, createdAt, createdAt + WEEK,
                                                          Pending, None)],
               accessPolicyVersion := policy))
  }

  function WithInvitation(i: Invitation): Invitation -> Invitation {
    (x: Invitation) => if x.id == i.id then i else x
  }

  ghost function CancelInvitation(g: Group, actor: string, invitationId: string,
                                  cancelledAt: int): Result<Group, GroupError> {
    var check := ActiveGroup(g);
    :- check;
    var _ :- OwnerFor(g, actor);
    var i := FindInvitation(g.invitations, invitationId);
    :- Require(i.Some?, InvitationNotFound);
    :- Require(cancelledAt >= i.value.createdAt, InvitationActionBeforeCreated);
    :- Require(cancelledAt < i.value.expiryAt, InvitationExpired);
    :- Require(i.value.status == Pending, InvitationNotPending);
    var policy :- NextPolicy(g);
    Restore(g.(invitations := Map(g.invitations, WithInvitation(i.value.(status := Cancelled))),
               accessPolicyVersion := policy))
  }

  function LastJoinOrder(ps: seq<Participant>): (m: int)
    ensures m >= 0 && forall p | p in ps :: p.joinOrder <= m
  {
    if ps == [] then 0
    else var m := LastJoinOrder(ps[1..]); if ps[0].joinOrder > m then ps[0].joinOrder else m
  }

  ghost function AcceptInvitation(g: Group, actor: string, invitationId: string, participantId: string,
                                  acceptedAt: int): Result<Group, GroupError> {
    var check := ActiveGroup(g);
    :- check;
    var i := FindInvitation(g.invitations, invitationId);
    :- Require(i.Some?, InvitationNotFound);
    :- Require(acceptedAt >= i.value.createdAt, InvitationActionBeforeCreated);
    :- Require(i.value.targetSubject == actor, InvitationTargetMismatch);
    :- Require(acceptedAt < i.value.expiryAt, InvitationExpired);
    :- Require(i.value.status == Pending, InvitationNotPending);
    :- Require(ActiveCount(g.participants) < 4, GroupCapacityReached);
    :- Require(!ActiveSubject(g.participants, actor), ActiveSubjectDuplicated);
    :- Require(FindParticipant(g.participants, participantId).None?, ParticipantDuplicated);
    var joinOrder := LastJoinOrder(g.participants) + 1;
    :- Require(SafeInteger(joinOrder), JoinOrderInvalid);
    var policy :- NextPolicy(g);
    Restore(g.(participants := g.participants + [Participant(participantId, actor, acceptedAt, joinOrder, true, None)],
               invitations := Map(g.invitations,
                                  WithInvitation(i.value.(status := Consumed,
                                                          resultingParticipantId := Some(participantId)))),
               accessPolicyVersion := policy))
  }

  ghost function StartClosing(g: Group, actor: string, closeIntentId: string, cutoff: int): Result<Group, GroupError> {
    var check := ActiveGroup(g);
    :- check;
    var _ :- OwnerFor(g, actor);
    var policy :- NextPolicy(g);
    Restore(g.(status := Closing, accessPolicyVersion := policy,
               closing := Some(ClosingState(closeIntentId, cutoff, Fencing, [], []))))
  }

  function RequireClosing(g: Group, phase: ClosePhase): Result<ClosingState, GroupError> {
    var check := Require(g.status == Closing && g.closing.Some? && g.closing.value.phase == phase, CloseStateInvalid);
    :- check;
    Ok(g.closing.value)
  }

  ghost function RecordFence(g: Group, receipt: FenceReceipt): Result<Group, GroupError> {
    var closing :- RequireClosing(g, Fencing);
    :- Require(FenceShaped(receipt.fence) && FenceFits(receipt.fence, g.id, closing), CloseReceiptMismatch);
    var existing := FindFence(closing.fenceReceipts, receipt.fence.context);
    if existing.Some? then if existing.value == receipt then Ok(g) else Err(CloseReceiptDuplicated)
    else
      var policy :- NextPolicy(g);
      Restore(g.(accessPolicyVersion := policy,
                 closing := Some(closing.(fenceReceipts := closing.fenceReceipts + [receipt]))))
  }

  ghost function Archive(g: Group, actor: string, closeIntentId: string, archivedAt: int): Result<Group, GroupError> {
    var closing :- RequireClosing(g, Fencing);
    :- Require(closing.closeIntentId == closeIntentId, CloseIntentMismatch);
    var owner :- OwnerFor(g, actor);
    var expense, settlement := FindFence(closing.fenceReceipts, ExpenseRecording),
      FindFence(closing.fenceReceipts, Settlement);
    :- Require(expense.Some? && settlement.Some?, CloseReceiptMissing);
    :- Require(expense.value.eligible && settlement.value.eligible, CloseNotEligible);
    var policy :- NextPolicy(g);
    Restore(g.(status := Archived, ownerParticipantId := None, accessPolicyVersion := policy, closing := None,
               ownerAtArchive := Some(owner.id), archivedAt := Some(archivedAt),
               deleteEligibleAt := Some(DeleteEligibleAt(archivedAt))))
  }

  ghost function ReserveCancellation(g: Group, actor: string, closeIntentId: string): Result<Group, GroupError> {
    var closing :- RequireClosing(g, Fencing);
    :- Require(closing.closeIntentId == closeIntentId, CloseIntentMismatch);
    var _ :- OwnerFor(g, actor);
    var policy :- NextPolicy(g);
    Restore(g.(accessPolicyVersion := policy, closing := Some(closing.(phase := Canceling))))
  }

  ghost function RecordUnfence(g: Group, receipt: Fence): Result<Group, GroupError> {
    var closing :- RequireClosing(g, Canceling);
    :- Require(FenceShaped(receipt) && FenceFits(receipt, g.id, closing), CloseReceiptMismatch);
    :- Require(Answers(receipt, FindFence(closing.fenceReceipts, receipt.context)), CloseReceiptMismatch);
    var existing := FindUnfence(closing.unfenceReceipts, receipt.context);
    if existing.Some? then if existing.value == receipt then Ok(g) else Err(CloseReceiptDuplicated)
    else
      var policy :- NextPolicy(g);
      Restore(g.(accessPolicyVersion := policy,
                 closing := Some(closing.(unfenceReceipts := closing.unfenceReceipts + [receipt]))))
  }

  ghost function CompleteCancellation(g: Group, actor: string, closeIntentId: string): Result<Group, GroupError> {
    var closing :- RequireClosing(g, Canceling);
    :- Require(closing.closeIntentId == closeIntentId, CloseIntentMismatch);
    var _ :- OwnerFor(g, actor);
    :- Require(FindUnfence(closing.unfenceReceipts, ExpenseRecording).Some? &&
               FindUnfence(closing.unfenceReceipts, Settlement).Some?, CloseReceiptMissing);
    var policy :- NextPolicy(g);
    Restore(g.(status := Active, accessPolicyVersion := policy, closing := None))
  }

  // ---- all transitions ----

  datatype Transition =
    | ToTransfer(actor: string, target: string)
    | ToLeave(actor: string, participantId: string, at: int)
    | ToInvite(actor: string, invitationId: string, target: string, at: int)
    | ToCancelInvitation(actor: string, invitationId: string, at: int)
    | ToAccept(actor: string, invitationId: string, participantId: string, at: int)
    | ToStartClosing(actor: string, closeIntentId: string, cutoff: int)
    | ToRecordFence(receipt: FenceReceipt)
    | ToArchive(actor: string, closeIntentId: string, at: int)
    | ToReserve(actor: string, closeIntentId: string)
    | ToRecordUnfence(unfence: Fence)
    | ToComplete(actor: string, closeIntentId: string)

  ghost function Apply(g: Group, t: Transition): Result<Group, GroupError> {
    match t
    case ToTransfer(a, p) => TransferOwnership(g, a, p)
    case ToLeave(a, p, at) => Leave(g, a, p, at)
    case ToInvite(a, i, s, at) => Invite(g, a, i, s, at)
    case ToCancelInvitation(a, i, at) => CancelInvitation(g, a, i, at)
    case ToAccept(a, i, p, at) => AcceptInvitation(g, a, i, p, at)
    case ToStartClosing(a, i, cutoff) => StartClosing(g, a, i, cutoff)
    case ToRecordFence(r) => RecordFence(g, r)
    case ToArchive(a, i, at) => Archive(g, a, i, at)
    case ToReserve(a, i) => ReserveCancellation(g, a, i)
    case ToRecordUnfence(r) => RecordUnfence(g, r)
    case ToComplete(a, i) => CompleteCancellation(g, a, i)
  }
}
