/** When a group accepts each transition, and the one group that follows, said of its lists themselves. */
module GroupTransitions {
  import opened Outcomes
  import opened Text
  import opened GroupRoot
  import opened GroupRules

  // ---- when a transition is accepted ----

  ghost predicate Owns(g: Group, subject: string) {
    g.ownerParticipantId.Some? &&
      exists p :: p in g.participants && p.id == g.ownerParticipantId.value && p.subject == subject
  }

  ghost predicate HasRoom(g: Group) {
    g.accessPolicyVersion < MAX_SAFE
  }

  ghost predicate Present(ps: seq<Participant>, subject: string) {
    exists p :: p in ps && p.active && p.subject == subject
  }

  /** Nobody new would be one too many, or take part twice. */
  ghost predicate Admits(g: Group, subject: string) {
    |ActivePlaces(g.participants)| <= 3 && !Present(g.participants, subject)
  }

  ghost predicate MayLeave(g: Group, actor: string, id: string, at: int) {
    && g.status == Active && HasRoom(g) && g.ownerParticipantId != Some(id)
    && (exists p :: p in g.participants && p.id == id && p.subject == actor && p.active && p.joinedAt <= at)
    && forall i | i in g.invitations && i.issuerParticipantId == id :: i.createdAt < at
  }

  ghost predicate MayInvite(g: Group, actor: string, id: string, target: string, at: int) {
    && g.status == Active && HasRoom(g) && g.ownerParticipantId.Some?
    && (exists p :: p in g.participants && p.id == g.ownerParticipantId.value && p.subject == actor && p.joinedAt <= at)
    && Admits(g, target) && forall i | i in g.invitations :: i.id != id
  }

  ghost predicate Open(i: Invitation, id: string, at: int) {
    i.id == id && i.status == Pending && i.createdAt <= at < i.expiryAt
  }

  ghost predicate MayAccept(g: Group, actor: string, id: string, participantId: string, at: int) {
    && g.status == Active && HasRoom(g) && Admits(g, actor)
    && (exists i :: i in g.invitations && Open(i, id, at) && i.targetSubject == actor)
    && forall p | p in g.participants :: p.id != participantId && p.joinOrder < MAX_SAFE
  }

  ghost predicate InPhase(g: Group, phase: ClosePhase) {
    g.status == Closing && g.closing.Some? && g.closing.value.phase == phase
  }

  ghost predicate UnderIntent(g: Group, phase: ClosePhase, intent: string) {
    InPhase(g, phase) && g.closing.value.closeIntentId == intent
  }

  /** The receipt is there already, or it is the first of its context. */
  ghost predicate MayFence(g: Group, r: FenceReceipt) {
    && InPhase(g, Fencing) && FenceFine(r.fence, g.id, g.closing.value)
    && var kept := g.closing.value.fenceReceipts;
       r in kept || (HasRoom(g) && forall x | x in kept :: x.fence.context != r.fence.context)
  }

  ghost predicate MayUnfence(g: Group, f: Fence) {
    && InPhase(g, Canceling) && FenceFine(f, g.id, g.closing.value) && Removes(f, g.closing.value.fenceReceipts)
    && var kept := g.closing.value.unfenceReceipts;
       f in kept || (HasRoom(g) && forall x | x in kept :: x.context != f.context)
  }

  ghost predicate Eligible(receipts: seq<FenceReceipt>, context: Context) {
    exists r :: r in receipts && r.fence.context == context && r.eligible
  }

  ghost predicate Unfenced(receipts: seq<Fence>, context: Context) {
    exists f :: f in receipts && f.context == context
  }

  ghost predicate May(g: Group, t: Transition) {
    match t
    case ToTransfer(a, target) =>
      && g.status == Active && Owns(g, a) && TakesPart(g.participants, target)
      && (g.ownerParticipantId == Some(target) || HasRoom(g))
    case ToLeave(a, id, at) => MayLeave(g, a, id, at)
    case ToInvite(a, i, target, at) => MayInvite(g, a, i, target, at)
    case ToCancelInvitation(a, id, at) =>
      g.status == Active && HasRoom(g) && Owns(g, a) && exists i :: i in g.invitations && Open(i, id, at)
    case ToAccept(a, i, p, at) => MayAccept(g, a, i, p, at)
    case ToStartClosing(a, _, _) => g.status == Active && HasRoom(g) && Owns(g, a)
    case ToRecordFence(r) => MayFence(g, r)
    case ToArchive(a, i, _) =>
      && UnderIntent(g, Fencing, i) && Owns(g, a) && HasRoom(g)
      && Eligible(g.closing.value.fenceReceipts, ExpenseRecording)
      && Eligible(g.closing.value.fenceReceipts, Settlement)
    case ToReserve(a, i) => UnderIntent(g, Fencing, i) && Owns(g, a) && HasRoom(g)
    case ToRecordUnfence(f) => MayUnfence(g, f)
    case ToComplete(a, i) =>
      && UnderIntent(g, Canceling, i) && Owns(g, a) && HasRoom(g)
      && Unfenced(g.closing.value.unfenceReceipts, ExpenseRecording)
      && Unfenced(g.closing.value.unfenceReceipts, Settlement)
  }

  // ---- what it leads to ----

  /** The person has left, everyone else is as before. */
  ghost predicate HasLeft(g: Group, id: string, at: int, g': Group) {
    && g' == g.(participants := g'.participants, accessPolicyVersion := g.accessPolicyVersion + 1)
    && |g'.participants| == |g.participants|
    && forall k | 0 <= k < |g.participants| ::
         g'.participants[k] == if g.participants[k].id == id
                               then g.participants[k].(active := false, leftAt := Some(at)) else g.participants[k]
  }

  ghost predicate InvitationNow(before: seq<Invitation>, id: string, status: InvitationStatus, result: Option<string>,
                                after: seq<Invitation>)
  {
    && |after| == |before|
    && forall k | 0 <= k < |before| ::
         after[k] == if before[k].id == id then before[k].(status := status, resultingParticipantId := result)
                     else before[k]
  }

  /** The invited person takes part from then on, after everyone who joined before. */
  ghost predicate HasJoined(g: Group, actor: string, id: string, participantId: string, at: int, g': Group) {
    && g' == g.(participants := g'.participants, invitations := g'.invitations,
                accessPolicyVersion := g.accessPolicyVersion + 1)
    && |g'.participants| == |g.participants| + 1 && g'.participants[..|g.participants|] == g.participants
    && InvitationNow(g.invitations, id, Consumed, Some(participantId), g'.invitations)
    && var joined := g'.participants[|g.participants|];
       && joined == Participant(participantId, actor, at, joined.joinOrder, true, None)
       && (forall p | p in g.participants :: p.joinOrder < joined.joinOrder)
       && (exists p :: p in g.participants && p.joinOrder == joined.joinOrder - 1)
  }

  ghost predicate ClosingNow(g: Group, closing: ClosingState, g': Group) {
    g' == g.(status := Closing, accessPolicyVersion := g.accessPolicyVersion + 1, closing := Some(closing))
  }

  ghost predicate Does(g: Group, t: Transition, g': Group) {
    match t
    case ToTransfer(_, target) =>
      if g.ownerParticipantId == Some(target) then g' == g
      else g' == g.(ownerParticipantId := Some(target), accessPolicyVersion := g.accessPolicyVersion + 1)
    case ToLeave(_, id, at) => HasLeft(g, id, at, g')
    case ToInvite(_, id, target, at) =>
      g.ownerParticipantId.Some? &&
      g' == g.(invitations := g.invitations + [Invitation(id, target, g.ownerParticipantId.value, at, at + 604_800_000,
                                                          Pending, None)],
               accessPolicyVersion := g.accessPolicyVersion + 1)
    case ToCancelInvitation(_, id, _) =>
      && g' == g.(invitations := g'.invitations, accessPolicyVersion := g.accessPolicyVersion + 1)
      && InvitationNow(g.invitations, id, Cancelled, None, g'.invitations)
    case ToAccept(a, i, p, at) => HasJoined(g, a, i, p, at, g')
    case ToStartClosing(_, i, cutoff) => ClosingNow(g, ClosingState(i, cutoff, Fencing, [], []), g')
    case ToRecordFence(r) =>
      && g.closing.Some?
      && var c := g.closing.value;
         if r in c.fenceReceipts then g' == g else ClosingNow(g, c.(fenceReceipts := c.fenceReceipts + [r]), g')
    case ToArchive(_, _, at) =>
      g' == g.(status := Archived, ownerParticipantId := None, accessPolicyVersion := g.accessPolicyVersion + 1,
               closing := None, ownerAtArchive := g.ownerParticipantId, archivedAt := Some(at),
               deleteEligibleAt := Some(DeleteEligibleAt(at)))
    case ToReserve(_, _) => g.closing.Some? && ClosingNow(g, g.closing.value.(phase := Canceling), g')
    case ToRecordUnfence(f) =>
      && g.closing.Some?
      && var c := g.closing.value;
         if f in c.unfenceReceipts then g' == g else ClosingNow(g, c.(unfenceReceipts := c.unfenceReceipts + [f]), g')
    case ToComplete(_, _) =>
      g' == g.(status := Active, accessPolicyVersion := g.accessPolicyVersion + 1, closing := None)
  }

  // ---- what the lookups answer ----

  lemma FoundIs(ps: seq<Participant>, p: Participant)
    requires PeopleFine(ps) && p in ps
    ensures FindParticipant(ps, p.id) == Some(p)
  {
    var q := FindParticipant(ps, p.id).value;
    var i :| 0 <= i < |ps| && ps[i] == p;
    var j :| 0 <= j < |ps| && ps[j] == q;
    assert ps[i].id == ps[j].id;
  }

  lemma InvitationFound(list: seq<Invitation>, ps: seq<Participant>, i: Invitation)
    requires InvitationsFine(list, ps) && i in list
    ensures FindInvitation(list, i.id) == Some(i)
  {
    hide InvitationFine;
    var q := FindInvitation(list, i.id).value;
    var m :| 0 <= m < |list| && list[m] == i;
    var n :| 0 <= n < |list| && list[n] == q;
    assert list[m].id == list[n].id;
  }

  lemma FenceFound(groupId: string, c: ClosingState, r: FenceReceipt)
    requires ClosingFine(groupId, c) && r in c.fenceReceipts
    ensures FindFence(c.fenceReceipts, r.fence.context) == Some(r)
  {
    hide FenceFine, Removes;
    var list := c.fenceReceipts;
    var q := FindFence(list, r.fence.context).value;
    var m :| 0 <= m < |list| && list[m] == r;
    var n :| 0 <= n < |list| && list[n] == q;
    assert list[m].fence.context == list[n].fence.context;
  }

  lemma UnfenceFound(groupId: string, c: ClosingState, f: Fence)
    requires ClosingFine(groupId, c) && f in c.unfenceReceipts
    ensures FindUnfence(c.unfenceReceipts, f.context) == Some(f)
  {
    hide FenceFine, Removes;
    var list := c.unfenceReceipts;
    var q := FindUnfence(list, f.context).value;
    var m :| 0 <= m < |list| && list[m] == f;
    var n :| 0 <= n < |list| && list[n] == q;
    assert list[m].context == list[n].context;
  }

  /** The owner is looked up by identifier, and answers for the actor exactly when the actor owns the group. */
  lemma OwnerExact(g: Group, actor: string)
    requires PeopleFine(g.participants)
    ensures OwnerFor(g, actor).Ok? <==> Owns(g, actor)
    ensures forall p | p in g.participants && g.ownerParticipantId == Some(p.id) ::
              OwnerFor(g, actor).Ok? ==> OwnerFor(g, actor).value == p
  {
    forall p | p in g.participants && g.ownerParticipantId == Some(p.id)
      ensures FindParticipant(g.participants, p.id) == Some(p)
    {
      FoundIs(g.participants, p);
    }
    hide PeopleFine, FindParticipant;
  }

  lemma PolicyIs(g: Group)
    requires 1 <= g.accessPolicyVersion <= MAX_SAFE
    ensures NextPolicy(g).Ok? <==> HasRoom(g)
    ensures NextPolicy(g).Ok? ==> NextPolicy(g).value == g.accessPolicyVersion + 1
  {
  }
}
