/**
 * How a group closes, and all transitions together: each is accepted exactly when its own conditions hold, and leads to
 * exactly what it says.
 */
module GroupOutcomes {
  import opened Outcomes
  import opened GroupRoot
  import opened GroupRuns
  import opened GroupRules
  import opened GroupTransitions
  import opened GroupMembers

  // ---- closing ----

  /** A led group that begins or goes on closing keeps the rules as long as its closing state does. */
  lemma StillClosing(g: Group, c: ClosingState, g': Group)
    requires WellFormed(g) && (g.status == Active || g.status == Closing) && HasRoom(g) && ClosingNow(g, c, g')
    ensures WellFormed(g') <==> ClosingFine(g.id, c)
  {
    hide PeopleFine, InvitationsFine, ActivePlaces, TakesPart, ClosingFine;
  }

  function ClosingWith(g: Group, c: ClosingState): Group {
    g.(status := Closing, accessPolicyVersion := g.accessPolicyVersion + 1, closing := Some(c))
  }

  lemma ClosingWithIs(g: Group, c: ClosingState)
    ensures ClosingNow(g, c, ClosingWith(g, c))
  {
  }

  lemma StartUnfolds(g: Group, actor: string, id: string, cutoff: int)
    requires NextPolicy(g).Ok? ==> NextPolicy(g).value == g.accessPolicyVersion + 1
    ensures var r, g' := StartClosing(g, actor, id, cutoff), ClosingWith(g, ClosingState(id, cutoff, Fencing, [], []));
            && (r.Ok? <==> g.status == Active && OwnerFor(g, actor).Ok? && NextPolicy(g).Ok? && Restorable(g'))
            && (r.Ok? ==> r.value == g')
  {
    hide NextPolicy, OwnerFor, StatusCheck, ParticipantsCheck, InvitationsCheck;
  }

  lemma NoReceiptsFine(groupId: string, id: string, cutoff: int)
    ensures ClosingFine(groupId, ClosingState(id, cutoff, Fencing, [], []))
  {
  }

  lemma StartExact(g: Group, actor: string, id: string, cutoff: int)
    requires WellFormed(g)
    ensures StartClosing(g, actor, id, cutoff).Ok? <==> May(g, ToStartClosing(actor, id, cutoff))
    ensures StartClosing(g, actor, id, cutoff).Ok? ==>
            Does(g, ToStartClosing(actor, id, cutoff), StartClosing(g, actor, id, cutoff).value)
  {
    hide *;
    var c := ClosingState(id, cutoff, Fencing, [], []);
    FineParts(g);
    PolicyIs(g);
    OwnerHere(g, actor);
    StartUnfolds(g, actor, id, cutoff);
    StartSays(g, actor, id, cutoff);
    NoReceiptsFine(g.id, id, cutoff);
    ClosingWithIs(g, c);
    if g.status == Active && HasRoom(g) {
      StillClosing(g, c, ClosingWith(g, c));
      RestorableExact(ClosingWith(g, c));
    }
  }

  lemma StartSays(g: Group, actor: string, id: string, cutoff: int)
    ensures May(g, ToStartClosing(actor, id, cutoff)) <==> g.status == Active && HasRoom(g) && Owns(g, actor)
    ensures forall g' :: Does(g, ToStartClosing(actor, id, cutoff), g') <==>
                         ClosingNow(g, ClosingState(id, cutoff, Fencing, [], []), g')
  {
    hide HasRoom, Owns, ClosingNow;
  }

  /** The state a closing group is in; both phases keep the rules of a closing group. */
  lemma ClosingParts(g: Group, phase: ClosePhase)
    requires WellFormed(g)
    ensures RequireClosing(g, phase).Ok? <==> InPhase(g, phase)
    ensures InPhase(g, phase) ==>
            g.status == Closing && g.closing.Some? && RequireClosing(g, phase).value == g.closing.value &&
            g.closing.value.phase == phase && ClosingFine(g.id, g.closing.value)
  {
    hide PeopleFine, InvitationsFine, Led, ClosingFine;
  }

  lemma FenceUnfolds(g: Group, r: FenceReceipt)
    requires NextPolicy(g).Ok? ==> NextPolicy(g).value == g.accessPolicyVersion + 1
    ensures var after, closing := RecordFence(g, r), RequireClosing(g, Fencing);
            if closing.Err? || !FenceFine(r.fence, g.id, closing.value) then after.Err?
            else
              var c, kept := closing.value, FindFence(closing.value.fenceReceipts, r.fence.context);
              if kept.Some? then after == (if kept.value == r then Ok(g) else Err(CloseReceiptDuplicated))
              else
                var g' := g.(accessPolicyVersion := g.accessPolicyVersion + 1,
                             closing := Some(c.(fenceReceipts := c.fenceReceipts + [r])));
                && (after.Ok? <==> NextPolicy(g).Ok? && Restorable(g')) && (after.Ok? ==> after.value == g')
  {
    hide NextPolicy, RequireClosing, FindFence, StatusCheck, ParticipantsCheck, InvitationsCheck;
  }

  lemma MoreFences(groupId: string, c: ClosingState, r: FenceReceipt)
    requires ClosingFine(groupId, c) && FenceFine(r.fence, groupId, c)
    requires forall x | x in c.fenceReceipts :: x.fence.context != r.fence.context
    ensures ClosingFine(groupId, c.(fenceReceipts := c.fenceReceipts + [r]))
  {
    var c' := c.(fenceReceipts := c.fenceReceipts + [r]);
    assert forall x | x in c.fenceReceipts :: x in c'.fenceReceipts;
    forall f | f in c.unfenceReceipts ensures Removes(f, c'.fenceReceipts) {
      assert Removes(f, c.fenceReceipts);
    }
    forall i, j | 0 <= i < j < |c'.fenceReceipts|
      ensures c'.fenceReceipts[i].fence.context != c'.fenceReceipts[j].fence.context
    {
      assert c.fenceReceipts[i] in c.fenceReceipts;
    }
    hide Removes;
  }

  /** A closing group's state with another closing state of the same phase or the other. */
  lemma ClosingAgain(g: Group, c: ClosingState)
    requires g.status == Closing
    ensures g.(accessPolicyVersion := g.accessPolicyVersion + 1, closing := Some(c)) == ClosingWith(g, c)
  {
  }

  lemma ClosingRestores(g: Group, c: ClosingState)
    requires WellFormed(g) && g.status == Closing && HasRoom(g) && ClosingFine(g.id, c)
    ensures Restorable(ClosingWith(g, c))
  {
    hide *;
    ClosingWithIs(g, c);
    StillClosing(g, c, ClosingWith(g, c));
    RestorableExact(ClosingWith(g, c));
  }

  lemma FenceSays(g: Group, r: FenceReceipt)
    requires g.closing.Some?
    ensures var c := g.closing.value;
            && (MayFence(g, r) <==>
                  InPhase(g, Fencing) && FenceFine(r.fence, g.id, c) &&
                  (r in c.fenceReceipts ||
                   (HasRoom(g) && forall x | x in c.fenceReceipts :: x.fence.context != r.fence.context)))
            && forall g' :: Does(g, ToRecordFence(r), g') <==>
                            if r in c.fenceReceipts then g' == g
                            else ClosingNow(g, c.(fenceReceipts := c.fenceReceipts + [r]), g')
  {
    hide InPhase, FenceFine, HasRoom, ClosingNow;
  }

  lemma FenceExact(g: Group, r: FenceReceipt)
    requires WellFormed(g)
    ensures RecordFence(g, r).Ok? <==> MayFence(g, r)
    ensures RecordFence(g, r).Ok? ==> Does(g, ToRecordFence(r), RecordFence(g, r).value)
  {
    hide *;
    FineParts(g);
    PolicyIs(g);
    ClosingParts(g, Fencing);
    FenceUnfolds(g, r);
    if InPhase(g, Fencing) {
      var c := g.closing.value;
      FenceSays(g, r);
      ClosingAgain(g, c.(fenceReceipts := c.fenceReceipts + [r]));
      ClosingWithIs(g, c.(fenceReceipts := c.fenceReceipts + [r]));
      forall x | x in c.fenceReceipts ensures FindFence(c.fenceReceipts, x.fence.context) == Some(x) {
        FenceFound(g.id, c, x);
      }
      if FenceFine(r.fence, g.id, c) && HasRoom(g) && forall x | x in c.fenceReceipts ::
        x.fence.context != r.fence.context
      {
        MoreFences(g.id, c, r);
        ClosingRestores(g, c.(fenceReceipts := c.fenceReceipts + [r]));
      }
    } else {
      NotInPhase(g, r);
    }
  }

  lemma NotInPhase(g: Group, r: FenceReceipt)
    requires !InPhase(g, Fencing)
    ensures !MayFence(g, r)
  {
  }

  lemma UnfenceUnfolds(g: Group, f: Fence)
    requires NextPolicy(g).Ok? ==> NextPolicy(g).value == g.accessPolicyVersion + 1
    ensures var after, closing := RecordUnfence(g, f), RequireClosing(g, Canceling);
            if closing.Err? || !FenceFine(f, g.id, closing.value) ||
               !Answers(f, FindFence(closing.value.fenceReceipts, f.context)) then after.Err?
            else
              var c, kept := closing.value, FindUnfence(closing.value.unfenceReceipts, f.context);
              if kept.Some? then after == (if kept.value == f then Ok(g) else Err(CloseReceiptDuplicated))
              else
                var g' := g.(accessPolicyVersion := g.accessPolicyVersion + 1,
                             closing := Some(c.(unfenceReceipts := c.unfenceReceipts + [f])));
                && (after.Ok? <==> NextPolicy(g).Ok? && Restorable(g')) && (after.Ok? ==> after.value == g')
  {
    hide NextPolicy, RequireClosing, FindFence, FindUnfence, StatusCheck, ParticipantsCheck, InvitationsCheck, Answers;
  }

  lemma AnswersIs(groupId: string, c: ClosingState, f: Fence)
    requires ClosingFine(groupId, c)
    ensures Answers(f, FindFence(c.fenceReceipts, f.context)) <==> Removes(f, c.fenceReceipts)
  {
    forall r | r in c.fenceReceipts ensures FindFence(c.fenceReceipts, r.fence.context) == Some(r) {
      FenceFound(groupId, c, r);
    }
    hide ClosingFine, FindFence;
  }

  lemma MoreUnfences(groupId: string, c: ClosingState, f: Fence)
    requires ClosingFine(groupId, c) && FenceFine(f, groupId, c) && Removes(f, c.fenceReceipts) && c.phase == Canceling
    requires forall x | x in c.unfenceReceipts :: x.context != f.context
    ensures ClosingFine(groupId, c.(unfenceReceipts := c.unfenceReceipts + [f]))
  {
    var c' := c.(unfenceReceipts := c.unfenceReceipts + [f]);
    forall i, j | 0 <= i < j < |c'.unfenceReceipts|
      ensures c'.unfenceReceipts[i].context != c'.unfenceReceipts[j].context
    {
      assert c.unfenceReceipts[i] in c.unfenceReceipts;
    }
    hide Removes;
  }

  lemma UnfenceSays(g: Group, f: Fence)
    requires g.closing.Some?
    ensures var c := g.closing.value;
            && (MayUnfence(g, f) <==>
                  InPhase(g, Canceling) && FenceFine(f, g.id, c) && Removes(f, c.fenceReceipts) &&
                  (f in c.unfenceReceipts ||
                   (HasRoom(g) && forall x | x in c.unfenceReceipts :: x.context != f.context)))
            && forall g' :: Does(g, ToRecordUnfence(f), g') <==>
                            if f in c.unfenceReceipts then g' == g
                            else ClosingNow(g, c.(unfenceReceipts := c.unfenceReceipts + [f]), g')
  {
    hide InPhase, FenceFine, HasRoom, ClosingNow, Removes;
  }

  lemma UnfenceExact(g: Group, f: Fence)
    requires WellFormed(g)
    ensures RecordUnfence(g, f).Ok? <==> MayUnfence(g, f)
    ensures RecordUnfence(g, f).Ok? ==> Does(g, ToRecordUnfence(f), RecordUnfence(g, f).value)
  {
    hide *;
    FineParts(g);
    PolicyIs(g);
    ClosingParts(g, Canceling);
    UnfenceUnfolds(g, f);
    if InPhase(g, Canceling) {
      var c := g.closing.value;
      UnfenceSays(g, f);
      AnswersIs(g.id, c, f);
      ClosingAgain(g, c.(unfenceReceipts := c.unfenceReceipts + [f]));
      ClosingWithIs(g, c.(unfenceReceipts := c.unfenceReceipts + [f]));
      forall x | x in c.unfenceReceipts ensures FindUnfence(c.unfenceReceipts, x.context) == Some(x) {
        UnfenceFound(g.id, c, x);
      }
      if FenceFine(f, g.id, c) && Removes(f, c.fenceReceipts) && HasRoom(g) &&
         forall x | x in c.unfenceReceipts :: x.context != f.context {
        MoreUnfences(g.id, c, f);
        ClosingRestores(g, c.(unfenceReceipts := c.unfenceReceipts + [f]));
      }
    } else {
      NotCancelling(g, f);
    }
  }

  lemma NotCancelling(g: Group, f: Fence)
    requires !InPhase(g, Canceling)
    ensures !MayUnfence(g, f)
  {
  }

  // ---- the ends of closing ----

  ghost function ArchivedGroup(g: Group, at: int): Group {
    g.(status := Archived, ownerParticipantId := None, accessPolicyVersion := g.accessPolicyVersion + 1,
       closing := None, ownerAtArchive := g.ownerParticipantId, archivedAt := Some(at),
       deleteEligibleAt := Some(DeleteEligibleAt(at)))
  }

  lemma ArchiveUnfolds(g: Group, actor: string, id: string, at: int)
    requires NextPolicy(g).Ok? ==> NextPolicy(g).value == g.accessPolicyVersion + 1
    ensures var r, closing := Archive(g, actor, id, at), RequireClosing(g, Fencing);
            && (r.Ok? <==> closing.Ok? && closing.value.closeIntentId == id && OwnerFor(g, actor).Ok? &&
                           BothEligible(closing.value.fenceReceipts) && NextPolicy(g).Ok? &&
                           Restorable(ArchivedGroup(g, at)))
            && (r.Ok? ==> r.value == ArchivedGroup(g, at))
  {
    hide NextPolicy, OwnerFor, RequireClosing, FindFence, StatusCheck, ParticipantsCheck, InvitationsCheck,
         DeleteEligibleAt;
  }

  predicate BothEligible(receipts: seq<FenceReceipt>) {
    && FindFence(receipts, ExpenseRecording).Some? && FindFence(receipts, ExpenseRecording).value.eligible
    && FindFence(receipts, Settlement).Some? && FindFence(receipts, Settlement).value.eligible
  }

  lemma EligibleIs(groupId: string, c: ClosingState)
    requires ClosingFine(groupId, c)
    ensures BothEligible(c.fenceReceipts) <==>
            Eligible(c.fenceReceipts, ExpenseRecording) && Eligible(c.fenceReceipts, Settlement)
  {
    forall r | r in c.fenceReceipts ensures FindFence(c.fenceReceipts, r.fence.context) == Some(r) {
      FenceFound(groupId, c, r);
    }
    hide ClosingFine, FindFence;
  }

  lemma ArchivedFine(g: Group, at: int)
    requires WellFormed(g) && g.status == Closing && HasRoom(g)
    ensures WellFormed(ArchivedGroup(g, at))
  {
    hide PeopleFine, InvitationsFine, ClosingFine, DeleteEligibleAt;
  }

  lemma ArchiveSays(g: Group, actor: string, id: string, at: int)
    ensures May(g, ToArchive(actor, id, at)) <==>
            InPhase(g, Fencing) && g.closing.Some? && g.closing.value.closeIntentId == id && Owns(g, actor) &&
            HasRoom(g) && Eligible(g.closing.value.fenceReceipts, ExpenseRecording) &&
            Eligible(g.closing.value.fenceReceipts, Settlement)
    ensures Does(g, ToArchive(actor, id, at), ArchivedGroup(g, at))
  {
    hide HasRoom, Owns, Eligible, DeleteEligibleAt;
  }

  lemma ArchiveExact(g: Group, actor: string, id: string, at: int)
    requires WellFormed(g)
    ensures Archive(g, actor, id, at).Ok? <==> May(g, ToArchive(actor, id, at))
    ensures Archive(g, actor, id, at).Ok? ==> Does(g, ToArchive(actor, id, at), Archive(g, actor, id, at).value)
  {
    hide *;
    FineParts(g);
    PolicyIs(g);
    OwnerHere(g, actor);
    ClosingParts(g, Fencing);
    ArchiveUnfolds(g, actor, id, at);
    ArchiveSays(g, actor, id, at);
    if InPhase(g, Fencing) {
      EligibleIs(g.id, g.closing.value);
      if HasRoom(g) {
        ArchivedFine(g, at);
        RestorableExact(ArchivedGroup(g, at));
      }
    }
  }

  lemma ReserveUnfolds(g: Group, actor: string, id: string)
    requires NextPolicy(g).Ok? ==> NextPolicy(g).value == g.accessPolicyVersion + 1
    requires g.closing.Some?
    ensures var r, closing, g' := ReserveCancellation(g, actor, id), RequireClosing(g, Fencing),
                                  ClosingWith(g, g.closing.value.(phase := Canceling));
            && (r.Ok? <==> closing.Ok? && closing.value.closeIntentId == id && OwnerFor(g, actor).Ok? &&
                           NextPolicy(g).Ok? && Restorable(g'))
            && (r.Ok? ==> r.value == g')
  {
    hide NextPolicy, OwnerFor, StatusCheck, ParticipantsCheck, InvitationsCheck;
  }

  lemma ReserveNeedsClosing(g: Group, actor: string, id: string)
    requires !InPhase(g, Fencing)
    ensures ReserveCancellation(g, actor, id).Err? && !May(g, ToReserve(actor, id))
  {
    hide Restore;
  }

  lemma ReserveSays(g: Group, actor: string, id: string)
    requires g.closing.Some?
    ensures May(g, ToReserve(actor, id)) <==>
            InPhase(g, Fencing) && g.closing.value.closeIntentId == id && Owns(g, actor) && HasRoom(g)
    ensures forall g' :: Does(g, ToReserve(actor, id), g') <==>
                         ClosingNow(g, g.closing.value.(phase := Canceling), g')
  {
    hide HasRoom, Owns, ClosingNow;
  }

  lemma CancelingFine(groupId: string, c: ClosingState)
    requires ClosingFine(groupId, c)
    ensures ClosingFine(groupId, c.(phase := Canceling))
  {
    hide Removes;
  }

  lemma ReserveExact(g: Group, actor: string, id: string)
    requires WellFormed(g)
    ensures ReserveCancellation(g, actor, id).Ok? <==> May(g, ToReserve(actor, id))
    ensures ReserveCancellation(g, actor, id).Ok? ==>
            Does(g, ToReserve(actor, id), ReserveCancellation(g, actor, id).value)
  {
    hide *;
    FineParts(g);
    PolicyIs(g);
    OwnerHere(g, actor);
    ClosingParts(g, Fencing);
    if InPhase(g, Fencing) {
      var c := g.closing.value.(phase := Canceling);
      ReserveUnfolds(g, actor, id);
      ReserveSays(g, actor, id);
      ClosingWithIs(g, c);
      if HasRoom(g) {
        CancelingFine(g.id, g.closing.value);
        ClosingRestores(g, c);
      }
    } else {
      ReserveNeedsClosing(g, actor, id);
    }
  }

  function ReopenedGroup(g: Group): Group {
    g.(status := Active, accessPolicyVersion := g.accessPolicyVersion + 1, closing := None)
  }

  lemma CompleteUnfolds(g: Group, actor: string, id: string)
    requires NextPolicy(g).Ok? ==> NextPolicy(g).value == g.accessPolicyVersion + 1
    ensures var r, closing := CompleteCancellation(g, actor, id), RequireClosing(g, Canceling);
            && (r.Ok? <==> closing.Ok? && closing.value.closeIntentId == id && OwnerFor(g, actor).Ok? &&
                           FindUnfence(closing.value.unfenceReceipts, ExpenseRecording).Some? &&
                           FindUnfence(closing.value.unfenceReceipts, Settlement).Some? && NextPolicy(g).Ok? &&
                           Restorable(ReopenedGroup(g)))
            && (r.Ok? ==> r.value == ReopenedGroup(g))
  {
    hide NextPolicy, OwnerFor, RequireClosing, FindUnfence, StatusCheck, ParticipantsCheck, InvitationsCheck;
  }

  lemma ReopenedFine(g: Group)
    requires WellFormed(g) && g.status == Closing && HasRoom(g)
    ensures WellFormed(ReopenedGroup(g))
  {
    hide PeopleFine, InvitationsFine, ClosingFine, ActivePlaces, TakesPart;
  }

  lemma CompleteSays(g: Group, actor: string, id: string)
    ensures May(g, ToComplete(actor, id)) <==>
            InPhase(g, Canceling) && g.closing.Some? && g.closing.value.closeIntentId == id && Owns(g, actor) &&
            HasRoom(g) && Unfenced(g.closing.value.unfenceReceipts, ExpenseRecording) &&
            Unfenced(g.closing.value.unfenceReceipts, Settlement)
    ensures Does(g, ToComplete(actor, id), ReopenedGroup(g))
  {
    hide HasRoom, Owns, Unfenced;
  }

  lemma UnfencedIs(receipts: seq<Fence>, context: Context)
    ensures FindUnfence(receipts, context).Some? <==> Unfenced(receipts, context)
  {
  }

  lemma CompleteExact(g: Group, actor: string, id: string)
    requires WellFormed(g)
    ensures CompleteCancellation(g, actor, id).Ok? <==> May(g, ToComplete(actor, id))
    ensures CompleteCancellation(g, actor, id).Ok? ==>
            Does(g, ToComplete(actor, id), CompleteCancellation(g, actor, id).value)
  {
    hide *;
    FineParts(g);
    PolicyIs(g);
    OwnerHere(g, actor);
    ClosingParts(g, Canceling);
    CompleteUnfolds(g, actor, id);
    CompleteSays(g, actor, id);
    if InPhase(g, Canceling) {
      UnfencedIs(g.closing.value.unfenceReceipts, ExpenseRecording);
      UnfencedIs(g.closing.value.unfenceReceipts, Settlement);
      if HasRoom(g) {
        ReopenedFine(g);
        RestorableExact(ReopenedGroup(g));
      }
    }
  }

  // ---- all of them ----

  lemma MaySays(g: Group, t: Transition)
    ensures t.ToLeave? ==> (May(g, t) <==> MayLeave(g, t.actor, t.participantId, t.at))
    ensures t.ToInvite? ==> (May(g, t) <==> MayInvite(g, t.actor, t.invitationId, t.target, t.at))
    ensures t.ToAccept? ==> (May(g, t) <==> MayAccept(g, t.actor, t.invitationId, t.participantId, t.at))
    ensures t.ToRecordFence? ==> (May(g, t) <==> MayFence(g, t.receipt))
    ensures t.ToRecordUnfence? ==> (May(g, t) <==> MayUnfence(g, t.unfence))
    ensures t.ToLeave? ==> forall g' :: Does(g, t, g') <==> HasLeft(g, t.participantId, t.at, g')
    ensures t.ToAccept? ==>
            forall g' :: Does(g, t, g') <==> HasJoined(g, t.actor, t.invitationId, t.participantId, t.at, g')
  {
    hide MayLeave, MayInvite, MayAccept, MayFence, MayUnfence, HasLeft, HasJoined;
  }

  lemma ApplySays(g: Group, t: Transition)
    ensures Apply(g, t) == match t
                           case ToTransfer(a, p) => TransferOwnership(g, a, p)
                           case ToLeave(a, p, at) => Leave(g, a, p, at)
                           case ToInvite(a, i, s, at) => Invite(g, a, i, s, at)
                           case ToCancelInvitation(a, i, at) => CancelInvitation(g, a, i, at)
                           case ToAccept(a, i, p, at) => AcceptInvitation(g, a, i, p, at)
                           case ToStartClosing(a, i, cutoff) => StartClosing(g, a, i, cutoff)
                           case ToRecordFence(r) => RecordFence(g, r)
                           case ToArchive(a, i, at) => Archive(g, a, i, at)
                           case ToReserve(a, i) => ReserveCancellation(g, a, i)
                           case ToRecordUnfence(r) => RecordUnfence(g, r)
                           case ToComplete(a, i) => CompleteCancellation(g, a, i)
  {
    hide TransferOwnership, Leave, Invite, CancelInvitation, AcceptInvitation, StartClosing, RecordFence, Archive,
         ReserveCancellation, RecordUnfence, CompleteCancellation;
  }

  /**
   * A group that meets the rules accepts a transition exactly when its own conditions hold, and what follows is exactly
   * what the transition says: checking the result against the rules again refuses nothing more.
   */
  lemma TransitionExact(g: Group, t: Transition)
    requires WellFormed(g)
    ensures Apply(g, t).Ok? <==> May(g, t)
    ensures Apply(g, t).Ok? ==> Does(g, t, Apply(g, t).value) && WellFormed(Apply(g, t).value)
  {
    hide *;
    ApplySays(g, t);
    MaySays(g, t);
    if Apply(g, t).Ok? {
      StaysFine(g, t);
    }
    match t
    case ToTransfer(a, p) => TransferExact(g, a, p);
    case ToLeave(a, p, at) => LeaveExact(g, a, p, at);
    case ToInvite(a, i, s, at) => InviteExact(g, a, i, s, at);
    case ToCancelInvitation(a, i, at) => CancelExact(g, a, i, at);
    case ToAccept(a, i, p, at) => AcceptExact(g, a, i, p, at);
    case ToStartClosing(a, i, cutoff) => StartExact(g, a, i, cutoff);
    case ToRecordFence(r) => FenceExact(g, r);
    case ToArchive(a, i, at) => ArchiveExact(g, a, i, at);
    case ToReserve(a, i) => ReserveExact(g, a, i);
    case ToRecordUnfence(r) => UnfenceExact(g, r);
    case ToComplete(a, i) => CompleteExact(g, a, i);
  }

  lemma StaysFine(g: Group, t: Transition)
    requires WellFormed(g) && Apply(g, t).Ok?
    ensures WellFormed(Apply(g, t).value)
  {
    hide *;
    RestorableExact(g);
    StepRestores(g, t);
    RestorableExact(Apply(g, t).value);
  }

  /** A new group has its creator as its only participant, who owns it. */
  lemma CreateExact(id: string, participantId: string, subject: string, at: int)
    ensures Create(id, participantId, subject, at) ==
            Ok(Group(id, Active, Some(participantId), [Participant(participantId, subject, at, 1, true, None)], [], 1,
                     None, None, None, None))
  {
    var g := Group(id, Active, Some(participantId), [Participant(participantId, subject, at, 1, true, None)], [], 1,
                   None, None, None, None);
    assert ActivePlaces(g.participants) == {0};
    assert g.participants[0] in g.participants;
    RestorableExact(g);
    assert WellFormed(g);
    hide StatusCheck, ParticipantsCheck, InvitationsCheck;
  }
}
