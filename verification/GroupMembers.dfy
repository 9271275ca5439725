/** How people come to a group and leave it: each transition is accepted exactly when its own conditions hold. */
module GroupMembers {
  import opened Outcomes
  import opened Sequences
  import opened Text
  import opened GroupRoot
  import opened GroupRuns
  import opened GroupRules
  import opened GroupTransitions

  // ---- the transitions, one by one ----

  lemma TransferExact(g: Group, actor: string, target: string)
    requires WellFormed(g)
    ensures TransferOwnership(g, actor, target).Ok? <==> May(g, ToTransfer(actor, target))
    ensures TransferOwnership(g, actor, target).Ok? ==>
            Does(g, ToTransfer(actor, target), TransferOwnership(g, actor, target).value)
  {
    hide *;
    FineParts(g);
    PolicyIs(g);
    TransferUnfolds(g, actor, target);
    TransferSays(g, actor, target);
    forall p | p in g.participants ensures FindParticipant(g.participants, p.id) == Some(p) {
      FoundIs(g.participants, p);
    }
  }

  lemma TransferUnfolds(g: Group, actor: string, target: string)
    requires NextPolicy(g).Ok? ==> NextPolicy(g).value == g.accessPolicyVersion + 1
    ensures var owner, next, r := if g.ownerParticipantId.Some?
                                  then FindParticipant(g.participants, g.ownerParticipantId.value) else None,
                                  FindParticipant(g.participants, target), TransferOwnership(g, actor, target);
            && (r.Ok? <==> g.status == Active && owner.Some? && owner.value.subject == actor && next.Some? &&
                           next.value.active && (g.ownerParticipantId == Some(target) || NextPolicy(g).Ok?))
            && (r.Ok? ==> Does(g, ToTransfer(actor, target), r.value))
  {
    hide NextPolicy, FindParticipant;
  }

  lemma TransferSays(g: Group, actor: string, target: string)
    ensures May(g, ToTransfer(actor, target)) <==>
            g.status == Active && g.ownerParticipantId.Some? &&
            (exists p :: p in g.participants && p.id == g.ownerParticipantId.value && p.subject == actor) &&
            (exists p :: p in g.participants && p.id == target && p.active) &&
            (g.ownerParticipantId == Some(target) || HasRoom(g))
  {
    hide HasRoom;
  }

  function LeftGroup(g: Group, id: string, at: int): Group {
    g.(participants := Map(g.participants, Leaving(id, at)), accessPolicyVersion := g.accessPolicyVersion + 1)
  }

  lemma LeaveSays(g: Group, actor: string, id: string, at: int)
    requires PeopleFine(g.participants) && 1 <= g.accessPolicyVersion <= MAX_SAFE && g.ownerParticipantId.Some?
    ensures Leave(g, actor, id, at).Ok? <==>
            g.status == Active && HasRoom(g) && g.ownerParticipantId != Some(id) &&
            (exists p :: p in g.participants && p.id == id && p.subject == actor && p.active && p.joinedAt <= at) &&
            Restorable(LeftGroup(g, id, at))
    ensures Leave(g, actor, id, at).Ok? ==> Leave(g, actor, id, at).value == LeftGroup(g, id, at)
  {
    hide *;
    PolicyIs(g);
    LeaveUnfolds(g, actor, id, at);
    forall p | p in g.participants ensures FindParticipant(g.participants, p.id) == Some(p) {
      FoundIs(g.participants, p);
    }
  }

  lemma LeaveUnfolds(g: Group, actor: string, id: string, at: int)
    requires g.ownerParticipantId.Some? && (NextPolicy(g).Ok? ==> NextPolicy(g).value == g.accessPolicyVersion + 1)
    ensures var p := FindParticipant(g.participants, id);
            Leave(g, actor, id, at).Ok? <==>
            g.status == Active && NextPolicy(g).Ok? && g.ownerParticipantId != Some(id) &&
            p.Some? && p.value.subject == actor && p.value.active && p.value.joinedAt <= at &&
            Restorable(LeftGroup(g, id, at))
    ensures Leave(g, actor, id, at).Ok? ==> Leave(g, actor, id, at).value == LeftGroup(g, id, at)
  {
    hide NextPolicy, FindParticipant, StatusCheck, ParticipantsCheck, InvitationsCheck, Leaving;
  }

  /** Leaving is refused besides exactly for an invitation the person issued at that time or later. */
  lemma LeftFine(g: Group, id: string, at: int)
    requires WellFormed(g) && g.status == Active && HasRoom(g) && g.ownerParticipantId != Some(id)
    requires exists p :: p in g.participants && p.id == id && p.active && p.joinedAt <= at
    ensures WellFormed(LeftGroup(g, id, at)) <==>
            forall i | i in g.invitations && i.issuerParticipantId == id :: i.createdAt < at
  {
    hide *;
    FineParts(g);
    FineParts(LeftGroup(g, id, at));
    LeftPeople(g.participants, id, at);
    LeftStays(g, id, at);
    LeftInvitations(g, id, at);
    LeftSays(g, id, at);
  }

  lemma FineParts(g: Group)
    ensures WellFormed(g) <==> 1 <= g.accessPolicyVersion <= MAX_SAFE && PeopleFine(g.participants) &&
                               InvitationsFine(g.invitations, g.participants) && StatusFine(g)
    ensures g.status == Active ==> (StatusFine(g) <==> Led(g) && g.closing == None && Unarchived(g))
    ensures g.status == Closing ==> (StatusFine(g) <==> Led(g) && Unarchived(g) && g.closing.Some? &&
                                                        ClosingFine(g.id, g.closing.value))
    ensures HasRoom(g) <==> g.accessPolicyVersion < MAX_SAFE
  {
    hide PeopleFine, InvitationsFine, Led, Unarchived, ClosingFine;
  }

  lemma LeftSays(g: Group, id: string, at: int)
    ensures var g' := LeftGroup(g, id, at);
            && g' == g.(participants := g'.participants, accessPolicyVersion := g.accessPolicyVersion + 1)
            && g'.participants == Map(g.participants, Leaving(id, at)) && (Unarchived(g') <==> Unarchived(g))
  {
  }

  lemma LeftPeople(ps: seq<Participant>, id: string, at: int)
    requires PeopleFine(ps) && exists p :: p in ps && p.id == id && p.active && p.joinedAt <= at
    ensures PeopleFine(Map(ps, Leaving(id, at)))
  {
    var ps' := Map(ps, Leaving(id, at));
    var p :| p in ps && p.id == id && p.active && p.joinedAt <= at;
    LeftDistinct(ps, id, at);
    forall q | q in ps' ensures PersonFine(q) {
      var k :| 0 <= k < |ps'| && ps'[k] == q;
      assert ps[k] in ps && PersonFine(ps[k]);
      FoundIs(ps, p);
      FoundIs(ps, ps[k]);
    }
    hide PersonFine;
  }

  lemma LeftDistinct(ps: seq<Participant>, id: string, at: int)
    requires PeopleFine(ps)
    ensures var ps' := Map(ps, Leaving(id, at));
            && (forall i, j | 0 <= i < j < |ps'| :: ps'[i].id != ps'[j].id && ps'[i].joinOrder != ps'[j].joinOrder)
            && forall i, j | 0 <= i < j < |ps'| && ps'[i].active && ps'[j].active :: ps'[i].subject != ps'[j].subject
  {
    hide PersonFine;
  }

  lemma LeftStays(g: Group, id: string, at: int)
    requires Led(g) && g.ownerParticipantId != Some(id)
    ensures Led(LeftGroup(g, id, at))
  {
    var g' := LeftGroup(g, id, at);
    var p :| p in g.participants && p.id == g.ownerParticipantId.value && p.active;
    var k :| 0 <= k < |g.participants| && g.participants[k] == p;
    assert g'.participants[k] == p && p in g'.participants;
    assert k in ActivePlaces(g'.participants);
    assert ActivePlaces(g'.participants) <= ActivePlaces(g.participants);
    SubsetSmaller(ActivePlaces(g'.participants), ActivePlaces(g.participants));
    assert ActivePlaces(g'.participants) != {};
  }

  lemma LeftInvitations(g: Group, id: string, at: int)
    requires PeopleFine(g.participants) && InvitationsFine(g.invitations, g.participants)
    requires exists p :: p in g.participants && p.id == id && p.active && p.joinedAt <= at
    ensures InvitationsFine(g.invitations, Map(g.participants, Leaving(id, at))) <==>
            forall i | i in g.invitations && i.issuerParticipantId == id :: i.createdAt < at
  {
    hide PeopleFine, TookPart, JoinedWithin;
    forall i | i in g.invitations
      ensures InvitationFine(i, Map(g.participants, Leaving(id, at))) <==>
              (i.issuerParticipantId == id ==> i.createdAt < at)
    {
      LeftTookPart(g.participants, id, at, i.issuerParticipantId, i.createdAt);
      if i.resultingParticipantId.Some? {
        LeftJoined(g.participants, id, at, i.resultingParticipantId.value, i.targetSubject, i.createdAt, i.expiryAt);
      }
    }
    hide InvitationFine;
  }

  lemma LeftTookPart(ps: seq<Participant>, id: string, at: int, issuer: string, then_: int)
    requires PeopleFine(ps) && TookPart(ps, issuer, then_)
    requires exists p :: p in ps && p.id == id && p.active && p.joinedAt <= at
    ensures TookPart(Map(ps, Leaving(id, at)), issuer, then_) <==> (issuer == id ==> then_ < at)
  {
    var ps' := Map(ps, Leaving(id, at));
    var q :| q in ps && q.id == issuer && q.joinedAt <= then_ && (q.leftAt.Some? ==> then_ < q.leftAt.value);
    var k :| 0 <= k < |ps| && ps[k] == q;
    hide PeopleFine;
    assert ps'[k] in ps' && ps'[k].id == issuer;
    forall q' | q' in ps' && q'.id == issuer ensures q'.leftAt == if issuer == id then Some(at) else q.leftAt {
      var m :| 0 <= m < |ps'| && ps'[m] == q';
      assert ps[m] in ps;
      FoundIs(ps, ps[m]);
      FoundIs(ps, q);
    }
  }

  lemma LeftJoined(ps: seq<Participant>, id: string, at: int, joined: string, subject: string, from: int, until: int)
    ensures JoinedWithin(ps, joined, subject, from, until) ==>
            JoinedWithin(Map(ps, Leaving(id, at)), joined, subject, from, until)
  {
    if JoinedWithin(ps, joined, subject, from, until) {
      var p :| p in ps && p.id == joined && p.subject == subject && from <= p.joinedAt < until;
      var k :| 0 <= k < |ps| && ps[k] == p;
      assert Map(ps, Leaving(id, at))[k] in Map(ps, Leaving(id, at));
    }
  }

  lemma LeaveExact(g: Group, actor: string, id: string, at: int)
    requires WellFormed(g)
    ensures Leave(g, actor, id, at).Ok? <==> MayLeave(g, actor, id, at)
    ensures Leave(g, actor, id, at).Ok? ==> HasLeft(g, id, at, Leave(g, actor, id, at).value)
  {
    hide *;
    FineParts(g);
    if g.status == Active {
      LedHasOwner(g);
      LeaveSays(g, actor, id, at);
      RestorableExact(LeftGroup(g, id, at));
      MayLeaveSays(g, actor, id, at);
      HasLeftSays(g, id, at);
      if HasRoom(g) && g.ownerParticipantId != Some(id) &&
         exists p :: p in g.participants && p.id == id && p.active && p.joinedAt <= at {
        LeftFine(g, id, at);
      }
    } else {
      OnlyWhenActive(g, actor, id, at);
    }
  }

  lemma LedHasOwner(g: Group)
    requires Led(g)
    ensures g.ownerParticipantId.Some?
  {
  }

  lemma OnlyWhenActive(g: Group, actor: string, id: string, at: int)
    requires g.status != Active
    ensures Leave(g, actor, id, at).Err? && !MayLeave(g, actor, id, at)
  {
    hide Restore;
  }

  lemma MayLeaveSays(g: Group, actor: string, id: string, at: int)
    ensures MayLeave(g, actor, id, at) <==>
            g.status == Active && HasRoom(g) && g.ownerParticipantId != Some(id) &&
            (exists p :: p in g.participants && p.id == id && p.subject == actor && p.active && p.joinedAt <= at) &&
            forall i | i in g.invitations && i.issuerParticipantId == id :: i.createdAt < at
  {
  }

  lemma HasLeftSays(g: Group, id: string, at: int)
    ensures HasLeft(g, id, at, LeftGroup(g, id, at))
  {
  }

  // ---- invitations ----

  lemma InvitationsSay(list: seq<Invitation>, ps: seq<Participant>)
    ensures InvitationsFine(list, ps) <==>
            (forall i, j | 0 <= i < j < |list| :: list[i].id != list[j].id) &&
            forall i | i in list :: InvitationFine(i, ps)
  {
    hide InvitationFine;
  }

  /** An active group keeps its people when only its invitations and the policy version change. */
  lemma OnlyInvitations(g: Group, g': Group)
    requires WellFormed(g) && g.status == Active && HasRoom(g)
    requires g' == g.(invitations := g'.invitations, accessPolicyVersion := g.accessPolicyVersion + 1)
    ensures WellFormed(g') <==> InvitationsFine(g'.invitations, g.participants)
  {
    hide PeopleFine, InvitationsFine, ActivePlaces, TakesPart;
  }

  function InvitedGroup(g: Group, owner: string, id: string, target: string, at: int): Group {
    g.(invitations := g.invitations + [Invitation(id, target, owner, at, at + WEEK, Pending, None)],
       accessPolicyVersion := g.accessPolicyVersion + 1)
  }

  lemma InviteUnfolds(g: Group, actor: string, id: string, target: string, at: int)
    requires NextPolicy(g).Ok? ==> NextPolicy(g).value == g.accessPolicyVersion + 1
    ensures var r, owner := Invite(g, actor, id, target, at), OwnerFor(g, actor);
            && (r.Ok? <==> g.status == Active && owner.Ok? && ActiveCount(g.participants) < 4 &&
                           !ActiveSubject(g.participants, target) && FindInvitation(g.invitations, id).None? &&
                           NextPolicy(g).Ok? && Restorable(InvitedGroup(g, owner.value.id, id, target, at)))
            && (r.Ok? ==> r.value == InvitedGroup(g, owner.value.id, id, target, at))
  {
    hide NextPolicy, OwnerFor, ActiveCount, ActiveSubject, FindInvitation, StatusCheck, ParticipantsCheck,
         InvitationsCheck;
  }

  lemma InvitedFine(g: Group, id: string, target: string, at: int)
    requires WellFormed(g) && g.status == Active && HasRoom(g) && g.ownerParticipantId.Some?
    requires forall i | i in g.invitations :: i.id != id
    ensures WellFormed(InvitedGroup(g, g.ownerParticipantId.value, id, target, at)) <==>
            TookPart(g.participants, g.ownerParticipantId.value, at)
  {
    hide *;
    FineParts(g);
    var g' := InvitedGroup(g, g.ownerParticipantId.value, id, target, at);
    InvitedSays(g, id, target, at);
    OnlyInvitations(g, g');
    InvitationsSay(g.invitations, g.participants);
    InvitationsSay(g'.invitations, g.participants);
    var new_ := g'.invitations[|g.invitations|];
    NewFine(new_, g.participants);
    OneMoreListed(g.invitations, new_);
  }

  lemma OneMoreListed(list: seq<Invitation>, i: Invitation)
    ensures forall x :: x in list + [i] <==> x in list || x == i
    ensures (forall m, n | 0 <= m < n < |list| :: list[m].id != list[n].id) &&
            (forall x | x in list :: x.id != i.id) ==>
            forall m, n | 0 <= m < n < |list + [i]| :: (list + [i])[m].id != (list + [i])[n].id
  {
  }

  lemma InvitedSays(g: Group, id: string, target: string, at: int)
    requires g.ownerParticipantId.Some?
    ensures var g' := InvitedGroup(g, g.ownerParticipantId.value, id, target, at);
            && g' == g.(invitations := g'.invitations, accessPolicyVersion := g.accessPolicyVersion + 1)
            && g'.invitations == g.invitations + [Invitation(id, target, g.ownerParticipantId.value, at,
                                                             at + 604_800_000, Pending, None)]
            && Does(g, ToInvite("", id, target, at), g')
  {
  }

  lemma NewFine(i: Invitation, ps: seq<Participant>)
    requires i.expiryAt == i.createdAt + 604_800_000 && i.status == Pending && i.resultingParticipantId == None
    ensures InvitationFine(i, ps) <==> TookPart(ps, i.issuerParticipantId, i.createdAt)
  {
    hide TookPart;
  }

  /** The owner, who takes part, did so at a time exactly when they had joined by then. */
  lemma OwnerTookPart(g: Group, actor: string, at: int)
    requires PeopleFine(g.participants) && Led(g) && Owns(g, actor)
    ensures g.ownerParticipantId.Some? && TookPart(g.participants, g.ownerParticipantId.value, at) <==>
            exists p :: p in g.participants && p.id == g.ownerParticipantId.value && p.subject == actor &&
                        p.joinedAt <= at
  {
    var p :| p in g.participants && p.id == g.ownerParticipantId.value && p.active;
    assert PersonFine(p);
    forall q | q in g.participants && q.id == p.id ensures q == p {
      FoundIs(g.participants, p);
      FoundIs(g.participants, q);
    }
    hide PeopleFine, PersonFine;
  }

  lemma PlacesCounted(g: Group, target: string)
    ensures ActiveCount(g.participants) < 4 && !ActiveSubject(g.participants, target) <==> Admits(g, target)
  {
    ActiveCounted(g.participants);
    hide ActiveCount, ActivePlaces;
  }

  lemma MayInviteSays(g: Group, actor: string, id: string, target: string, at: int)
    ensures MayInvite(g, actor, id, target, at) <==>
            g.status == Active && HasRoom(g) && g.ownerParticipantId.Some? &&
            (exists p :: p in g.participants && p.id == g.ownerParticipantId.value && p.subject == actor &&
                         p.joinedAt <= at) &&
            Admits(g, target) && forall i | i in g.invitations :: i.id != id
    ensures MayInvite(g, actor, id, target, at) ==> Owns(g, actor)
  {
    hide HasRoom, Admits;
  }

  lemma OwnerHere(g: Group, actor: string)
    requires PeopleFine(g.participants)
    ensures OwnerFor(g, actor).Ok? <==> Owns(g, actor)
    ensures OwnerFor(g, actor).Ok? ==> g.ownerParticipantId == Some(OwnerFor(g, actor).value.id)
  {
    OwnerExact(g, actor);
    hide OwnerFor, Owns, PeopleFine;
  }

  lemma InviteExact(g: Group, actor: string, id: string, target: string, at: int)
    requires WellFormed(g)
    ensures Invite(g, actor, id, target, at).Ok? <==> MayInvite(g, actor, id, target, at)
    ensures Invite(g, actor, id, target, at).Ok? ==>
            Does(g, ToInvite(actor, id, target, at), Invite(g, actor, id, target, at).value)
  {
    hide *;
    FineParts(g);
    PolicyIs(g);
    OwnerHere(g, actor);
    InviteUnfolds(g, actor, id, target, at);
    PlacesCounted(g, target);
    MayInviteSays(g, actor, id, target, at);
    if g.status == Active && Owns(g, actor) {
      OwnerTookPart(g, actor, at);
      RestorableExact(InvitedGroup(g, g.ownerParticipantId.value, id, target, at));
      InvitedSays(g, id, target, at);
      InviteActor(g, actor, id, target, at);
      if HasRoom(g) && forall i | i in g.invitations :: i.id != id {
        InvitedFine(g, id, target, at);
      }
    }
  }

  lemma InviteActor(g: Group, actor: string, id: string, target: string, at: int)
    ensures forall g' :: Does(g, ToInvite(actor, id, target, at), g') <==> Does(g, ToInvite("", id, target, at), g')
  {
  }

  /** The invitation listed under the identifier is the one the lookup finds. */
  lemma ListedOnce(g: Group, id: string)
    requires InvitationsFine(g.invitations, g.participants)
    ensures var found := FindInvitation(g.invitations, id);
            && (found.Some? ==> found.value in g.invitations && found.value.id == id)
            && forall i | i in g.invitations && i.id == id :: found == Some(i)
  {
    forall i | i in g.invitations && i.id == id ensures FindInvitation(g.invitations, id) == Some(i) {
      InvitationFound(g.invitations, g.participants, i);
    }
    hide InvitationsFine;
  }

  function MarkedGroup(g: Group, i: Invitation): Group {
    g.(invitations := Map(g.invitations, WithInvitation(i)), accessPolicyVersion := g.accessPolicyVersion + 1)
  }

  lemma Marked(list: seq<Invitation>, ps: seq<Participant>, i: Invitation, status: InvitationStatus,
               result: Option<string>)
    requires InvitationsFine(list, ps) && i in list
    ensures var after := Map(list, WithInvitation(i.(status := status, resultingParticipantId := result)));
            && InvitationNow(list, i.id, status, result, after)
            && (forall m, n | 0 <= m < n < |after| :: after[m].id != after[n].id)
            && forall x | x in after :: x == i.(status := status, resultingParticipantId := result) || x in list
  {
    hide InvitationFine;
    var after := Map(list, WithInvitation(i.(status := status, resultingParticipantId := result)));
    var k :| 0 <= k < |list| && list[k] == i;
    forall m | 0 <= m < |list| ensures list[m].id == i.id ==> list[m] == i {
      assert if m < k then list[m].id != list[k].id else m > k ==> list[k].id != list[m].id;
    }
    forall x | x in after ensures x == i.(status := status, resultingParticipantId := result) || x in list {
      var m :| 0 <= m < |after| && after[m] == x;
      assert list[m] in list;
    }
  }

  lemma CancelUnfolds(g: Group, actor: string, id: string, at: int)
    requires NextPolicy(g).Ok? ==> NextPolicy(g).value == g.accessPolicyVersion + 1
    ensures var r, i := CancelInvitation(g, actor, id, at), FindInvitation(g.invitations, id);
            && (r.Ok? <==> g.status == Active && OwnerFor(g, actor).Ok? && i.Some? && Open(i.value, id, at) &&
                           NextPolicy(g).Ok? && Restorable(MarkedGroup(g, i.value.(status := Cancelled))))
            && (r.Ok? ==> r.value == MarkedGroup(g, i.value.(status := Cancelled)))
  {
    hide NextPolicy, OwnerFor, FindInvitation, StatusCheck, ParticipantsCheck, InvitationsCheck, WithInvitation;
  }

  lemma CancelledFine(g: Group, i: Invitation)
    requires WellFormed(g) && g.status == Active && HasRoom(g) && i in g.invitations && i.status == Pending
    ensures WellFormed(MarkedGroup(g, i.(status := Cancelled)))
    ensures InvitationNow(g.invitations, i.id, Cancelled, None, MarkedGroup(g, i.(status := Cancelled)).invitations)
  {
    hide *;
    FineParts(g);
    var g' := MarkedGroup(g, i.(status := Cancelled));
    MarkedSays(g, i.(status := Cancelled));
    InvitationsSay(g.invitations, g.participants);
    InvitationsSay(g'.invitations, g.participants);
    Unconsumed(i, g.participants);
    Marked(g.invitations, g.participants, i, Cancelled, None);
    OnlyInvitations(g, g');
  }

  lemma MarkedSays(g: Group, i: Invitation)
    ensures var g' := MarkedGroup(g, i);
            && g' == g.(invitations := g'.invitations, accessPolicyVersion := g.accessPolicyVersion + 1)
            && g'.invitations == Map(g.invitations, WithInvitation(i))
  {
  }

  lemma Unconsumed(i: Invitation, ps: seq<Participant>)
    requires InvitationFine(i, ps) && i.status == Pending
    ensures i.resultingParticipantId == None && InvitationFine(i.(status := Cancelled), ps)
  {
    hide TookPart, JoinedWithin;
  }

  lemma CancelSays(g: Group, actor: string, id: string, at: int)
    ensures May(g, ToCancelInvitation(actor, id, at)) <==>
            g.status == Active && HasRoom(g) && Owns(g, actor) && exists i :: i in g.invitations && Open(i, id, at)
    ensures forall i :: Open(i, id, at) ==> i.id == id && i.status == Pending
    ensures forall i, g' | g' == MarkedGroup(g, i) ::
              Does(g, ToCancelInvitation(actor, id, at), g') <==>
              InvitationNow(g.invitations, id, Cancelled, None, g'.invitations)
  {
    hide HasRoom, Owns, InvitationNow;
  }

  lemma CancelExact(g: Group, actor: string, id: string, at: int)
    requires WellFormed(g)
    ensures CancelInvitation(g, actor, id, at).Ok? <==> May(g, ToCancelInvitation(actor, id, at))
    ensures CancelInvitation(g, actor, id, at).Ok? ==>
            Does(g, ToCancelInvitation(actor, id, at), CancelInvitation(g, actor, id, at).value)
  {
    hide *;
    FineParts(g);
    PolicyIs(g);
    OwnerHere(g, actor);
    ListedOnce(g, id);
    CancelUnfolds(g, actor, id, at);
    CancelSays(g, actor, id, at);
    var i := FindInvitation(g.invitations, id);
    if g.status == Active && HasRoom(g) && i.Some? && Open(i.value, id, at) {
      CancelledFine(g, i.value);
      RestorableExact(MarkedGroup(g, i.value.(status := Cancelled)));
    }
  }

  // ---- joining ----

  function JoinedGroup(g: Group, i: Invitation, p: Participant): Group {
    g.(participants := g.participants + [p],
       invitations := Map(g.invitations, WithInvitation(i.(status := Consumed, resultingParticipantId := Some(p.id)))),
       accessPolicyVersion := g.accessPolicyVersion + 1)
  }

  function NewPerson(g: Group, actor: string, participantId: string, at: int): Participant {
    Participant(participantId, actor, at, LastJoinOrder(g.participants) + 1, true, None)
  }

  lemma AcceptUnfolds(g: Group, actor: string, id: string, participantId: string, at: int)
    requires NextPolicy(g).Ok? ==> NextPolicy(g).value == g.accessPolicyVersion + 1
    ensures var r, i, p := AcceptInvitation(g, actor, id, participantId, at), FindInvitation(g.invitations, id),
                           NewPerson(g, actor, participantId, at);
            && (r.Ok? <==> g.status == Active && i.Some? && Open(i.value, id, at) && i.value.targetSubject == actor &&
                           ActiveCount(g.participants) < 4 && !ActiveSubject(g.participants, actor) &&
                           FindParticipant(g.participants, participantId).None? && p.joinOrder <= MAX_SAFE &&
                           NextPolicy(g).Ok? && Restorable(JoinedGroup(g, i.value, p)))
            && (r.Ok? ==> r.value == JoinedGroup(g, i.value, p))
  {
    hide NextPolicy, FindParticipant, FindInvitation, ActiveCount, ActiveSubject, StatusCheck, ParticipantsCheck,
         InvitationsCheck, WithInvitation, LastJoinOrder;
  }

  lemma {:induction false} LastOrder(ps: seq<Participant>)
    requires ps != [] && forall p | p in ps :: p.joinOrder >= 1
    ensures exists p :: p in ps && p.joinOrder == LastJoinOrder(ps)
  {
    if |ps| > 1 {
      LastOrder(ps[1..]);
    } else {
      assert LastJoinOrder(ps[1..]) == 0 && ps[0] in ps && ps[0].joinOrder >= 1;
    }
  }

  lemma OrderRoom(g: Group)
    requires PeopleFine(g.participants) && Led(g)
    ensures exists p :: p in g.participants && p.joinOrder == LastJoinOrder(g.participants)
    ensures LastJoinOrder(g.participants) + 1 <= MAX_SAFE <==> forall p | p in g.participants :: p.joinOrder < MAX_SAFE
  {
    forall p | p in g.participants ensures p.joinOrder >= 1 {
      assert PersonFine(p);
    }
    LastOrder(g.participants);
    hide PeopleFine, PersonFine, LastJoinOrder;
  }

  lemma OneMorePerson(ps: seq<Participant>, p: Participant)
    requires PeopleFine(ps) && PersonFine(p)
    requires forall q | q in ps :: q.id != p.id && q.joinOrder < p.joinOrder
    requires !Present(ps, p.subject)
    ensures PeopleFine(ps + [p])
  {
    hide PersonFine;
    forall i, j | 0 <= i < j < |ps + [p]|
      ensures (ps + [p])[i].id != (ps + [p])[j].id && (ps + [p])[i].joinOrder != (ps + [p])[j].joinOrder
    {
      assert ps[i] in ps;
    }
    forall i | 0 <= i < |ps| && ps[i].active ensures ps[i].subject != p.subject {
      assert ps[i] in ps;
    }
  }

  lemma MoreTookPart(ps: seq<Participant>, p: Participant, i: Invitation)
    requires InvitationFine(i, ps)
    ensures InvitationFine(i, ps + [p])
  {
    assert forall q | q in ps :: q in ps + [p];
  }

  lemma ConsumedFine(i: Invitation, ps: seq<Participant>, p: Participant)
    requires InvitationFine(i, ps) && p in ps && p.subject == i.targetSubject && i.createdAt <= p.joinedAt < i.expiryAt
    ensures InvitationFine(i.(status := Consumed, resultingParticipantId := Some(p.id)), ps)
  {
    hide TookPart;
  }

  lemma MorePlaces(g: Group, p: Participant, g': Group)
    requires Led(g) && |ActivePlaces(g.participants)| <= 3 && p.active
    requires g'.participants == g.participants + [p] && g'.ownerParticipantId == g.ownerParticipantId
    ensures Led(g')
  {
    var n := |g.participants|;
    assert ActivePlaces(g'.participants) == ActivePlaces(g.participants) + {n};
    assert n !in ActivePlaces(g.participants);
    assert forall q | q in g.participants :: q in g'.participants;
  }

  lemma JoinedSays(g: Group, i: Invitation, p: Participant)
    ensures var g' := JoinedGroup(g, i, p);
            && g' == g.(participants := g'.participants, invitations := g'.invitations,
                        accessPolicyVersion := g.accessPolicyVersion + 1)
            && g'.participants == g.participants + [p]
            && g'.invitations == Map(g.invitations,
                                     WithInvitation(i.(status := Consumed, resultingParticipantId := Some(p.id))))
            && (Unarchived(g') <==> Unarchived(g))
  {
  }

  lemma JoinedFine(g: Group, i: Invitation, p: Participant)
    requires WellFormed(g) && g.status == Active && HasRoom(g) && i in g.invitations
    requires Admits(g, p.subject) && PersonFine(p) && p.active && p.subject == i.targetSubject
    requires i.createdAt <= p.joinedAt < i.expiryAt
    requires forall q | q in g.participants :: q.id != p.id && q.joinOrder < p.joinOrder
    ensures WellFormed(JoinedGroup(g, i, p))
    ensures InvitationNow(g.invitations, i.id, Consumed, Some(p.id), JoinedGroup(g, i, p).invitations)
  {
    hide *;
    var g', ps' := JoinedGroup(g, i, p), g.participants + [p];
    FineParts(g);
    FineParts(g');
    JoinedSays(g, i, p);
    AdmitsSays(g, p.subject);
    OneMorePerson(g.participants, p);
    MorePlaces(g, p, g');
    InvitationsSay(g.invitations, g.participants);
    InvitationsSay(g'.invitations, ps');
    Marked(g.invitations, g.participants, i, Consumed, Some(p.id));
    assert p in ps';
    forall x | x in g.invitations ensures InvitationFine(x, ps') {
      MoreTookPart(g.participants, p, x);
    }
    ConsumedFine(i, ps', p);
  }

  lemma AdmitsSays(g: Group, subject: string)
    ensures Admits(g, subject) <==> |ActivePlaces(g.participants)| <= 3 && !Present(g.participants, subject)
  {
    hide ActivePlaces, Present;
  }

  lemma MayAcceptSays(g: Group, actor: string, id: string, participantId: string, at: int)
    ensures MayAccept(g, actor, id, participantId, at) <==>
            g.status == Active && HasRoom(g) && Admits(g, actor) &&
            (exists i :: i in g.invitations && Open(i, id, at) && i.targetSubject == actor) &&
            (forall p | p in g.participants :: p.id != participantId) &&
            forall p | p in g.participants :: p.joinOrder < MAX_SAFE
    ensures forall i :: Open(i, id, at) ==> i.id == id && i.createdAt <= at < i.expiryAt
  {
    hide HasRoom, Admits;
  }

  lemma HasJoinedSays(g: Group, actor: string, i: Invitation, participantId: string, at: int)
    requires (exists q :: q in g.participants && q.joinOrder == LastJoinOrder(g.participants))
    requires InvitationNow(g.invitations, i.id, Consumed, Some(participantId),
                           JoinedGroup(g, i, NewPerson(g, actor, participantId, at)).invitations)
    ensures HasJoined(g, actor, i.id, participantId, at, JoinedGroup(g, i, NewPerson(g, actor, participantId, at)))
  {
    hide InvitationNow, WithInvitation;
  }

  lemma NewPersonFine(g: Group, actor: string, participantId: string, at: int)
    ensures var p := NewPerson(g, actor, participantId, at);
            && p.id == participantId && p.subject == actor && p.active && p.joinedAt == at
            && p.joinOrder == LastJoinOrder(g.participants) + 1
            && (p.joinOrder <= MAX_SAFE ==> PersonFine(p))
            && forall q | q in g.participants :: q.joinOrder < p.joinOrder
  {
    hide LastJoinOrder;
  }

  lemma AcceptExact(g: Group, actor: string, id: string, participantId: string, at: int)
    requires WellFormed(g)
    ensures AcceptInvitation(g, actor, id, participantId, at).Ok? <==> MayAccept(g, actor, id, participantId, at)
    ensures AcceptInvitation(g, actor, id, participantId, at).Ok? ==>
            HasJoined(g, actor, id, participantId, at, AcceptInvitation(g, actor, id, participantId, at).value)
  {
    hide *;
    FineParts(g);
    PolicyIs(g);
    ListedOnce(g, id);
    AcceptUnfolds(g, actor, id, participantId, at);
    PlacesCounted(g, actor);
    MayAcceptSays(g, actor, id, participantId, at);
    NewPersonFine(g, actor, participantId, at);
    var i, p := FindInvitation(g.invitations, id), NewPerson(g, actor, participantId, at);
    if g.status == Active {
      OrderRoom(g);
      if HasRoom(g) && i.Some? && Open(i.value, id, at) && i.value.targetSubject == actor && Admits(g, actor) &&
         p.joinOrder <= MAX_SAFE && forall q | q in g.participants :: q.id != participantId {
        JoinedFine(g, i.value, p);
        RestorableExact(JoinedGroup(g, i.value, p));
        HasJoinedSays(g, actor, i.value, participantId, at);
      }
    }
  }
}
