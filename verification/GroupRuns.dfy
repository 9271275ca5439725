/** What every run of a group keeps: restorable states, lasting memberships, and one outcome per close intent. */
module GroupRuns {
  import opened Outcomes
  import opened Sequences
  import opened Text
  import opened GroupRoot

  function ParticipantIdOf(p: Participant): string { p.id }
  function JoinOrderOf(p: Participant): int { p.joinOrder }
  function InvitationIdOf(i: Invitation): string { i.id }

  // ---- what the restoring checks say ----

  ghost predicate ParticipantsSound(ps: seq<Participant>) {
    && DistinctBy(ps, ParticipantIdOf) && DistinctBy(ps, JoinOrderOf)
    && (forall p | p in ps ::
        1 <= p.joinOrder <= MAX_SAFE && p.active == p.leftAt.None? && (p.leftAt.Some? ==> p.joinedAt <= p.leftAt.value))
    && (forall i, j | 0 <= i < j < |ps| && ps[i].active && ps[j].active :: ps[i].subject != ps[j].subject)
  }

  lemma {:induction false} ParticipantsPass(ps: seq<Participant>, k: nat)
    requires k <= |ps| && ParticipantsCheck(ps, k).Pass? && ParticipantsSound(ps[..k])
    ensures ParticipantsSound(ps)
    decreases |ps| - k
  {
    if k < |ps| {
      OneMoreParticipant(ps, k);
      ParticipantsPass(ps, k + 1);
    } else {
      assert ps[..k] == ps;
    }
  }

  lemma OneMoreParticipant(ps: seq<Participant>, k: nat)
    requires k < |ps| && ParticipantsCheck(ps, k).Pass? && ParticipantsSound(ps[..k])
    ensures ParticipantsSound(ps[..k + 1])
  {
    assert ps[..k + 1] == ps[..k] + [ps[k]];
    DistinctSnoc(ps[..k], ps[k], ParticipantIdOf);
    DistinctSnoc(ps[..k], ps[k], JoinOrderOf);
    hide DistinctBy;
    forall i | 0 <= i < k && ps[i].active && ps[k].active ensures ps[i].subject != ps[k].subject {
      assert ps[..k][i] in ps[..k];
    }
  }

  ghost predicate Restorable(g: Group) {
    Restore(g).Ok?
  }

  lemma RestoredParticipants(g: Group)
    requires Restorable(g)
    ensures ParticipantsSound(g.participants)
  {
    hide StatusCheck, InvitationsCheck, ParticipantsCheck;
    assert ParticipantsCheck(g.participants, 0).Pass?;
    ParticipantsPass(g.participants, 0);
  }

  lemma {:induction false} OnlyHolder(ps: seq<Participant>, p: Participant)
    requires DistinctBy(ps, ParticipantIdOf) && p in ps
    ensures Filter(ps, HasId(p.id)) == [p]
  {
    FilterDistinctBy(ps, HasId(p.id), ParticipantIdOf);
    var found := Filter(ps, HasId(p.id));
    assert p in found && forall x | x in found :: x.id == p.id;
    assert |found| > 1 ==>
      found[0] in found && found[1] in found && ParticipantIdOf(found[0]) != ParticipantIdOf(found[1]);
  }

  // ---- every reachable group can be restored ----

  /** The owner's transfer skips the restoring checks, and would pass every one of them. */
  lemma TransferRestores(g: Group, actor: string, target: string)
    requires Restorable(g) && TransferOwnership(g, actor, target).Ok?
    ensures Restorable(TransferOwnership(g, actor, target).value)
  {
    hide *;
    TransferIs(g, actor, target);
    RestoredParticipants(g);
    var g' := TransferOwnership(g, actor, target).value;
    if g' != g {
      var p := FindParticipant(g.participants, target).value;
      IdsDistinct(g.participants);
      OnlyHolder(g.participants, p);
      ActiveRestorable(g);
      OwnerCheckPasses(g', p);
      OwnerCheckBounds(g);
      ActiveRestorable(g');
    }
  }

  lemma TransferIs(g: Group, actor: string, target: string)
    requires TransferOwnership(g, actor, target).Ok?
    ensures var g', next := TransferOwnership(g, actor, target).value, FindParticipant(g.participants, target);
            && g.status == Active && next.Some? && next.value.active
            && (g' == g || (SafeInteger(g.accessPolicyVersion + 1) &&
                            g' == g.(ownerParticipantId := Some(target),
                                     accessPolicyVersion := g.accessPolicyVersion + 1)))
  {
    hide FindParticipant, SafeInteger;
  }

  /** What the restoring checks ask of an active group. */
  lemma ActiveRestorable(g: Group)
    requires g.status == Active
    ensures Restorable(g) <==>
            SafeInteger(g.accessPolicyVersion) && g.accessPolicyVersion >= 1 && OwnerCheck(g).Pass? &&
            g.closing.None? && g.ownerAtArchive.None? && g.archivedAt.None? && g.deleteEligibleAt.None? &&
            ParticipantsCheck(g.participants, 0).Pass? && InvitationsCheck(g.invitations, g.participants, 0).Pass?
  {
    hide SafeInteger, OwnerCheck, ParticipantsCheck, InvitationsCheck;
  }

  lemma OwnerCheckPasses(g: Group, p: Participant)
    requires g.ownerParticipantId == Some(p.id) && Filter(g.participants, HasId(p.id)) == [p] && p.active
    ensures OwnerCheck(g).Pass? <==> 1 <= ActiveCount(g.participants) <= 4
  {
    hide Filter, ActiveCount;
  }

  lemma OwnerCheckBounds(g: Group)
    requires OwnerCheck(g).Pass?
    ensures 1 <= ActiveCount(g.participants) <= 4
  {
    hide Filter, ActiveCount;
  }

  lemma IdsDistinct(ps: seq<Participant>)
    requires ParticipantsSound(ps)
    ensures DistinctBy(ps, ParticipantIdOf) && DistinctBy(ps, JoinOrderOf)
  {
  }

  /** Every accepted transition leads from a restorable group to a restorable group. */
  lemma StepRestores(g: Group, t: Transition)
    requires Restorable(g) && Apply(g, t).Ok?
    ensures Restorable(Apply(g, t).value)
  {
    hide Restore;
    if t.ToTransfer? {
      TransferRestores(g, t.actor, t.target);
    } else {
      RestoresItself(g, t);
    }
  }

  lemma RestoresItself(g: Group, t: Transition)
    requires Restorable(g) && !t.ToTransfer? && Apply(g, t).Ok?
    ensures Restorable(Apply(g, t).value)
  {
    hide Restore, FindParticipant, FindInvitation, FindFence, FindUnfence, ActiveCount, ActiveSubject, OwnerFor,
         NextPolicy, RequireClosing, LastJoinOrder, Map, FenceFits, FenceShaped, Answers;
    match t
    case ToLeave(a, p, at) =>
    case ToInvite(a, i, s, at) =>
    case ToCancelInvitation(a, i, at) =>
    case ToAccept(a, i, p, at) =>
    case ToStartClosing(a, i, cutoff) =>
    case ToRecordFence(r) =>
    case ToArchive(a, i, at) =>
    case ToReserve(a, i) =>
    case ToRecordUnfence(r) =>
    case ToComplete(a, i) =>
  }

  // ---- what a step changes ----

  /** A membership stays: at most its holder leaves, once. */
  ghost predicate MembershipKept(p: Participant, p': Participant) {
    p' == p || (p.active && !p'.active && p' == p.(active := false, leftAt := p'.leftAt))
  }

  ghost predicate StepKeeps(g: Group, g': Group) {
    && g'.id == g.id && |g.participants| <= |g'.participants|
    && (forall i | 0 <= i < |g.participants| :: MembershipKept(g.participants[i], g'.participants[i]))
    && (g' == g || g'.accessPolicyVersion == g.accessPolicyVersion + 1)
  }

  lemma StepIs(g: Group, t: Transition)
    requires Apply(g, t).Ok? && Restorable(g)
    ensures StepKeeps(g, Apply(g, t).value)
    ensures t.ToAccept? || |Apply(g, t).value.participants| == |g.participants|
    ensures t.ToAccept? ==> |Apply(g, t).value.participants| == |g.participants| + 1 &&
                            Apply(g, t).value.participants[|g.participants|].joinOrder ==
                            LastJoinOrder(g.participants) + 1
  {
    if t.ToLeave? {
      LeaveKeeps(g, t.actor, t.participantId, t.at);
    } else {
      hide StatusCheck, ParticipantsCheck, InvitationsCheck, FindInvitation, ActiveCount, ActiveSubject, RequireClosing,
           OwnerFor, FindFence, FindUnfence, FindParticipant;
      OtherKeeps(g, t);
    }
  }

  lemma LeaveIs(g: Group, actor: string, id: string, leftAt: int)
    requires Leave(g, actor, id, leftAt).Ok?
    ensures FindParticipant(g.participants, id).Some? && FindParticipant(g.participants, id).value.active
    ensures Leave(g, actor, id, leftAt).value == g.(participants := Map(g.participants, Leaving(id, leftAt)),
                                                    accessPolicyVersion := g.accessPolicyVersion + 1)
  {
    hide StatusCheck, ParticipantsCheck, InvitationsCheck, FindParticipant, Leaving, Map;
  }

  lemma LeaveKeeps(g: Group, actor: string, id: string, leftAt: int)
    requires Leave(g, actor, id, leftAt).Ok? && Restorable(g)
    ensures StepKeeps(g, Leave(g, actor, id, leftAt).value)
    ensures |Leave(g, actor, id, leftAt).value.participants| == |g.participants|
  {
    RestoredParticipants(g);
    LeaveIs(g, actor, id, leftAt);
    IdsDistinct(g.participants);
    hide ParticipantsSound, Leave, Restorable, DistinctBy;
    var p := FindParticipant(g.participants, id).value;
    forall i | 0 <= i < |g.participants|
      ensures MembershipKept(g.participants[i], Leave(g, actor, id, leftAt).value.participants[i])
    {
      if g.participants[i].id == id {
        SameParticipant(g.participants, g.participants[i], p);
      }
    }
  }

  lemma SameParticipant(ps: seq<Participant>, p: Participant, q: Participant)
    requires DistinctBy(ps, ParticipantIdOf) && p in ps && q in ps && p.id == q.id
    ensures p == q
  {
    DistinctByCounts(ps, ParticipantIdOf);
    assert ParticipantIdOf(p) == ParticipantIdOf(q);
  }

  lemma OtherKeeps(g: Group, t: Transition)
    requires Apply(g, t).Ok? && !t.ToLeave?
    ensures var g' := Apply(g, t).value;
            && g'.id == g.id && (g' == g || g'.accessPolicyVersion == g.accessPolicyVersion + 1)
            && (if t.ToAccept? then |g'.participants| == |g.participants| + 1 && g.participants <= g'.participants &&
                   g'.participants[|g.participants|].joinOrder == LastJoinOrder(g.participants) + 1 &&
                   g'.participants[|g.participants|].id == t.participantId
                else g'.participants == g.participants)
  {
    hide *;
    if t.ToAccept? {
      AcceptAdds(g, t);
    } else if t.ToTransfer? || t.ToInvite? || t.ToCancelInvitation? {
      OwnerKeepsMembers(g, t);
    } else {
      ClosingKeepsMembers(g, t);
    }
  }

  lemma AcceptAdds(g: Group, t: Transition)
    requires Apply(g, t).Ok? && t.ToAccept?
    ensures var g' := Apply(g, t).value;
            && g'.id == g.id && g'.accessPolicyVersion == g.accessPolicyVersion + 1
            && |g'.participants| == |g.participants| + 1 && g.participants <= g'.participants
            && g'.participants[|g.participants|].joinOrder == LastJoinOrder(g.participants) + 1
            && g'.participants[|g.participants|].id == t.participantId
  {
    hide Restore, FindInvitation, ActiveCount, ActiveSubject, FindParticipant, Map, LastJoinOrder, SafeInteger;
  }

  lemma OwnerKeepsMembers(g: Group, t: Transition)
    requires Apply(g, t).Ok? && (t.ToTransfer? || t.ToInvite? || t.ToCancelInvitation?)
    ensures var g' := Apply(g, t).value;
            && g'.id == g.id && (g' == g || g'.accessPolicyVersion == g.accessPolicyVersion + 1)
            && g'.participants == g.participants
  {
    hide Restore, FindInvitation, ActiveCount, ActiveSubject, OwnerFor, FindParticipant, Map, SafeInteger;
  }

  lemma ClosingKeepsMembers(g: Group, t: Transition)
    requires Apply(g, t).Ok?
    requires t.ToStartClosing? || t.ToRecordFence? || t.ToArchive? || t.ToReserve? || t.ToRecordUnfence? ||
             t.ToComplete?
    ensures var g' := Apply(g, t).value;
            && g'.id == g.id && (g' == g || g'.accessPolicyVersion == g.accessPolicyVersion + 1)
            && g'.participants == g.participants
  {
    hide Restore, RequireClosing, OwnerFor, FindFence, FindUnfence, FenceFits, FenceShaped, Answers, SafeInteger;
  }

  /** Leaving changes one membership: the actor's own, which was active. */
  lemma OnlyTheActorLeaves(g: Group, actor: string, id: string, leftAt: int, i: nat)
    requires Leave(g, actor, id, leftAt).Ok? && Restorable(g) && i < |g.participants|
    ensures |Leave(g, actor, id, leftAt).value.participants| == |g.participants|
    ensures var p, p' := g.participants[i], Leave(g, actor, id, leftAt).value.participants[i];
            if p.id == id then p.subject == actor && p.active && p' == p.(active := false, leftAt := Some(leftAt)) &&
              g.ownerParticipantId != Some(id)
            else p' == p
  {
    RestoredParticipants(g);
    LeaveIs(g, actor, id, leftAt);
    IdsDistinct(g.participants);
    var found := FindParticipant(g.participants, id).value;
    assert found.subject == actor && g.ownerParticipantId != Some(id) by {
      hide StatusCheck, ParticipantsCheck, InvitationsCheck, FindParticipant, Leaving, Map;
    }
    hide ParticipantsSound, Leave, Restorable, DistinctBy;
    if g.participants[i].id == id {
      SameParticipant(g.participants, g.participants[i], found);
    }
  }

  ghost predicate OwnersOnly(t: Transition) {
    t.ToTransfer? || t.ToInvite? || t.ToCancelInvitation? || t.ToStartClosing? || t.ToArchive? || t.ToReserve? ||
      t.ToComplete?
  }

  /** Ownership transfer, invitations and closing are accepted from the current owner's subject only. */
  lemma OwnerActs(g: Group, t: Transition)
    requires Apply(g, t).Ok? && OwnersOnly(t)
    ensures exists p :: p in g.participants && g.ownerParticipantId == Some(p.id) && p.subject == t.actor
  {
    hide StatusCheck, ParticipantsCheck, InvitationsCheck, FindInvitation, ActiveCount, ActiveSubject, RequireClosing,
         FindFence, FindUnfence, Map, WithInvitation, Leaving, LastJoinOrder, Restore;
    var p := FindParticipant(g.participants, g.ownerParticipantId.value).value;
    assert p in g.participants && p.subject == t.actor;
  }

  /** A group that is not archived has one to four active participants, one of them its owner. */
  lemma OwnedAndBounded(g: Group)
    requires Restorable(g) && g.status != Archived
    ensures 1 <= ActiveCount(g.participants) <= 4
    ensures exists p :: p in g.participants && p.active && g.ownerParticipantId == Some(p.id)
  {
    hide ParticipantsCheck, InvitationsCheck, ClosingCheck;
    var owners := Filter(g.participants, HasId(g.ownerParticipantId.value));
    assert owners[0] in owners;
  }

  // ---- runs ----

  ghost predicate Step(g: Group, t: Transition, g': Group) {
    Apply(g, t) == Ok(g')
  }

  /** A run of accepted transitions. */
  ghost predicate Run(gs: seq<Group>, ts: seq<Transition>) {
    |gs| == |ts| + 1 && forall k | 0 <= k < |ts| :: Step(gs[k], ts[k], gs[k + 1])
  }

  ghost predicate Created(g: Group) {
    exists id, participantId, subject, at :: Create(id, participantId, subject, at) == Ok(g)
  }

  lemma CreatedIs(g: Group)
    requires Created(g)
    ensures Restorable(g) && g.status == Active && |g.participants| == 1 && g.invitations == [] &&
            g.accessPolicyVersion == 1
  {
    hide StatusCheck, ParticipantsCheck, InvitationsCheck;
  }

  lemma {:induction false} RunRestores(gs: seq<Group>, ts: seq<Transition>, k: nat)
    requires Run(gs, ts) && k <= |ts| && Restorable(gs[0])
    ensures Restorable(gs[k])
  {
    hide Apply, Restorable;
    if k > 0 {
      RunRestores(gs, ts, k - 1);
      assert Step(gs[k - 1], ts[k - 1], gs[k - 1 + 1]);
      StepRestores(gs[k - 1], ts[k - 1]);
    }
  }

  ghost predicate Lasting(g: Group, g': Group) {
    && g'.id == g.id && |g.participants| <= |g'.participants| && g.accessPolicyVersion <= g'.accessPolicyVersion
    && forall i | 0 <= i < |g.participants| :: MembershipKept(g.participants[i], g'.participants[i])
  }

  /**
   * Over a run no participant is removed, renamed, reordered or reactivated, and the access policy version never falls.
   */
  lemma {:induction false} MembershipsLast(gs: seq<Group>, ts: seq<Transition>, i: nat, k: nat)
    requires Run(gs, ts) && i <= k <= |ts| && Restorable(gs[0])
    ensures Lasting(gs[i], gs[k])
    ensures i < k && gs[k - 1] != gs[k] ==> gs[k].accessPolicyVersion == gs[k - 1].accessPolicyVersion + 1
  {
    hide Apply, Restorable;
    if i < k {
      MembershipsLast(gs, ts, i, k - 1);
      RunRestores(gs, ts, k - 1);
      assert Step(gs[k - 1], ts[k - 1], gs[k - 1 + 1]);
      StepIs(gs[k - 1], ts[k - 1]);
      forall n | 0 <= n < |gs[i].participants| ensures MembershipKept(gs[i].participants[n], gs[k].participants[n]) {
        assert MembershipKept(gs[i].participants[n], gs[k - 1].participants[n]);
        assert MembershipKept(gs[k - 1].participants[n], gs[k].participants[n]);
      }
    }
  }

  /** The transition is the named participant's own leaving. */
  ghost predicate OwnLeaving(t: Transition, p: Participant, p': Participant) {
    t.ToLeave? && t.participantId == p.id && t.actor == p.subject && p'.leftAt == Some(t.at)
  }

  /** Over a run a membership ends only by its holder's own leaving. */
  lemma {:induction false} MembershipEndsByLeaving(gs: seq<Group>, ts: seq<Transition>, i: nat, k: nat, n: nat)
    requires Run(gs, ts) && i <= k <= |ts| && Restorable(gs[0]) && n < |gs[i].participants| &&
             gs[i].participants[n].active
    ensures n < |gs[k].participants|
    ensures gs[k].participants[n] == gs[i].participants[n] ||
            exists m :: i <= m < k && OwnLeaving(ts[m], gs[i].participants[n], gs[k].participants[n])
  {
    hide Apply, Restorable, MembershipKept, OwnLeaving;
    MembershipsLast(gs, ts, i, k);
    if i < k {
      MembershipEndsByLeaving(gs, ts, i, k - 1, n);
      RunRestores(gs, ts, k - 1);
      assert Step(gs[k - 1], ts[k - 1], gs[k - 1 + 1]);
      var p := gs[i].participants[n];
      if gs[k - 1].participants[n] == p {
        MembershipStep(gs[k - 1], ts[k - 1], gs[k], p, n);
      } else {
        var m :| i <= m < k - 1 && OwnLeaving(ts[m], p, gs[k - 1].participants[n]);
        LeftForGood(gs, ts, k, p, m, n);
      }
    }
  }

  lemma MembershipStep(g: Group, t: Transition, g': Group, p: Participant, n: nat)
    requires Step(g, t, g') && Restorable(g) && n < |g.participants| && n < |g'.participants| && g.participants[n] == p
    ensures g'.participants[n] == p || OwnLeaving(t, p, g'.participants[n])
  {
    hide Restorable;
    if t.ToLeave? {
      OnlyTheActorLeaves(g, t.actor, t.participantId, t.at, n);
    } else {
      OtherKeeps(g, t);
    }
  }

  /** Who has left stays as they left. */
  lemma LeftForGood(gs: seq<Group>, ts: seq<Transition>, k: nat, p: Participant, m: nat, n: nat)
    requires Run(gs, ts) && 1 <= k <= |ts| && Restorable(gs[0]) && m < |ts| && n < |gs[k - 1].participants|
    requires OwnLeaving(ts[m], p, gs[k - 1].participants[n])
    ensures n < |gs[k].participants| && OwnLeaving(ts[m], p, gs[k].participants[n])
  {
    hide Apply, Restorable;
    MembershipsLast(gs, ts, k - 1, k);
    RunRestores(gs, ts, k - 1);
    RestoredParticipants(gs[k - 1]);
    assert MembershipKept(gs[k - 1].participants[n], gs[k].participants[n]);
    assert gs[k - 1].participants[n] in gs[k - 1].participants;
  }

  /** The transition is a transfer or an archive by the owner, and says who owns the group afterwards. */
  ghost predicate OwnerSays(g: Group, t: Transition, owner: Option<string>) {
    && (t.ToTransfer? || t.ToArchive?) && owner == (if t.ToTransfer? then Some(t.target) else None)
    && exists p :: p in g.participants && g.ownerParticipantId == Some(p.id) && p.subject == t.actor
  }

  lemma OwnershipStep(g: Group, t: Transition, g': Group)
    requires Step(g, t, g')
    ensures g'.ownerParticipantId == g.ownerParticipantId || OwnerSays(g, t, g'.ownerParticipantId)
  {
    hide Restore, FindInvitation, ActiveCount, ActiveSubject, RequireClosing, FindFence, FindUnfence, Map,
         WithInvitation, Leaving, LastJoinOrder;
    if OwnersOnly(t) {
      OwnerActs(g, t);
    }
  }

  /**
   * Over a run the owner changes only by a transfer or an archive of the owner at that time, the last of which names
   * the owner.
   */
  lemma {:induction false} OwnershipMoves(gs: seq<Group>, ts: seq<Transition>, i: nat, k: nat)
    requires Run(gs, ts) && i <= k <= |ts|
    ensures gs[k].ownerParticipantId == gs[i].ownerParticipantId ||
            exists m :: i <= m < k && OwnerSays(gs[m], ts[m], gs[k].ownerParticipantId)
  {
    hide Apply, OwnerSays;
    if i < k {
      OwnershipMoves(gs, ts, i, k - 1);
      assert Step(gs[k - 1], ts[k - 1], gs[k - 1 + 1]);
      OwnershipStep(gs[k - 1], ts[k - 1], gs[k]);
    }
  }

  ghost predicate Admitted(g: Group) {
    forall i, j | 0 <= i < j < |g.participants| :: g.participants[i].joinOrder < g.participants[j].joinOrder
  }

  /** Join orders strictly increase with admission. */
  lemma {:induction false} JoinOrdersIncrease(gs: seq<Group>, ts: seq<Transition>, k: nat)
    requires Run(gs, ts) && k <= |ts| && Created(gs[0])
    ensures Admitted(gs[k])
  {
    hide Apply, Restorable, Created;
    CreatedIs(gs[0]);
    if k > 0 {
      JoinOrdersIncrease(gs, ts, k - 1);
      RunRestores(gs, ts, k - 1);
      assert Step(gs[k - 1], ts[k - 1], gs[k - 1 + 1]);
      StepIs(gs[k - 1], ts[k - 1]);
      var g, g' := gs[k - 1], gs[k];
      forall i, j | 0 <= i < j < |g'.participants| ensures g'.participants[i].joinOrder < g'.participants[j].joinOrder {
        assert MembershipKept(g.participants[i], g'.participants[i]);
        if j < |g.participants| {
          assert MembershipKept(g.participants[j], g'.participants[j]);
        } else {
          assert g.participants[i] in g.participants;
        }
      }
    }
  }

  // ---- invitations ----

  ghost predicate ResultsDiffer(g: Group) {
    && DistinctBy(g.invitations, InvitationIdOf)
    && forall i, j | i in g.invitations && j in g.invitations && i.resultingParticipantId.Some? &&
       i.resultingParticipantId == j.resultingParticipantId :: i == j
  }

  ghost predicate InvitationsSound(list: seq<Invitation>, ps: seq<Participant>) {
    && DistinctBy(list, InvitationIdOf)
    && forall i | i in list :: (i.status == Consumed <==> i.resultingParticipantId.Some?) &&
         (i.resultingParticipantId.Some? ==>
          exists p :: p in ps && p.id == i.resultingParticipantId.value && p.subject == i.targetSubject)
  }

  lemma {:induction false} InvitationsPass(list: seq<Invitation>, ps: seq<Participant>, k: nat)
    requires k <= |list| && InvitationsCheck(list, ps, k).Pass? && InvitationsSound(list[..k], ps)
    ensures InvitationsSound(list, ps)
    decreases |list| - k
  {
    if k < |list| {
      assert list[..k + 1] == list[..k] + [list[k]];
      DistinctSnoc(list[..k], list[k], InvitationIdOf);
      InvitationsPass(list, ps, k + 1);
    } else {
      assert list[..k] == list;
    }
  }

  lemma RestoredInvitations(g: Group)
    requires Restorable(g)
    ensures InvitationsSound(g.invitations, g.participants)
  {
    hide StatusCheck, ParticipantsCheck, InvitationsCheck;
    assert InvitationsCheck(g.invitations, g.participants, 0).Pass?;
    InvitationsPass(g.invitations, g.participants, 0);
  }

  /** What a step does to the invitations. */
  lemma InvitationStep(g: Group, t: Transition)
    requires Apply(g, t).Ok?
    ensures var g' := Apply(g, t).value;
            if t.ToAccept? then
              FindInvitation(g.invitations, t.invitationId).Some? &&
                FindParticipant(g.participants, t.participantId).None? &&
              g'.invitations == Map(g.invitations, WithInvitation(FindInvitation(g.invitations, t.invitationId).value.(
                                      status := Consumed, resultingParticipantId := Some(t.participantId))))
            else if t.ToCancelInvitation? then
              FindInvitation(g.invitations, t.invitationId).Some? &&
                FindInvitation(g.invitations, t.invitationId).value.status == Pending &&
              g'.invitations == Map(g.invitations,
                                    WithInvitation(FindInvitation(g.invitations,
                                                                  t.invitationId).value.(status := Cancelled)))
            else if t.ToInvite? then
              |g'.invitations| == |g.invitations| + 1 && g.invitations <= g'.invitations &&
              g'.invitations[|g.invitations|].resultingParticipantId.None?
            else g'.invitations == g.invitations
  {
    hide StatusCheck, ParticipantsCheck, InvitationsCheck, FindInvitation, ActiveCount, ActiveSubject, RequireClosing,
         OwnerFor, FindFence, FindUnfence, FindParticipant, Map, WithInvitation, Leaving, LastJoinOrder;
  }

  lemma ResultsStayDifferent(g: Group, t: Transition)
    requires Restorable(g) && ResultsDiffer(g) && Apply(g, t).Ok?
    ensures ResultsDiffer(Apply(g, t).value)
  {
    hide *;
    var g' := Apply(g, t).value;
    StepRestores(g, t);
    RestoredInvitations(g);
    RestoredInvitations(g');
    InvitationStep(g, t);
    if t.ToAccept? {
      NobodyResulted(g, t.participantId);
      ReplacedResults(g, g', FindInvitation(g.invitations, t.invitationId).value.(
                              status := Consumed, resultingParticipantId := Some(t.participantId)));
    } else if t.ToCancelInvitation? {
      var i := FindInvitation(g.invitations, t.invitationId).value;
      PendingUnresulted(g, i);
      ReplacedResults(g, g', i.(status := Cancelled));
    } else {
      AddedResults(g, g');
    }
  }

  lemma NobodyResulted(g: Group, id: string)
    requires InvitationsSound(g.invitations, g.participants) && FindParticipant(g.participants, id).None?
    ensures forall x | x in g.invitations :: x.resultingParticipantId != Some(id)
  {
    hide DistinctBy, FindParticipant;
  }

  lemma PendingUnresulted(g: Group, i: Invitation)
    requires InvitationsSound(g.invitations, g.participants) && i in g.invitations && i.status == Pending
    ensures i.resultingParticipantId.None?
  {
    hide DistinctBy;
  }

  /** An invitation that is added has no result yet. */
  lemma AddedResults(g: Group, g': Group)
    requires ResultsDiffer(g) && InvitationsSound(g'.invitations, g'.participants)
    requires g'.invitations == g.invitations ||
             (|g'.invitations| == |g.invitations| + 1 && g.invitations <= g'.invitations &&
              g'.invitations[|g.invitations|].resultingParticipantId.None?)
    ensures ResultsDiffer(g')
  {
    hide DistinctBy;
    forall i | i in g'.invitations && i.resultingParticipantId.Some? ensures i in g.invitations {
      var n :| 0 <= n < |g'.invitations| && g'.invitations[n] == i;
      assert n < |g.invitations| && g.invitations[n] == i;
    }
  }

  /** Replacing one invitation by a result nobody else has. */
  lemma ReplacedResults(g: Group, g': Group, i: Invitation)
    requires ResultsDiffer(g) && g'.invitations == Map(g.invitations, WithInvitation(i))
    requires InvitationsSound(g'.invitations, g'.participants)
    requires i.resultingParticipantId.Some? ==>
             forall x | x in g.invitations :: x.resultingParticipantId != i.resultingParticipantId
    ensures ResultsDiffer(g')
  {
    hide Map, DistinctBy;
    forall x, y | x in g'.invitations && y in g'.invitations && x.resultingParticipantId.Some? &&
      x.resultingParticipantId == y.resultingParticipantId
      ensures x == y
    {
      var m := ReplacedFrom(g.invitations, i, x);
      var n := ReplacedFrom(g.invitations, i, y);
    }
  }

  /** An element of the list with a replacement is the replacement or an element of the list. */
  lemma ReplacedFrom(list: seq<Invitation>, i: Invitation, x: Invitation) returns (before: Invitation)
    requires x in Map(list, WithInvitation(i))
    ensures before in list && x == if before.id == i.id then i else before
  {
    var n :| 0 <= n < |list| && Map(list, WithInvitation(i))[n] == x;
    before := list[n];
  }

  /** Over a run, different consumed invitations name different participants. */
  lemma {:induction false} ConsumedOnce(gs: seq<Group>, ts: seq<Transition>, k: nat)
    requires Run(gs, ts) && k <= |ts| && Created(gs[0])
    ensures ResultsDiffer(gs[k])
  {
    hide Apply, Restorable, Created, ResultsDiffer;
    CreatedIs(gs[0]);
    if k > 0 {
      ConsumedOnce(gs, ts, k - 1);
      RunRestores(gs, ts, k - 1);
      assert Step(gs[k - 1], ts[k - 1], gs[k - 1 + 1]);
      ResultsStayDifferent(gs[k - 1], ts[k - 1]);
    } else {
      assert ResultsDiffer(gs[0]) by { NoneConsumed(gs[0]); }
    }
  }

  lemma NoneConsumed(g: Group)
    requires g.invitations == []
    ensures ResultsDiffer(g)
  {
  }
}
