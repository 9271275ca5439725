/**
 * The rules a stored group meets, said of its lists themselves: restoring accepts exactly the groups that meet them.
 */
module GroupRules {
  import opened Outcomes
  import opened Sequences
  import opened Text
  import opened GroupRoot
  import opened GroupRuns
  import opened GroupChecks

  // ---- the rules ----

  ghost predicate PersonFine(p: Participant) {
    && 1 <= p.joinOrder <= MAX_SAFE && (p.active <==> p.leftAt.None?)
    && (p.leftAt.Some? ==> p.joinedAt <= p.leftAt.value)
  }

  /** No identifier or join order is given twice, and nobody takes part twice at a time. */
  ghost predicate PeopleFine(ps: seq<Participant>) {
    && (forall p | p in ps :: PersonFine(p))
    && (forall i, j | 0 <= i < j < |ps| :: ps[i].id != ps[j].id && ps[i].joinOrder != ps[j].joinOrder)
    && forall i, j | 0 <= i < j < |ps| && ps[i].active && ps[j].active :: ps[i].subject != ps[j].subject
  }

  ghost predicate TookPart(ps: seq<Participant>, id: string, at: int) {
    exists p :: p in ps && p.id == id && p.joinedAt <= at && (p.leftAt.Some? ==> at < p.leftAt.value)
  }

  ghost predicate JoinedWithin(ps: seq<Participant>, id: string, subject: string, from: int, until: int) {
    exists p :: p in ps && p.id == id && p.subject == subject && from <= p.joinedAt < until
  }

  /** In force for seven days, issued by a participant of that time, and consumed by the invited person in time. */
  ghost predicate InvitationFine(i: Invitation, ps: seq<Participant>) {
    && i.expiryAt == i.createdAt + 604_800_000 && TookPart(ps, i.issuerParticipantId, i.createdAt)
    && (i.status == Consumed <==> i.resultingParticipantId.Some?)
    && (i.resultingParticipantId.Some? ==>
          JoinedWithin(ps, i.resultingParticipantId.value, i.targetSubject, i.createdAt, i.expiryAt))
  }

  ghost predicate InvitationsFine(list: seq<Invitation>, ps: seq<Participant>) {
    && (forall i, j | 0 <= i < j < |list| :: list[i].id != list[j].id)
    && forall i | i in list :: InvitationFine(i, ps)
  }

  function ActivePlaces(ps: seq<Participant>): set<nat> {
    set k: nat | k < |ps| && ps[k].active
  }

  ghost predicate TakesPart(ps: seq<Participant>, id: string) {
    exists p :: p in ps && p.id == id && p.active
  }

  /** One to four people take part, and one of them owns the group. */
  ghost predicate Led(g: Group) {
    1 <= |ActivePlaces(g.participants)| <= 4 && g.ownerParticipantId.Some? &&
      TakesPart(g.participants, g.ownerParticipantId.value)
  }

  ghost predicate FenceFine(f: Fence, groupId: string, c: ClosingState) {
    && 1 <= f.fenceVersion <= MAX_SAFE && f.groupId == groupId && f.closeIntentId == c.closeIntentId
    && f.cutoff == c.cutoff
  }

  /** A fence of that context and version was installed, and not after the fence's removal. */
  ghost predicate Removes(f: Fence, receipts: seq<FenceReceipt>) {
    exists r :: r in receipts && r.fence.context == f.context && r.fence.fenceVersion == f.fenceVersion &&
                r.fence.completedAt <= f.completedAt
  }

  ghost predicate ClosingFine(groupId: string, c: ClosingState) {
    && (forall r | r in c.fenceReceipts :: FenceFine(r.fence, groupId, c))
    && (forall i, j | 0 <= i < j < |c.fenceReceipts| ::
          c.fenceReceipts[i].fence.context != c.fenceReceipts[j].fence.context)
    && (forall f | f in c.unfenceReceipts :: FenceFine(f, groupId, c) && Removes(f, c.fenceReceipts))
    && (forall i, j | 0 <= i < j < |c.unfenceReceipts| :: c.unfenceReceipts[i].context != c.unfenceReceipts[j].context)
    && (c.phase == Fencing ==> |c.unfenceReceipts| == 0)
  }

  ghost predicate Unarchived(g: Group) {
    g.ownerAtArchive == None && g.archivedAt == None && g.deleteEligibleAt == None
  }

  ghost predicate StatusFine(g: Group) {
    match g.status
    case Active => Led(g) && g.closing == None && Unarchived(g)
    case Closing => Led(g) && Unarchived(g) && g.closing.Some? && ClosingFine(g.id, g.closing.value)
    case Archived =>
      && g.ownerParticipantId == None && g.closing == None && g.ownerAtArchive.Some? && g.archivedAt.Some?
      && TakesPart(g.participants, g.ownerAtArchive.value)
      && g.deleteEligibleAt == Some(DeleteEligibleAt(g.archivedAt.value))
  }

  ghost predicate WellFormed(g: Group) {
    && 1 <= g.accessPolicyVersion <= MAX_SAFE && PeopleFine(g.participants)
    && InvitationsFine(g.invitations, g.participants) && StatusFine(g)
  }

  // ---- restoring accepts exactly these ----

  lemma PeopleAre(ps: seq<Participant>)
    ensures ParticipantsCheck(ps, 0).Pass? <==> PeopleFine(ps)
  {
    ParticipantsMean(ps);
    hide ParticipantsCheck;
    if ParticipantsSound(ps) {
      forall i, j | 0 <= i < j < |ps| ensures ps[i].id != ps[j].id && ps[i].joinOrder != ps[j].joinOrder {
        assert ParticipantIdOf(ps[i]) != ParticipantIdOf(ps[j]) && JoinOrderOf(ps[i]) != JoinOrderOf(ps[j]);
      }
    }
  }

  lemma IdsOnce(ps: seq<Participant>)
    requires PeopleFine(ps)
    ensures DistinctBy(ps, ParticipantIdOf)
  {
  }

  lemma InvitationIs(i: Invitation, ps: seq<Participant>)
    ensures Issued(i, ps) && Resulted(i, ps) <==> InvitationFine(i, ps)
  {
    hide PersonFine;
  }

  lemma InvitationsAre(list: seq<Invitation>, ps: seq<Participant>)
    requires PeopleFine(ps)
    ensures InvitationsCheck(list, ps, 0).Pass? <==> InvitationsFine(list, ps)
  {
    IdsOnce(ps);
    assert InvitationsHold(list[..0], ps);
    InvitationsMean(list, ps, 0);
    hide InvitationsCheck, PeopleFine;
    forall i | i in list ensures Issued(i, ps) && Resulted(i, ps) <==> InvitationFine(i, ps) {
      InvitationIs(i, ps);
    }
    hide Issued, Resulted, InvitationFine;
    if InvitationsHold(list, ps) {
      forall i, j | 0 <= i < j < |list| ensures list[i].id != list[j].id {
        assert InvitationIdOf(list[i]) != InvitationIdOf(list[j]);
      }
    }
  }

  lemma {:induction false} ActiveCounted(ps: seq<Participant>)
    ensures ActiveCount(ps) == |ActivePlaces(ps)|
  {
    if ps != [] {
      ActiveCounted(ps[1..]);
      PlacesShifted(ps);
      PlacesMoved(ActivePlaces(ps[1..]));
      hide ActivePlaces;
    }
  }

  function Moved(places: set<nat>): set<nat> {
    set k | k in places :: k + 1
  }

  lemma PlacesShifted(ps: seq<Participant>)
    requires ps != []
    ensures ActivePlaces(ps) == Moved(ActivePlaces(ps[1..])) + (if ps[0].active then {0} else {})
  {
    forall k: nat | k in ActivePlaces(ps) && k > 0 ensures k in Moved(ActivePlaces(ps[1..])) {
      assert k - 1 in ActivePlaces(ps[1..]);
    }
  }

  lemma {:induction false} PlacesMoved(places: set<nat>)
    ensures |Moved(places)| == |places|
  {
    if places != {} {
      var k :| k in places;
      PlacesMoved(places - {k});
      var rest := places - {k};
      assert places == rest + {k};
      forall x: nat ensures x in Moved(places) <==> x in Moved(rest) || x == k + 1 {
        if x in Moved(places) && x != k + 1 {
          assert x - 1 in rest;
        }
      }
      assert Moved(places) == Moved(rest) + {k + 1};
    }
  }

  lemma OwnerIs(g: Group)
    requires PeopleFine(g.participants)
    ensures OwnerCheck(g).Pass? <==> Led(g)
  {
    ActiveCounted(g.participants);
    IdsOnce(g.participants);
    hide ActiveCount, PeopleFine, DistinctBy;
    if g.ownerParticipantId.Some? {
      var owners := Filter(g.participants, HasId(g.ownerParticipantId.value));
      if p :| p in g.participants && p.id == g.ownerParticipantId.value {
        OnlyHolder(g.participants, p);
      }
      hide Filter;
      if owners != [] {
        assert owners[0] in owners;
      }
    }
  }

  lemma ArchiveIs(g: Group)
    requires PeopleFine(g.participants) && g.ownerAtArchive.Some?
    ensures var owners := Filter(g.participants, HasId(g.ownerAtArchive.value));
            (|owners| == 1 && owners[0].active) <==> TakesPart(g.participants, g.ownerAtArchive.value)
  {
    IdsOnce(g.participants);
    hide PeopleFine, DistinctBy;
    var owners := Filter(g.participants, HasId(g.ownerAtArchive.value));
    if p :| p in g.participants && p.id == g.ownerAtArchive.value {
      OnlyHolder(g.participants, p);
    }
    hide Filter;
    if owners != [] {
      assert owners[0] in owners;
    }
  }

  lemma ClosingIs(groupId: string, c: ClosingState)
    ensures ClosingCheck(groupId, c).Pass? <==> ClosingFine(groupId, c)
  {
    ClosingMeans(groupId, c);
    hide ClosingCheck;
    var fences, unfences := c.fenceReceipts, c.unfenceReceipts;
    assert fences[..|fences|] == fences && unfences[..|unfences|] == unfences;
    FencesAre(groupId, c);
    UnfencesAre(groupId, c);
    hide FencesHold, UnfencesHold, FenceFine, Removes;
  }

  lemma FencesAre(groupId: string, c: ClosingState)
    ensures FencesHold(groupId, c, |c.fenceReceipts|) <==>
            (forall r | r in c.fenceReceipts :: FenceFine(r.fence, groupId, c)) &&
            forall i, j | 0 <= i < j < |c.fenceReceipts| ::
              c.fenceReceipts[i].fence.context != c.fenceReceipts[j].fence.context
  {
    var fences := c.fenceReceipts;
    assert fences[..|fences|] == fences;
    if DistinctBy(fences, FenceContextOf) {
      forall i, j | 0 <= i < j < |fences| ensures fences[i].fence.context != fences[j].fence.context {
        assert FenceContextOf(fences[i]) != FenceContextOf(fences[j]);
      }
    }
  }

  lemma UnfencesAre(groupId: string, c: ClosingState)
    ensures UnfencesHold(groupId, c, |c.unfenceReceipts|) <==>
            (forall f | f in c.unfenceReceipts :: FenceFine(f, groupId, c) && Removes(f, c.fenceReceipts)) &&
            forall i, j | 0 <= i < j < |c.unfenceReceipts| ::
              c.unfenceReceipts[i].context != c.unfenceReceipts[j].context
  {
    var unfences := c.unfenceReceipts;
    assert unfences[..|unfences|] == unfences;
    if DistinctBy(unfences, UnfenceContextOf) {
      forall i, j | 0 <= i < j < |unfences| ensures unfences[i].context != unfences[j].context {
        assert UnfenceContextOf(unfences[i]) != UnfenceContextOf(unfences[j]);
      }
    }
    forall f | f in unfences
      ensures UnfenceHolds(f, groupId, c) <==> FenceFine(f, groupId, c) && Removes(f, c.fenceReceipts)
    {
      UnfenceIs(f, groupId, c);
    }
    hide UnfenceHolds, FenceFine, Removes;
  }

  lemma UnfenceIs(f: Fence, groupId: string, c: ClosingState)
    ensures UnfenceHolds(f, groupId, c) <==> FenceFine(f, groupId, c) && Removes(f, c.fenceReceipts)
  {
  }

  lemma StatusIs(g: Group)
    requires PeopleFine(g.participants)
    ensures StatusCheck(g).Pass? <==> StatusFine(g)
  {
    hide *;
    match g.status
    case Active => ActiveIs(g);
    case Closing => ClosingGroupIs(g);
    case Archived => ArchivedIs(g);
  }

  lemma ActiveIs(g: Group)
    requires PeopleFine(g.participants) && g.status == Active
    ensures StatusCheck(g).Pass? <==> StatusFine(g)
  {
    OwnerIs(g);
    hide OwnerCheck, Led, PeopleFine;
  }

  lemma ClosingGroupIs(g: Group)
    requires PeopleFine(g.participants) && g.status == Closing
    ensures StatusCheck(g).Pass? <==> StatusFine(g)
  {
    OwnerIs(g);
    if g.closing.Some? {
      ClosingIs(g.id, g.closing.value);
    }
    hide OwnerCheck, Led, ClosingCheck, ClosingFine, PeopleFine;
  }

  lemma ArchivedIs(g: Group)
    requires PeopleFine(g.participants) && g.status == Archived
    ensures StatusCheck(g).Pass? <==> StatusFine(g)
  {
    if g.ownerAtArchive.Some? {
      ArchiveIs(g);
    }
    hide TakesPart, PeopleFine, Filter;
  }

  lemma RestoreIs(g: Group)
    ensures Restorable(g) <==>
            1 <= g.accessPolicyVersion <= MAX_SAFE && StatusCheck(g).Pass? &&
            ParticipantsCheck(g.participants, 0).Pass? && InvitationsCheck(g.invitations, g.participants, 0).Pass?
  {
    hide StatusCheck, ParticipantsCheck, InvitationsCheck;
  }

  /** A group can be restored exactly when it meets the rules. */
  lemma RestorableExact(g: Group)
    ensures Restorable(g) <==> WellFormed(g)
  {
    RestoreIs(g);
    PeopleAre(g.participants);
    hide Restorable, StatusCheck, StatusFine, ParticipantsCheck, InvitationsCheck, PeopleFine, InvitationsFine;
    if PeopleFine(g.participants) {
      InvitationsAre(g.invitations, g.participants);
      StatusIs(g);
    }
  }
}
