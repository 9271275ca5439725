/**
 * What a saved result means, in every execution: the commit that saved it carried out its command's own transition, and
 * the result names what that transition did.
 */
module CommandOutcomes {
  import opened Outcomes
  import opened Text
  import opened GroupRoot
  import GR = GroupRuns
  import opened GroupRules
  import opened GroupTransitions
  import opened GroupOutcomes
  import opened CommandSystem
  import opened CommandSafety
  import opened CommandTheorems

  // ---- the transition and the result of each command ----

  /** The transition of a request is its command's, with the command's own arguments and in the actor's name. */
  ghost predicate CarriesOut(actor: string, c: Command, o: Outcome, t: Transition) {
    match c
    case CmdCreate => false
    case CmdTransfer(_, target, _) => t == ToTransfer(actor, target)
    case CmdLeave(_, id, _) => t.ToLeave? && t == ToLeave(actor, id, t.at)
    case CmdInvite(_, target, _) =>
      t.ToInvite? && o.InvitationCreated? && t == ToInvite(actor, o.invitationId, target, t.at)
    case CmdCancelInvitation(_, id, _) => t.ToCancelInvitation? && t == ToCancelInvitation(actor, id, t.at)
    case CmdAccept(_, id, _) =>
      t.ToAccept? && o.InvitationAccepted? && t == ToAccept(actor, id, o.participantId, t.at)
    case CmdStartClosing(_, _) =>
      t.ToStartClosing? && o.GroupClosingStarted? && t == ToStartClosing(actor, o.closeIntentId, t.cutoff)
    case CmdRecordFence(_, r, _) => t == ToRecordFence(r)
    case CmdArchive(_, id, _) => t.ToArchive? && t == ToArchive(actor, id, t.at)
    case CmdReserve(_, id, _) => t == ToReserve(actor, id)
    case CmdRecordUnfence(_, f, _) => t == ToRecordUnfence(f)
    case CmdComplete(_, id, _) => t == ToComplete(actor, id)
  }

  /** The result of a command that names the command's own arguments. */
  ghost predicate NamesArguments(c: Command, o: Outcome, changed: bool) {
    match c
    case CmdCreate => o.GroupCreated?
    case CmdTransfer(_, target, _) =>
      o == if changed then OwnershipTransferred(target) else OwnershipTransferNoOp(target)
    case CmdLeave(_, id, _) => o == ParticipantLeft(id)
    case CmdInvite(_, _, _) => o.InvitationCreated?
    case CmdCancelInvitation(_, id, _) => o == InvitationCancelled(id)
    case CmdAccept(_, id, _) => o.InvitationAccepted? && o.invitationId == id
    case CmdStartClosing(_, _) => o.GroupClosingStarted?
    case CmdRecordFence(_, r, _) => o == FenceReceiptRecorded(r.fence.closeIntentId)
    case CmdArchive(_, id, _) => o == GroupArchived(id)
    case CmdReserve(_, id, _) => o == CancellationReserved(id)
    case CmdRecordUnfence(_, f, _) => o == UnfenceReceiptRecorded(f.closeIntentId)
    case CmdComplete(_, id, _) => o == ClosingCancelled(id)
  }

  /** A new group with the named participant alone in it, who is the actor and owns it. */
  ghost predicate NewGroup(actor: string, o: Outcome, g: Group) {
    && o.GroupCreated? && |g.participants| == 1
    && var p := g.participants[0];
       && p == Participant(o.participantId, actor, p.joinedAt, 1, true, None)
       && g == Group(g.id, Active, Some(o.participantId), [p], [], 1, None, None, None, None)
  }

  ghost predicate RequestMeets(r: Request) {
    && NamesArguments(r.command, r.outcome, r.stateChanged)
    && if r.command.CmdCreate? then
         && r.expectedVersion == None && r.transition == None && r.stateChanged
         && NewGroup(r.key.actorSubject, r.outcome, r.group)
       else
         && r.expectedVersion == Some(r.command.expectedVersion) && r.group.id == r.command.groupId
         && r.transition.Some? && CarriesOut(r.key.actorSubject, r.command, r.outcome, r.transition.value)
  }

  // ---- what the result says of the group before and after ----

  /** The result of a command on a group tells what became of the group. */
  ghost predicate Tells(actor: string, c: Command, o: Outcome, g: Group, g': Group) {
    match c
    case CmdCreate => false
    case CmdTransfer(_, target, _) =>
      && Owns(g, actor) && TakesPart(g.participants, target)
      && g' == g.(ownerParticipantId := Some(target), accessPolicyVersion := g'.accessPolicyVersion)
      && o == if g.ownerParticipantId == Some(target) then OwnershipTransferNoOp(target)
              else OwnershipTransferred(target)
    case CmdLeave(_, id, _) =>
      && o == ParticipantLeft(id) && TakesPart(g.participants, id) && !TakesPart(g'.participants, id)
      && g.ownerParticipantId != Some(id) && exists at :: HasLeft(g, id, at, g')
    case CmdInvite(_, target, _) =>
      && o.InvitationCreated? && Owns(g, actor) && |g'.invitations| == |g.invitations| + 1
      && g' == g.(invitations := g'.invitations, accessPolicyVersion := g.accessPolicyVersion + 1)
      && g'.invitations[..|g.invitations|] == g.invitations
      && var new_ := g'.invitations[|g.invitations|];
         new_.id == o.invitationId && new_.targetSubject == target && new_.status == Pending
    case CmdCancelInvitation(_, id, _) =>
      && o == InvitationCancelled(id) && Owns(g, actor)
      && g' == g.(invitations := g'.invitations, accessPolicyVersion := g.accessPolicyVersion + 1)
      && (exists i :: i in g.invitations && i.id == id && i.status == Pending)
      && InvitationNow(g.invitations, id, Cancelled, None, g'.invitations)
    case CmdAccept(_, id, _) =>
      && o.InvitationAccepted? && o.invitationId == id && exists at :: HasJoined(g, actor, id, o.participantId, at, g')
    case CmdStartClosing(_, _) =>
      && o.GroupClosingStarted? && g.status == Active && Owns(g, actor) && g'.closing.Some?
      && g'.closing.value == ClosingState(o.closeIntentId, g'.closing.value.cutoff, Fencing, [], [])
      && ClosingNow(g, g'.closing.value, g')
    case CmdRecordFence(_, r, _) =>
      && InPhase(g, Fencing) && o == FenceReceiptRecorded(g.closing.value.closeIntentId) && InPhase(g', Fencing)
      && r in g'.closing.value.fenceReceipts
      && g'.closing == Some(g.closing.value.(fenceReceipts := g'.closing.value.fenceReceipts))
      && g' == g.(closing := g'.closing, accessPolicyVersion := g'.accessPolicyVersion)
      && forall x | x in g'.closing.value.fenceReceipts :: x in g.closing.value.fenceReceipts || x == r
    case CmdArchive(_, id, _) =>
      && o == GroupArchived(id) && UnderIntent(g, Fencing, id) && Owns(g, actor)
      && Eligible(g.closing.value.fenceReceipts, ExpenseRecording)
      && Eligible(g.closing.value.fenceReceipts, Settlement)
      && g'.status == Archived && g'.ownerAtArchive == g.ownerParticipantId && g'.archivedAt.Some?
      && g' == g.(status := Archived, ownerParticipantId := None, accessPolicyVersion := g.accessPolicyVersion + 1,
                  closing := None, ownerAtArchive := g.ownerParticipantId, archivedAt := g'.archivedAt,
                  deleteEligibleAt := Some(DeleteEligibleAt(g'.archivedAt.value)))
    case CmdReserve(_, id, _) =>
      && o == CancellationReserved(id) && UnderIntent(g, Fencing, id) && Owns(g, actor)
      && ClosingNow(g, g.closing.value.(phase := Canceling), g')
    case CmdRecordUnfence(_, f, _) =>
      && InPhase(g, Canceling) && o == UnfenceReceiptRecorded(g.closing.value.closeIntentId) && InPhase(g', Canceling)
      && f in g'.closing.value.unfenceReceipts
      && g'.closing == Some(g.closing.value.(unfenceReceipts := g'.closing.value.unfenceReceipts))
      && g' == g.(closing := g'.closing, accessPolicyVersion := g'.accessPolicyVersion)
      && forall x | x in g'.closing.value.unfenceReceipts :: x in g.closing.value.unfenceReceipts || x == f
    case CmdComplete(_, id, _) =>
      && o == ClosingCancelled(id) && UnderIntent(g, Canceling, id) && Owns(g, actor)
      && Unfenced(g.closing.value.unfenceReceipts, ExpenseRecording)
      && Unfenced(g.closing.value.unfenceReceipts, Settlement)
      && g' == g.(status := Active, accessPolicyVersion := g.accessPolicyVersion + 1, closing := None)
  }

  /** The matching transition, where accepted, does what the result tells. */
  lemma DoneIsTold(actor: string, c: Command, o: Outcome, t: Transition, g: Group, g': Group)
    requires !c.CmdCreate? && CarriesOut(actor, c, o, t) && NamesArguments(c, o, g' != g)
    requires May(g, t) && Does(g, t, g')
    ensures Tells(actor, c, o, g, g')
  {
    hide *;
    match c
    case CmdLeave(_, _, _) => LeavingIsTold(actor, c, o, t, g, g');
    case CmdInvite(_, _, _) => InvitingIsTold(actor, c, o, t, g, g');
    case CmdCancelInvitation(_, _, _) => MembersTold(actor, c, o, t, g, g');
    case CmdAccept(_, _, _) => MembersTold(actor, c, o, t, g, g');
    case CmdTransfer(_, _, _) => TransferTold(actor, c, o, t, g, g');
    case CmdStartClosing(_, _) => ClosingTold(actor, c, o, t, g, g');
    case CmdReserve(_, _, _) => ClosingTold(actor, c, o, t, g, g');
    case CmdRecordFence(_, _, _) => ReceiptTold(actor, c, o, t, g, g');
    case CmdRecordUnfence(_, _, _) => ReceiptTold(actor, c, o, t, g, g');
    case CmdArchive(_, _, _) => EndTold(actor, c, o, t, g, g');
    case CmdComplete(_, _, _) => EndTold(actor, c, o, t, g, g');
  }

  lemma TransferTold(actor: string, c: Command, o: Outcome, t: Transition, g: Group, g': Group)
    requires c.CmdTransfer? && CarriesOut(actor, c, o, t) && NamesArguments(c, o, g' != g)
    requires May(g, t) && Does(g, t, g')
    ensures Tells(actor, c, o, g, g')
  {
    hide Owns, TakesPart, HasRoom;
  }

  lemma LeavingIsTold(actor: string, c: Command, o: Outcome, t: Transition, g: Group, g': Group)
    requires c.CmdLeave? && CarriesOut(actor, c, o, t) && NamesArguments(c, o, g' != g)
    requires May(g, t) && Does(g, t, g')
    ensures Tells(actor, c, o, g, g')
  {
    assert MayLeave(g, actor, c.participantId, t.at) && HasLeft(g, c.participantId, t.at, g');
    forall p | p in g'.participants && p.id == c.participantId ensures !p.active {
      var k :| 0 <= k < |g'.participants| && g'.participants[k] == p;
    }
    hide HasLeft, HasRoom;
  }

  lemma InvitingIsTold(actor: string, c: Command, o: Outcome, t: Transition, g: Group, g': Group)
    requires c.CmdInvite? && CarriesOut(actor, c, o, t) && NamesArguments(c, o, g' != g)
    requires May(g, t) && Does(g, t, g')
    ensures Tells(actor, c, o, g, g')
  {
    hide HasRoom, Admits;
  }

  lemma MembersTold(actor: string, c: Command, o: Outcome, t: Transition, g: Group, g': Group)
    requires (c.CmdCancelInvitation? || c.CmdAccept?) && CarriesOut(actor, c, o, t) && NamesArguments(c, o, g' != g)
    requires May(g, t) && Does(g, t, g')
    ensures Tells(actor, c, o, g, g')
  {
    hide HasRoom, Admits, Owns, HasJoined, InvitationNow, MayAccept;
  }

  lemma ClosingTold(actor: string, c: Command, o: Outcome, t: Transition, g: Group, g': Group)
    requires (c.CmdStartClosing? || c.CmdReserve?) && CarriesOut(actor, c, o, t) && NamesArguments(c, o, g' != g)
    requires May(g, t) && Does(g, t, g')
    ensures Tells(actor, c, o, g, g')
  {
    hide HasRoom, Owns;
  }

  lemma ReceiptTold(actor: string, c: Command, o: Outcome, t: Transition, g: Group, g': Group)
    requires (c.CmdRecordFence? || c.CmdRecordUnfence?) && CarriesOut(actor, c, o, t) && NamesArguments(c, o, g' != g)
    requires May(g, t) && Does(g, t, g')
    ensures Tells(actor, c, o, g, g')
  {
    hide HasRoom, Removes;
  }

  lemma EndTold(actor: string, c: Command, o: Outcome, t: Transition, g: Group, g': Group)
    requires (c.CmdArchive? || c.CmdComplete?) && CarriesOut(actor, c, o, t) && NamesArguments(c, o, g' != g)
    requires May(g, t) && Does(g, t, g')
    ensures Tells(actor, c, o, g, g')
  {
    hide HasRoom, Owns, Eligible, Unfenced, DeleteEligibleAt;
  }

  // ---- requests ----

  lemma TransitionCarries(actor: string, c: Command, drawn: Fresh, changed: bool)
    requires !c.CmdCreate?
    ensures TransitionOf(actor, c, drawn).Some? &&
            CarriesOut(actor, c, OutcomeOf(c, drawn, changed), TransitionOf(actor, c, drawn).value)
  {
  }

  lemma OutcomeNames(c: Command, drawn: Fresh, changed: bool)
    ensures NamesArguments(c, OutcomeOf(c, drawn, changed), changed)
  {
  }

  lemma PreparedMeets(groups: map<string, Versioned>, key: Key, c: Command, drawn: Fresh)
    requires Prepare(groups, key, c, drawn).Some?
    requires forall id | id in groups :: groups[id].group.id == id
    ensures RequestMeets(Prepare(groups, key, c, drawn).value)
  {
    hide *;
    if c.CmdCreate? {
      CreationMeets(groups, key, c, drawn);
    } else {
      ChangeMeets(groups, key, c, drawn);
    }
  }

  lemma CreationMeets(groups: map<string, Versioned>, key: Key, c: Command, drawn: Fresh)
    requires c.CmdCreate? && Prepare(groups, key, c, drawn).Some?
    ensures RequestMeets(Prepare(groups, key, c, drawn).value)
  {
    CreateExact(drawn.groupId, drawn.participantId, key.actorSubject, drawn.now);
    hide Create;
  }

  lemma ChangeMeets(groups: map<string, Versioned>, key: Key, c: Command, drawn: Fresh)
    requires !c.CmdCreate? && Prepare(groups, key, c, drawn).Some?
    requires forall id | id in groups :: groups[id].group.id == id
    ensures RequestMeets(Prepare(groups, key, c, drawn).value)
  {
    PreparedIs(groups, key, c, drawn);
    var r := Prepare(groups, key, c, drawn).value;
    SameGroup(groups[c.groupId].group, r.transition.value);
    TransitionCarries(key.actorSubject, c, drawn, r.stateChanged);
    OutcomeNames(c, drawn, r.stateChanged);
    hide Prepare, TransitionOf, OutcomeOf, CarriesOut, NamesArguments, Apply;
  }

  lemma PreparedIs(groups: map<string, Versioned>, key: Key, c: Command, drawn: Fresh)
    requires !c.CmdCreate? && Prepare(groups, key, c, drawn).Some?
    ensures var r := Prepare(groups, key, c, drawn).value;
            && c.groupId in groups && r.key == key && r.command == c && r.expectedVersion == Some(c.expectedVersion)
            && r.transition.Some? && r.transition == TransitionOf(key.actorSubject, c, drawn)
            && Apply(groups[c.groupId].group, r.transition.value) == Ok(r.group)
            && r.outcome == OutcomeOf(c, drawn, r.stateChanged)
  {
    hide TransitionOf, OutcomeOf, Apply, Create;
  }

  // ---- over an execution ----

  ghost predicate RequestsMeet(s: System) {
    forall c | c in s.txs :: RequestMeets(s.txs[c].request)
  }

  /** Only loading makes a request. */
  lemma RequestsOnlyLoaded(s: System, e: Event, s': System)
    requires Next(s, e, s') && RequestsMeet(s) && !e.Load? && !e.CommitTx? && !e.CheckVersion?
    ensures RequestsMeet(s')
  {
    hide RequestMeets, Looked, IntentFree, KeyFree, CloseIntent, ReceiptsValid, VersionValid, ReceiptFor, Prepare;
  }

  lemma RequestsChecked(s: System, e: Event, s': System)
    requires Next(s, e, s') && RequestsMeet(s) && (e.CommitTx? || e.CheckVersion?)
    ensures RequestsMeet(s')
  {
    hide RequestMeets, GroupFree, SafeInteger, StoredBy, ReplyTo, CloseIntent, Prepare;
  }

  lemma RequestLoaded(s: System, e: Event, s': System)
    requires Next(s, e, s') && RequestsMeet(s) && e.Load?
    requires forall id | id in s.db.groups :: s.db.groups[id].group.id == id
    ensures RequestsMeet(s')
  {
    var c := e.client;
    var request := Prepare(s.db.groups, s.clients[c].key, s.clients[c].command, e.drawn);
    if request.Some? {
      PreparedMeets(s.db.groups, s.clients[c].key, s.clients[c].command, e.drawn);
    }
    hide Prepare, RequestMeets;
  }

  lemma GroupsNamed(s: System)
    requires Inv(s)
    ensures forall id | id in s.db.groups :: s.db.groups[id].group.id == id
  {
    hide CommitsSound, CountsSound, IntentsSound, ReservationsSound, RepliesSound, RemovalsSound, TxsSound, LocksSound;
    forall id | id in s.db.groups ensures s.db.groups[id].group.id == id {
      LastState(id, s.db.groups[id], s.history[id], s.transitions[id]);
    }
  }

  lemma {:induction false} AlwaysMeet(ss: seq<System>, es: seq<Event>, k: nat)
    requires Execution(ss, es) && k <= |es|
    ensures RequestsMeet(ss[k])
  {
    hide Inv, Next, RequestMeets;
    if k > 0 {
      AlwaysMeet(ss, es, k - 1);
      AlwaysSound(ss, es, k - 1);
      assert Next(ss[k - 1], es[k - 1], ss[k - 1 + 1]);
      hide RequestsMeet;
      var e := es[k - 1];
      if e.Load? {
        GroupsNamed(ss[k - 1]);
        RequestLoaded(ss[k - 1], e, ss[k]);
      } else if e.CommitTx? || e.CheckVersion? {
        RequestsChecked(ss[k - 1], e, ss[k]);
      } else {
        RequestsOnlyLoaded(ss[k - 1], e, ss[k]);
      }
    }
  }

  // ---- what a commit does ----

  /**
   * The commit saves the command's result, which tells what became of the group it found at the version the command
   * names; a new state is stored one version on, and where nothing changed the store stays as it was.
   */
  ghost predicate Effects(s: System, key: Key, saved: Stored, s': System) {
    var id, c := saved.groupId, saved.command;
    if c.CmdCreate? then
      && id !in s.db.groups && saved.version == 1 && id in s'.db.groups && s'.db.groups[id].version == 1
      && s'.db.groups == s.db.groups[id := s'.db.groups[id]] && s'.db.groups[id].group.id == id
      && NewGroup(key.actorSubject, saved.outcome, s'.db.groups[id].group)
    else
      && id == c.groupId && id in s.db.groups && s.db.groups[id].version == c.expectedVersion && id in s'.db.groups
      && id in s.transitions && id in s'.transitions
      && var g, g' := s.db.groups[id].group, s'.db.groups[id].group;
         && Tells(key.actorSubject, c, saved.outcome, g, g')
         && saved.version == s'.db.groups[id].version
         && if g' == g then s'.db.groups == s.db.groups && s'.transitions == s.transitions
            else
              && saved.version == c.expectedVersion + 1
              && s'.db.groups == s.db.groups[id := Versioned(g', saved.version)]
              && |s'.transitions[id]| == |s.transitions[id]| + 1
              && s'.transitions[id][..|s.transitions[id]|] == s.transitions[id]
              && CarriesOut(key.actorSubject, c, saved.outcome, s'.transitions[id][|s.transitions[id]|])
  }

  /** The group a staged request was drawn up from is the one stored now. */
  lemma StagedBefore(s: System, c: nat)
    requires Inv(s) && c in s.txs && s.txs[c].stage == Staged && s.txs[c].request.expectedVersion.Some?
    ensures var r, id := s.txs[c].request, s.txs[c].request.group.id;
            && id in s.db.groups && id in s.transitions && s.db.groups[id].version == r.expectedVersion.value
            && r.transition.Some? && Apply(s.db.groups[id].group, r.transition.value) == Ok(r.group)
            && (r.stateChanged <==> r.group != s.db.groups[id].group)
            && s.txs[c].version == r.expectedVersion.value + (if r.stateChanged then 1 else 0)
            && WellFormed(s.db.groups[id].group)
  {
    hide *;
    StagedIsReady(s, c);
    ReadyRequest(s, c);
    var id := s.txs[c].request.group.id;
    HistoryAt(s, id);
    RestorableExact(s.db.groups[id].group);
  }

  lemma ReadyRequest(s: System, c: nat)
    requires CommitReady(s, c) && s.txs[c].request.expectedVersion.Some?
    ensures var r, id := s.txs[c].request, s.txs[c].request.group.id;
            && HistorySound(s) && id in s.db.groups && id in s.history && id in s.transitions
            && s.db.groups[id].version == r.expectedVersion.value && 1 <= r.expectedVersion.value <= |s.history[id]|
            && r.transition.Some?
            && Apply(s.history[id][r.expectedVersion.value - 1], r.transition.value) == Ok(r.group)
            && (r.stateChanged <==> r.group != s.history[id][r.expectedVersion.value - 1])
            && s.txs[c].version == r.expectedVersion.value + (if r.stateChanged then 1 else 0)
  {
    hide HistorySound, Apply, KindFits, CloseIntent;
  }

  lemma HistoryAt(s: System, id: string)
    requires HistorySound(s) && id in s.db.groups
    ensures id in s.history && s.db.groups[id].version == |s.history[id]| >= 1
    ensures s.history[id][s.db.groups[id].version - 1] == s.db.groups[id].group
    ensures GR.Restorable(s.db.groups[id].group)
  {
    hide GR.Created, GR.Step, GR.Restorable;
    LastState(id, s.db.groups[id], s.history[id], s.transitions[id]);
    var gs, ts := s.history[id], s.transitions[id];
    GR.CreatedIs(gs[0]);
    GR.RunRestores(gs, ts, |ts|);
  }

  lemma CommitStores(s: System, c: nat)
    requires CommitReady(s, c)
    ensures c in s.txs
    ensures var s', r, id, v := Committed(s, c), s.txs[c].request, s.txs[c].request.group.id, s.txs[c].version;
            && s'.db.groups == (if r.stateChanged then s.db.groups[id := Versioned(r.group, v)] else s.db.groups)
            && s'.db.operations == s.db.operations[r.key := Stored(r.command, r.outcome, id, v)]
            && (!r.stateChanged ==> s'.transitions == s.transitions)
            && (r.stateChanged && id in s.transitions && r.transition.Some? ==>
                  id in s'.transitions && s'.transitions[id] == s.transitions[id] + [r.transition.value])
  {
    hide TxSound, HistorySound, CloseIntent;
  }

  lemma NewIsNew(s: System, c: nat)
    requires CommitReady(s, c) && s.txs[c].request.expectedVersion.None?
    ensures s.txs[c].request.group.id !in s.db.groups && s.txs[c].version == 1
  {
    hide RequestSound, HistorySound;
  }

  lemma CommitEffects(s: System, c: nat)
    requires Inv(s) && c in s.txs && s.txs[c].stage == Staged && RequestMeets(s.txs[c].request)
    ensures var r, s' := s.txs[c].request, Committed(s, c);
            && r.key in s'.db.operations && s'.db.operations[r.key].command == r.command
            && Effects(s, r.key, s'.db.operations[r.key], s')
  {
    hide *;
    StagedIsReady(s, c);
    CommitStores(s, c);
    var r, s', id := s.txs[c].request, Committed(s, c), s.txs[c].request.group.id;
    var saved := s'.db.operations[r.key];
    MeetsSays(r);
    if r.command.CmdCreate? {
      NewIsNew(s, c);
      CreationEffects(s, r, saved, s');
    } else {
      StagedBefore(s, c);
      TransitionExact(s.db.groups[id].group, r.transition.value);
      DoneIsTold(r.key.actorSubject, r.command, r.outcome, r.transition.value, s.db.groups[id].group, r.group);
      ChangeEffects(s, r, saved, s');
    }
  }

  lemma MeetsSays(r: Request)
    requires RequestMeets(r)
    ensures NamesArguments(r.command, r.outcome, r.stateChanged)
    ensures r.command.CmdCreate? ==> r.expectedVersion == None && r.transition == None && r.stateChanged &&
                                     NewGroup(r.key.actorSubject, r.outcome, r.group)
    ensures !r.command.CmdCreate? ==> r.expectedVersion == Some(r.command.expectedVersion) &&
                                      r.group.id == r.command.groupId && r.transition.Some? &&
                                      CarriesOut(r.key.actorSubject, r.command, r.outcome, r.transition.value)
  {
    hide NamesArguments, NewGroup, CarriesOut;
  }

  lemma CreationEffects(s: System, r: Request, saved: Stored, s': System)
    requires r.command.CmdCreate? && r.group.id !in s.db.groups && NewGroup(r.key.actorSubject, r.outcome, r.group)
    requires saved == Stored(r.command, r.outcome, r.group.id, 1)
    requires s'.db.groups == s.db.groups[r.group.id := Versioned(r.group, 1)]
    ensures Effects(s, r.key, saved, s')
  {
    hide NewGroup, Tells, CarriesOut;
  }

  lemma ChangeEffects(s: System, r: Request, saved: Stored, s': System)
    requires !r.command.CmdCreate? && r.group.id == r.command.groupId && r.group.id in s.db.groups && r.transition.Some?
    requires r.group.id in s.transitions && s.db.groups[r.group.id].version == r.command.expectedVersion
    requires r.stateChanged <==> r.group != s.db.groups[r.group.id].group
    requires Tells(r.key.actorSubject, r.command, r.outcome, s.db.groups[r.group.id].group, r.group)
    requires CarriesOut(r.key.actorSubject, r.command, r.outcome, r.transition.value)
    requires saved == Stored(r.command, r.outcome, r.group.id,
                             r.command.expectedVersion + (if r.stateChanged then 1 else 0))
    requires s'.db.groups == if r.stateChanged then s.db.groups[r.group.id := Versioned(r.group, saved.version)]
                             else s.db.groups
    requires !r.stateChanged ==> s'.transitions == s.transitions
    requires r.stateChanged ==> r.group.id in s'.transitions &&
                                s'.transitions[r.group.id] == s.transitions[r.group.id] + [r.transition.value]
    ensures Effects(s, r.key, saved, s')
  {
    hide NewGroup, Tells, CarriesOut;
  }

  lemma EffectsIgnoreClients(s: System, key: Key, saved: Stored, s': System, c: nat, phase: Phase)
    requires c in s'.clients
    ensures Effects(s, key, saved, Telling(s', c, phase)) <==> Effects(s, key, saved, s')
  {
    hide NewGroup, Tells, CarriesOut;
  }

  /** The saved result of an operation was saved by one commit, with the effects the result tells. */
  ghost predicate SavedAt(ss: seq<System>, es: seq<Event>, m: nat, key: Key, saved: Stored)
    requires |ss| == |es| + 1 && m < |es|
  {
    && es[m].CommitTx? && key !in ss[m].db.operations && key in ss[m + 1].db.operations
    && ss[m + 1].db.operations[key] == saved && Effects(ss[m], key, saved, ss[m + 1])
  }

  lemma CommitSaves(s: System, e: Event, s': System, key: Key)
    requires Inv(s) && RequestsMeet(s) && e.CommitTx? && Next(s, e, s') && key in s'.db.operations
    ensures if key in s.db.operations then s'.db.operations[key] == s.db.operations[key]
            else Effects(s, key, s'.db.operations[key], s')
  {
    hide *;
    var c := e.client;
    CommitIs(s, c, s');
    StagedIsReady(s, c);
    CommitStores(s, c);
    MeetsIn(s, c);
    CommitEffects(s, c);
    TellingSays(Committed(s, c), c, ReplyTo(s.clients[c], StoredBy(s.txs[c])));
    if key == s.txs[c].request.key && s.clients[c].phase == Waiting {
      var reply := ReplyTo(s.clients[c], StoredBy(s.txs[c]));
      EffectsIgnoreClients(s, key, s'.db.operations[key], Committed(s, c), c, reply);
    }
  }

  lemma TellingSays(s: System, c: nat, phase: Phase)
    requires c in s.clients
    ensures Telling(s, c, phase).db == s.db
  {
  }

  lemma MeetsIn(s: System, c: nat)
    requires RequestsMeet(s) && c in s.txs
    ensures RequestMeets(s.txs[c].request)
  {
    hide RequestMeets;
  }

  /**
   * Every saved result of every execution was saved by one commit, which carried out the command's own transition on
   * the group the command names at the version it names, and the result names what that transition did.
   */
  lemma {:induction false} SavedTells(ss: seq<System>, es: seq<Event>, k: nat, key: Key) returns (m: nat)
    requires Execution(ss, es) && k <= |es| && key in ss[k].db.operations
    ensures m < k && SavedAt(ss, es, m, key, ss[k].db.operations[key])
  {
    hide Inv, Next, RequestsMeet, Effects;
    if k == 0 {
      assert false;
    } else {
      AlwaysSound(ss, es, k - 1);
      AlwaysMeet(ss, es, k - 1);
      assert Next(ss[k - 1], es[k - 1], ss[k - 1 + 1]);
      if es[k - 1].CommitTx? {
        CommitSaves(ss[k - 1], es[k - 1], ss[k], key);
      } else {
        OnlyCommits(ss[k - 1], es[k - 1], ss[k]);
      }
      if key in ss[k - 1].db.operations {
        m := SavedTells(ss, es, k - 1, key);
      } else {
        m := k - 1;
      }
    }
  }

  // ---- when a command is prepared, and what a lookup answers ----

  /** The transition has the identifiers and the time drawn for this attempt. */
  ghost predicate Uses(drawn: Fresh, t: Transition) {
    match t
    case ToLeave(_, _, at) => at == drawn.now
    case ToInvite(_, i, _, at) => i == drawn.invitationId && at == drawn.now
    case ToCancelInvitation(_, _, at) => at == drawn.now
    case ToAccept(_, _, p, at) => p == drawn.participantId && at == drawn.now
    case ToStartClosing(_, i, cutoff) => i == drawn.closeIntentId && cutoff == drawn.now
    case ToArchive(_, _, at) => at == drawn.now
    case _ => true
  }

  /** The command, carried out with what was drawn for this attempt, is something the group may do. */
  ghost predicate CanBeDone(actor: string, c: Command, drawn: Fresh, g: Group) {
    exists o, t :: CarriesOut(actor, c, o, t) && Uses(drawn, t) && May(g, t)
  }

  lemma OnlyTransition(actor: string, c: Command, drawn: Fresh, o: Outcome, t: Transition)
    requires CarriesOut(actor, c, o, t) && Uses(drawn, t)
    ensures TransitionOf(actor, c, drawn) == Some(t)
  {
  }

  lemma TransitionUses(actor: string, c: Command, drawn: Fresh)
    requires !c.CmdCreate?
    ensures TransitionOf(actor, c, drawn).Some? && Uses(drawn, TransitionOf(actor, c, drawn).value)
  {
  }

  lemma CanBeDoneIs(actor: string, c: Command, drawn: Fresh, g: Group)
    requires !c.CmdCreate?
    ensures TransitionOf(actor, c, drawn).Some?
    ensures CanBeDone(actor, c, drawn, g) <==> May(g, TransitionOf(actor, c, drawn).value)
  {
    TransitionCarries(actor, c, drawn, true);
    TransitionUses(actor, c, drawn);
    hide TransitionOf, OutcomeOf, May, CarriesOut, Uses;
    forall o, t | CarriesOut(actor, c, o, t) && Uses(drawn, t) ensures TransitionOf(actor, c, drawn) == Some(t) {
      OnlyTransition(actor, c, drawn, o, t);
    }
  }

  lemma PrepareUnfolds(groups: map<string, Versioned>, key: Key, c: Command, drawn: Fresh)
    requires c.CmdCreate? ==> Create(drawn.groupId, drawn.participantId, key.actorSubject, drawn.now).Ok?
    ensures var t := TransitionOf(key.actorSubject, c, drawn);
            Prepare(groups, key, c, drawn).Some? <==>
            c.CmdCreate? ||
            (c.groupId in groups && groups[c.groupId].version == c.expectedVersion && t.Some? &&
             Apply(groups[c.groupId].group, t.value).Ok?)
  {
    hide Create, TransitionOf, OutcomeOf, Apply;
  }

  /** A request is drawn up exactly for a creation, or on the named group at the named version when it may change so. */
  lemma PrepareExact(groups: map<string, Versioned>, key: Key, c: Command, drawn: Fresh)
    requires forall id | id in groups :: WellFormed(groups[id].group)
    ensures Prepare(groups, key, c, drawn).Some? <==>
            c.CmdCreate? || (c.groupId in groups && groups[c.groupId].version == c.expectedVersion &&
                             CanBeDone(key.actorSubject, c, drawn, groups[c.groupId].group))
  {
    hide *;
    CreateExact(drawn.groupId, drawn.participantId, key.actorSubject, drawn.now);
    PrepareUnfolds(groups, key, c, drawn);
    if !c.CmdCreate? && c.groupId in groups {
      CanBeDoneIs(key.actorSubject, c, drawn, groups[c.groupId].group);
      TransitionExact(groups[c.groupId].group, TransitionOf(key.actorSubject, c, drawn).value);
    }
  }

  /** A request's transition, new group and result have the identifiers and the time drawn for it. */
  lemma PreparedUses(groups: map<string, Versioned>, key: Key, c: Command, drawn: Fresh)
    requires Prepare(groups, key, c, drawn).Some?
    ensures var r := Prepare(groups, key, c, drawn).value;
            if c.CmdCreate? then
              r.group == Group(drawn.groupId, Active, Some(drawn.participantId),
                               [Participant(drawn.participantId, key.actorSubject, drawn.now, 1, true, None)], [], 1,
                               None, None, None, None)
            else
              r.transition.Some? && Uses(drawn, r.transition.value)
  {
    hide *;
    if c.CmdCreate? {
      CreateExact(drawn.groupId, drawn.participantId, key.actorSubject, drawn.now);
      CreatedIsPrepared(groups, key, c, drawn);
    } else {
      PreparedIs(groups, key, c, drawn);
      TransitionUses(key.actorSubject, c, drawn);
    }
  }

  lemma CreatedIsPrepared(groups: map<string, Versioned>, key: Key, c: Command, drawn: Fresh)
    requires c.CmdCreate? && Prepare(groups, key, c, drawn).Some?
    ensures Create(drawn.groupId, drawn.participantId, key.actorSubject, drawn.now) ==
            Ok(Prepare(groups, key, c, drawn).value.group)
  {
    hide Create, OutcomeOf;
  }

  /** A lookup answers a saved operation of the same command with its result, another command with a refusal. */
  lemma LookupTells(ss: seq<System>, es: seq<Event>, k: nat, c: Client, missing: Phase)
    requires Execution(ss, es) && k <= |es|
    ensures Looked(ss[k].db, c, missing) ==
            if c.key !in ss[k].db.operations then missing
            else if ss[k].db.operations[c.key].command == c.command then Replied(ss[k].db.operations[c.key]) else Failed
  {
    if c.key in ss[k].db.operations {
      SavedKindFits(ss, es, k, c.key);
    }
    hide Execution, KindFits;
  }
}
