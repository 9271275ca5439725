/**
 * Group commands under concurrency: clients that ask, load, commit and recover; transactions that advance statement by
 * statement under row and unique-key locks; commits whose outcome the client may never learn; and the coordinator that
 * removes fences only after its reservation was answered.
 */
module CommandSystem {
  import opened Outcomes
  import opened Text
  import opened GroupRoot

  /** Operation identifiers are scoped to the actor. */
  datatype Key = Key(actorSubject: string, operationId: string)

  /** What a command's fingerprint records; two commands with the same fingerprint are the same command. */
  datatype Command =
    | CmdCreate
    | CmdTransfer(groupId: string, target: string, expectedVersion: int)
    | CmdLeave(groupId: string, participantId: string, expectedVersion: int)
    | CmdInvite(groupId: string, target: string, expectedVersion: int)
    | CmdCancelInvitation(groupId: string, invitationId: string, expectedVersion: int)
    | CmdAccept(groupId: string, invitationId: string, expectedVersion: int)
    | CmdStartClosing(groupId: string, expectedVersion: int)
    | CmdRecordFence(groupId: string, receipt: FenceReceipt, expectedVersion: int)
    | CmdArchive(groupId: string, closeIntentId: string, expectedVersion: int)
    | CmdReserve(groupId: string, closeIntentId: string, expectedVersion: int)
    | CmdRecordUnfence(groupId: string, unfence: Fence, expectedVersion: int)
    | CmdComplete(groupId: string, closeIntentId: string, expectedVersion: int)

  /** Identifiers and the time a command service draws for one attempt. */
  datatype Fresh = Fresh(groupId: string, participantId: string, invitationId: string, closeIntentId: string, now: int)

  datatype Outcome =
    | GroupCreated(participantId: string)
    | OwnershipTransferred(ownerParticipantId: string)
    | OwnershipTransferNoOp(ownerParticipantId: string)
    | ParticipantLeft(participantId: string)
    | InvitationCreated(invitationId: string)
    | InvitationCancelled(invitationId: string)
    | InvitationAccepted(invitationId: string, participantId: string)
    | GroupClosingStarted(closeIntentId: string)
    | FenceReceiptRecorded(closeIntentId: string)
    | GroupArchived(closeIntentId: string)
    | CancellationReserved(closeIntentId: string)
    | UnfenceReceiptRecorded(closeIntentId: string)
    | ClosingCancelled(closeIntentId: string)

  datatype Versioned = Versioned(group: Group, version: int)

  /** A saved success: fingerprint and result. */
  datatype Stored = Stored(command: Command, outcome: Outcome, groupId: string, version: int)

  datatype Database = Database(groups: map<string, Versioned>, intents: map<string, string>,
                               operations: map<Key, Stored>)

  /** What the command service hands to the repository. `transition` is absent for a creation. */
  datatype Request = Request(
    key: Key, command: Command, group: Group, expectedVersion: Option<int>, transition: Option<Transition>,
    stateChanged: bool, outcome: Outcome)

  /** How far a transaction has come: each stage is the next statement to run. */
  datatype Stage = LookingUp | Registering | CheckingVersion | Locating | Staged

  datatype Tx = Tx(request: Request, stage: Stage, version: int)

  datatype Phase = Asking | Loading | Waiting | Racing | Recovering | Replied(stored: Stored) | Failed

  /** The receipts a coordinator was given, fence by fence. */
  datatype Client = Client(key: Key, command: Command, phase: Phase, fences: Option<seq<FenceReceipt>>)

  datatype Commit = Commit(key: Key, stored: Stored, stateChanged: bool)

  /**
   * The database, the clients and transactions at work, the fences removed so far, and the record of what was
   * committed.
   */
  datatype System = System(
    db: Database, clients: map<nat, Client>, txs: map<nat, Tx>, removed: set<(Context, string, string)>,
    history: map<string, seq<Group>>, transitions: map<string, seq<Transition>>, commits: seq<Commit>)

  const EMPTY: System := System(Database(map[], map[], map[]), map[], map[], {}, map[], map[], [])

  // ---- from a command to a request ----

  function TransitionOf(actor: string, c: Command, drawn: Fresh): Option<Transition> {
    match c
    case CmdCreate => None
    case CmdTransfer(_, target, _) => Some(ToTransfer(actor, target))
    case CmdLeave(_, p, _) => Some(ToLeave(actor, p, drawn.now))
    case CmdInvite(_, target, _) => Some(ToInvite(actor, drawn.invitationId, target, drawn.now))
    case CmdCancelInvitation(_, i, _) => Some(ToCancelInvitation(actor, i, drawn.now))
    case CmdAccept(_, i, _) => Some(ToAccept(actor, i, drawn.participantId, drawn.now))
    case CmdStartClosing(_, _) => Some(ToStartClosing(actor, drawn.closeIntentId, drawn.now))
    case CmdRecordFence(_, r, _) => Some(ToRecordFence(r))
    case CmdArchive(_, i, _) => Some(ToArchive(actor, i, drawn.now))
    case CmdReserve(_, i, _) => Some(ToReserve(actor, i))
    case CmdRecordUnfence(_, f, _) => Some(ToRecordUnfence(f))
    case CmdComplete(_, i, _) => Some(ToComplete(actor, i))
  }

  function OutcomeOf(c: Command, drawn: Fresh, changed: bool): Outcome {
    match c
    case CmdCreate => GroupCreated(drawn.participantId)
    case CmdTransfer(_, target, _) => if changed then OwnershipTransferred(target) else OwnershipTransferNoOp(target)
    case CmdLeave(_, p, _) => ParticipantLeft(p)
    case CmdInvite(_, _, _) => InvitationCreated(drawn.invitationId)
    case CmdCancelInvitation(_, i, _) => InvitationCancelled(i)
    case CmdAccept(_, i, _) => InvitationAccepted(i, drawn.participantId)
    case CmdStartClosing(_, _) => GroupClosingStarted(drawn.closeIntentId)
    case CmdRecordFence(_, r, _) => FenceReceiptRecorded(r.fence.closeIntentId)
    case CmdArchive(_, i, _) => GroupArchived(i)
    case CmdReserve(_, i, _) => CancellationReserved(i)
    case CmdRecordUnfence(_, f, _) => UnfenceReceiptRecorded(f.closeIntentId)
    case CmdComplete(_, i, _) => ClosingCancelled(i)
  }

  /** The result kinds a command accepts from a replay. */
  predicate KindFits(c: Command, o: Outcome) {
    match c
    case CmdCreate => o.GroupCreated?
    case CmdTransfer(_, _, _) => o.OwnershipTransferred? || o.OwnershipTransferNoOp?
    case CmdLeave(_, _, _) => o.ParticipantLeft?
    case CmdInvite(_, _, _) => o.InvitationCreated?
    case CmdCancelInvitation(_, _, _) => o.InvitationCancelled?
    case CmdAccept(_, _, _) => o.InvitationAccepted?
    case CmdStartClosing(_, _) => o.GroupClosingStarted?
    case CmdRecordFence(_, _, _) => o.FenceReceiptRecorded?
    case CmdArchive(_, _, _) => o.GroupArchived?
    case CmdReserve(_, _, _) => o.CancellationReserved?
    case CmdRecordUnfence(_, _, _) => o.UnfenceReceiptRecorded?
    case CmdComplete(_, _, _) => o.ClosingCancelled?
  }

  /** The request of one attempt; none when the group is missing, has moved on, or refuses the transition. */
  ghost function Prepare(groups: map<string, Versioned>, key: Key, c: Command, drawn: Fresh): Option<Request> {
    if c.CmdCreate? then
      var created := Create(drawn.groupId, drawn.participantId, key.actorSubject, drawn.now);
      if created.Ok? then Some(Request(key, c, created.value, None, None, true, OutcomeOf(c, drawn, true))) else None
    else if c.groupId !in groups || groups[c.groupId].version != c.expectedVersion then None
    else
      var before := groups[c.groupId];
      var t := TransitionOf(key.actorSubject, c, drawn);
      if t.None? || Apply(before.group, t.value).Err? then None
      else
        var after := Apply(before.group, t.value).value;
        var changed := after != before.group;
        Some(Request(key, c, after, Some(before.version), t, changed, OutcomeOf(c, drawn, changed)))
  }

  function CloseIntent(r: Request): Option<string> {
    if r.stateChanged && r.transition.Some? && r.transition.value.ToStartClosing?
    then Some(r.transition.value.closeIntentId)
    else None
  }

  function ReplyTo(c: Client, stored: Stored): Phase {
    if stored.command != c.command then Failed
    else if !KindFits(c.command, stored.outcome) then Failed
    else Replied(stored)
  }

  /** What a lookup of the client's operation tells it; `missing` when nothing is saved. */
  function Looked(db: Database, c: Client, missing: Phase): Phase {
    if c.key in db.operations then ReplyTo(c, db.operations[c.key]) else missing
  }

  // ---- locks ----

  predicate HoldsIntent(tx: Tx, intent: string) {
    CloseIntent(tx.request) == Some(intent) &&
      (tx.stage == CheckingVersion || tx.stage == Locating || tx.stage == Staged)
  }

  predicate HoldsGroup(tx: Tx, groupId: string) {
    tx.request.group.id == groupId && (tx.stage == Locating || tx.stage == Staged)
  }

  predicate HoldsKey(tx: Tx, key: Key) {
    tx.request.key == key && tx.stage == Staged
  }

  predicate IntentFree(s: System, c: nat, intent: string) {
    forall d | d in s.txs && d != c :: !HoldsIntent(s.txs[d], intent)
  }

  predicate GroupFree(s: System, c: nat, groupId: string) {
    forall d | d in s.txs && d != c :: !HoldsGroup(s.txs[d], groupId)
  }

  predicate KeyFree(s: System, c: nat, key: Key) {
    forall d | d in s.txs && d != c :: !HoldsKey(s.txs[d], key)
  }

  // ---- events ----

  datatype Event =
    | Start(client: nat, key: Key, command: Command, fences: Option<seq<FenceReceipt>>)
    | Ask(client: nat)
    | Load(client: nat, drawn: Fresh)
    | LookUp(client: nat)
    | RegisterIntent(client: nat)
    | CheckVersion(client: nat)
    | Locate(client: nat)
    | CommitTx(client: nat)
    | AbortTx(client: nat)
    | Disconnect(client: nat)
    | ResolveRace(client: nat)
    | Recover(client: nat)
    | GiveUp(client: nat)
    | RemoveFence(client: nat, context: Context)

  function Telling(s: System, c: nat, phase: Phase): System
    requires c in s.clients
  {
    s.(clients := s.clients[c := s.clients[c].(phase := phase)])
  }

  /** The transaction ends without a trace, and its client is told. */
  function RolledBack(s: System, c: nat, phase: Phase): System
    requires c in s.clients
  {
    Telling(s, c, phase).(txs := s.txs - {c})
  }

  function Staging(s: System, c: nat, stage: Stage, version: int): System
    requires c in s.txs
  {
    s.(txs := s.txs[c := s.txs[c].(stage := stage, version := version)])
  }

  predicate Working(s: System, c: nat, stage: Stage) {
    c in s.clients && c in s.txs && s.clients[c].phase == Waiting && s.txs[c].stage == stage
  }

  function StoredBy(tx: Tx): Stored {
    Stored(tx.request.command, tx.request.outcome, tx.request.group.id, tx.version)
  }

  /** Everything the transaction staged becomes visible at once. */
  function Committed(s: System, c: nat): System
    requires c in s.txs
  {
    var tx := s.txs[c];
    var r, id := tx.request, tx.request.group.id;
    var db := Database(
      if r.stateChanged then s.db.groups[id := Versioned(r.group, tx.version)] else s.db.groups,
      if CloseIntent(r).Some? then s.db.intents[CloseIntent(r).value := id] else s.db.intents,
      s.db.operations[r.key := StoredBy(tx)]);
    s.(db := db, txs := s.txs - {c},
       history := if !r.stateChanged then s.history
                  else s.history[id := (if id in s.history then s.history[id] else []) + [r.group]],
       transitions := if !r.stateChanged then s.transitions
                      else s.transitions[id := if id in s.transitions && r.transition.Some?
                                               then s.transitions[id] + [r.transition.value] else []],
       commits := s.commits + [Commit(r.key, StoredBy(tx), r.stateChanged)])
  }

  /** The receipt kept for a context; a later one replaces an earlier one. */
  function ReceiptFor(receipts: seq<FenceReceipt>, context: Context): (r: Option<FenceReceipt>)
    ensures r.Some? ==> r.value in receipts && r.value.fence.context == context
  {
    if receipts == [] then None
    else if receipts[|receipts| - 1].fence.context == context then Some(receipts[|receipts| - 1])
    else ReceiptFor(receipts[..|receipts| - 1], context)
  }

  predicate ReceiptNames(r: Option<FenceReceipt>, groupId: string, intent: string, cutoff: int) {
    r.Some? && r.value.fence.groupId == groupId && r.value.fence.closeIntentId == intent &&
      r.value.fence.cutoff == cutoff
  }

  /** Both contexts' receipts, of the reserved group and intent, under one cutoff. */
  predicate ReceiptsValid(receipts: seq<FenceReceipt>, command: Command) {
    && command.CmdReserve?
    && var expense := ReceiptFor(receipts, ExpenseRecording);
       && expense.Some?
       && ReceiptNames(expense, command.groupId, command.closeIntentId, expense.value.fence.cutoff)
       && ReceiptNames(ReceiptFor(receipts, Settlement), command.groupId, command.closeIntentId,
                       expense.value.fence.cutoff)
  }

  predicate VersionValid(c: Command) {
    c.CmdCreate? || (SafeInteger(c.expectedVersion) && c.expectedVersion >= 1)
  }

  ghost predicate Next(s: System, e: Event, s': System) {
    match e
    case Start(c, key, command, fences) =>
      && c !in s.clients && VersionValid(command) && (fences.Some? ==> ReceiptsValid(fences.value, command))
      && s' == s.(clients := s.clients[c := Client(key, command, Asking, fences)])
    case Ask(c) =>
      c in s.clients && s.clients[c].phase == Asking && s' == Telling(s, c, Looked(s.db, s.clients[c], Loading))
    case Load(c, drawn) =>
      && c in s.clients && s.clients[c].phase == Loading && c !in s.txs
      && var request := Prepare(s.db.groups, s.clients[c].key, s.clients[c].command, drawn);
         s' == if request.None? then Telling(s, c, Failed)
               else Telling(s, c, Waiting).(txs := s.txs[c := Tx(request.value, LookingUp, 0)])
    case LookUp(c) =>
      && Working(s, c, LookingUp)
      && s' == if s.clients[c].key in s.db.operations then RolledBack(s, c, Looked(s.db, s.clients[c], Failed))
               else Staging(s, c, if CloseIntent(s.txs[c].request).Some? then Registering else CheckingVersion, 0)
    case RegisterIntent(c) =>
      && Working(s, c, Registering)
      && var intent := CloseIntent(s.txs[c].request);
         intent.Some? && IntentFree(s, c, intent.value) &&
         s' == if intent.value in s.db.intents then RolledBack(s, c, Looked(s.db, s.clients[c], Failed))
               else Staging(s, c, CheckingVersion, 0)
    case CheckVersion(c) =>
      && Working(s, c, CheckingVersion) && GroupFree(s, c, s.txs[c].request.group.id)
      && s' == Checked(s, c)
    case Locate(c) =>
      && Working(s, c, Locating) && KeyFree(s, c, s.txs[c].request.key)
      && s' == if s.txs[c].request.key in s.db.operations then RolledBack(s, c, Racing)
         else Staging(s, c, Staged, s.txs[c].version)
    case CommitTx(c) =>
      && c in s.clients && c in s.txs && s.txs[c].stage == Staged
      && s' == if s.clients[c].phase == Waiting then Telling(Committed(s, c), c,
                                                             ReplyTo(s.clients[c], StoredBy(s.txs[c])))
               else Committed(s, c)
    case AbortTx(c) =>
      && c in s.clients && c in s.txs
      && s' == if s.clients[c].phase == Waiting then RolledBack(s, c, Recovering) else s.(txs := s.txs - {c})
    case Disconnect(c) =>
      c in s.clients && c in s.txs && s.clients[c].phase == Waiting && s' == Telling(s, c, Recovering)
    case ResolveRace(c) =>
      c in s.clients && s.clients[c].phase == Racing && s' == Telling(s, c, Looked(s.db, s.clients[c], Recovering))
    case Recover(c) =>
      c in s.clients && s.clients[c].phase == Recovering && s' == Telling(s, c, Looked(s.db, s.clients[c], Failed))
    case GiveUp(c) =>
      c in s.clients && (s.clients[c].phase == Asking || s.clients[c].phase == Loading ||
                         s.clients[c].phase == Racing ||
                         s.clients[c].phase == Recovering) && s' == Telling(s, c, Failed)
    case RemoveFence(c, context) =>
      && c in s.clients && s.clients[c].phase.Replied? && s.clients[c].fences.Some?
      && var receipt := ReceiptFor(s.clients[c].fences.value, context);
         receipt.Some? &&
         s' == s.(removed := s.removed + {(context, receipt.value.fence.groupId, receipt.value.fence.closeIntentId)})
  }

  /** The state writer's version check, under the row lock; no effect is visible before the commit. */
  function Checked(s: System, c: nat): System
    requires c in s.clients && c in s.txs
  {
    var r := s.txs[c].request;
    match r.expectedVersion
    case None => if r.group.id in s.db.groups then RolledBack(s, c, Failed) else Staging(s, c, Locating, 1)
    case Some(v) =>
      if r.group.id !in s.db.groups || s.db.groups[r.group.id].version != v then RolledBack(s, c, Failed)
      else if !r.stateChanged then Staging(s, c, Locating, v)
      else if !SafeInteger(v + 1) then RolledBack(s, c, Recovering)
      else Staging(s, c, Locating, v + 1)
  }
}
