/** What every interleaving of group commands keeps. */
module CommandSafety {
  import opened Outcomes
  import opened Sequences
  import opened Text
  import opened GroupRoot
  import GR = GroupRuns
  import GC = GroupClosing
  import opened CommandSystem

  function CommitKeyOf(c: Commit): Key { c.key }

  // ---- the parts of the invariant ----

  /** The stored group is the last of a run of transitions, and its version is the number of states so far. */
  ghost predicate HistoryOf(id: string, stored: Versioned, gs: seq<Group>, ts: seq<Transition>) {
    && GR.Run(gs, ts) && GR.Created(gs[0]) && stored == Versioned(gs[|gs| - 1], |gs|)
    && forall k | 0 <= k < |gs| :: gs[k].id == id
  }

  ghost predicate HistorySound(s: System) {
    && s.history.Keys == s.db.groups.Keys == s.transitions.Keys
    && forall id | id in s.db.groups :: HistoryOf(id, s.db.groups[id], s.history[id], s.transitions[id])
  }

  /** One commit per operation key, and the saved operations are exactly the commits'. */
  ghost predicate CommitsSound(operations: map<Key, Stored>, commits: seq<Commit>) {
    && DistinctBy(commits, CommitKeyOf)
    && (forall c | c in commits ::
        c.key in operations && operations[c.key] == c.stored && KindFits(c.stored.command, c.stored.outcome))
    && forall key | key in operations :: exists c :: c in commits && c.key == key
  }

  function CountFor(id: string): Commit -> int {
    (c: Commit) => if c.stateChanged && c.stored.groupId == id then 1 else 0
  }

  ghost predicate CountsSound(groups: map<string, Versioned>, commits: seq<Commit>) {
    forall id :: Sum(commits, CountFor(id)) == if id in groups then groups[id].version else 0
  }

  /** A close intent was started at most once, and the registry says for which group. */
  ghost predicate IntentsSound(intents: map<string, string>, transitions: map<string, seq<Transition>>) {
    forall id | id in transitions ::
      && GC.FreshIntents(transitions[id])
      && forall t | t in transitions[id] && t.ToStartClosing? ::
         t.closeIntentId in intents && intents[t.closeIntentId] == id
  }

  ghost predicate Reserved(transitions: map<string, seq<Transition>>, id: string, intent: string) {
    id in transitions && exists t :: t in transitions[id] && t.ToReserve? && t.closeIntentId == intent
  }

  /** A saved reservation really was one of the group's transitions. */
  ghost predicate ReservationsSound(operations: map<Key, Stored>, transitions: map<string, seq<Transition>>) {
    forall key | key in operations && operations[key].command.CmdReserve? ::
      Reserved(transitions, operations[key].command.groupId, operations[key].command.closeIntentId)
  }

  ghost predicate RepliesSound(clients: map<nat, Client>, operations: map<Key, Stored>) {
    forall c | c in clients :: ReplySound(clients[c], operations)
  }

  ghost predicate ReplySound(c: Client, operations: map<Key, Stored>) {
    && (c.phase.Replied? ==>
        c.key in operations && operations[c.key] == c.phase.stored && c.phase.stored.command == c.command)
    && (c.fences.Some? ==> ReceiptsValid(c.fences.value, c.command))
  }

  ghost predicate RemovalsSound(removed: set<(Context, string, string)>, transitions: map<string, seq<Transition>>) {
    forall f | f in removed :: Reserved(transitions, f.1, f.2)
  }

  /** The request was computed from a state the group once had, and says what it changes. */
  ghost predicate RequestSound(r: Request, history: map<string, seq<Group>>) {
    && KindFits(r.command, r.outcome)
    && match r.expectedVersion
       case None => r.transition.None? && r.stateChanged && GR.Created(r.group) && !r.command.CmdReserve?
       case Some(v) =>
         && r.transition.Some? && r.group.id in history && 1 <= v <= |history[r.group.id]|
         && GR.Step(history[r.group.id][v - 1], r.transition.value, r.group)
         && (!r.stateChanged ==> r.group == history[r.group.id][v - 1])
         && (r.stateChanged <==> r.group != history[r.group.id][v - 1])
         && (r.command.CmdReserve? ==>
             r.transition == Some(ToReserve(r.key.actorSubject, r.command.closeIntentId)) &&
               r.group.id == r.command.groupId)
  }

  /** What the locks a transaction holds guarantee about the database it will write to. */
  ghost predicate TxSound(tx: Tx, s: System) {
    && RequestSound(tx.request, s.history)
    && (tx.stage == Locating || tx.stage == Staged ==>
          match tx.request.expectedVersion
          case None => tx.request.group.id !in s.db.groups && tx.version == 1
          case Some(v) => tx.request.group.id in s.db.groups && s.db.groups[tx.request.group.id].version == v &&
                          (tx.request.stateChanged ==> SafeInteger(v + 1)) &&
                          tx.version == if tx.request.stateChanged then v + 1 else v)
    && (CloseIntent(tx.request).Some? && (tx.stage == CheckingVersion || tx.stage == Locating || tx.stage == Staged) ==>
          CloseIntent(tx.request).value !in s.db.intents)
    && (tx.stage == Registering ==> CloseIntent(tx.request).Some?)
    && (tx.stage == Staged ==> tx.request.key !in s.db.operations)
  }

  ghost predicate TxsSound(s: System) {
    forall c | c in s.txs :: TxSound(s.txs[c], s) && c in s.clients && s.txs[c].request.key == s.clients[c].key &&
                             s.txs[c].request.command == s.clients[c].command
  }

  ghost predicate Exclusive(tx: Tx, other: Tx) {
    && (forall intent :: HoldsIntent(tx, intent) ==> !HoldsIntent(other, intent))
    && (forall id :: HoldsGroup(tx, id) ==> !HoldsGroup(other, id))
    && (forall key :: HoldsKey(tx, key) ==> !HoldsKey(other, key))
  }

  ghost predicate LocksSound(txs: map<nat, Tx>) {
    forall c, d | c in txs && d in txs && c != d :: Exclusive(txs[c], txs[d])
  }

  ghost predicate Inv(s: System) {
    && HistorySound(s) && CommitsSound(s.db.operations, s.commits) && CountsSound(s.db.groups, s.commits)
    && IntentsSound(s.db.intents, s.transitions) && ReservationsSound(s.db.operations, s.transitions)
    && RepliesSound(s.clients, s.db.operations) && RemovalsSound(s.removed, s.transitions)
    && TxsSound(s) && LocksSound(s.txs)
  }

  lemma EmptySound()
    ensures Inv(EMPTY)
  {
  }

  // ---- events that leave the database alone ----

  /** Nothing committed changed. */
  ghost predicate SameStore(s: System, s': System) {
    s'.db == s.db && s'.history == s.history && s'.transitions == s.transitions && s'.commits == s.commits
  }

  lemma QuietKeeps(s: System, s': System)
    requires Inv(s) && SameStore(s, s')
    requires RepliesSound(s'.clients, s'.db.operations) && RemovalsSound(s'.removed, s'.transitions) && TxsSound(s') &&
             LocksSound(s'.txs)
    ensures Inv(s')
  {
    hide CommitsSound, CountsSound, IntentsSound, ReservationsSound, RepliesSound, RemovalsSound, TxsSound, LocksSound,
         HistoryOf;
  }

  lemma PhaseKeeps(s: System, c: nat, phase: Phase)
    requires RepliesSound(s.clients, s.db.operations) && TxsSound(s) && c in s.clients
    requires ReplySound(s.clients[c].(phase := phase), s.db.operations)
    ensures RepliesSound(Telling(s, c, phase).clients, s.db.operations) && TxsSound(Telling(s, c, phase))
  {
    hide ReplySound, RequestSound;
  }

  lemma FewerTxs(s: System, c: nat)
    requires TxsSound(s) && LocksSound(s.txs)
    ensures TxsSound(s.(txs := s.txs - {c})) && LocksSound(s.txs - {c})
  {
    hide RequestSound, Exclusive;
  }

  lemma TellingKeeps(s: System, c: nat, phase: Phase)
    requires Inv(s) && c in s.clients && ReplySound(s.clients[c].(phase := phase), s.db.operations)
    ensures Inv(Telling(s, c, phase))
  {
    hide CommitsSound, CountsSound, IntentsSound, ReservationsSound, RepliesSound, RemovalsSound, TxsSound, LocksSound,
         HistorySound, ReplySound;
    PhaseKeeps(s, c, phase);
    QuietKeeps(s, Telling(s, c, phase));
  }

  lemma RolledBackKeeps(s: System, c: nat, phase: Phase)
    requires Inv(s) && c in s.clients && ReplySound(s.clients[c].(phase := phase), s.db.operations)
    ensures Inv(RolledBack(s, c, phase))
  {
    hide CommitsSound, CountsSound, IntentsSound, ReservationsSound, RepliesSound, RemovalsSound, TxsSound, LocksSound,
         HistorySound, ReplySound;
    PhaseKeeps(s, c, phase);
    FewerTxs(Telling(s, c, phase), c);
    QuietKeeps(s, RolledBack(s, c, phase));
  }

  lemma LookedSound(s: System, c: nat, missing: Phase)
    requires Inv(s) && c in s.clients && !missing.Replied?
    ensures ReplySound(s.clients[c].(phase := Looked(s.db, s.clients[c], missing)), s.db.operations)
  {
    hide CommitsSound, CountsSound, IntentsSound, ReservationsSound, RemovalsSound, TxsSound, LocksSound, HistorySound,
         ReceiptsValid;
    assert ReplySound(s.clients[c], s.db.operations);
  }

  lemma FencesStay(s: System, c: nat, phase: Phase)
    requires Inv(s) && c in s.clients && !phase.Replied?
    ensures ReplySound(s.clients[c].(phase := phase), s.db.operations)
  {
    hide CommitsSound, CountsSound, IntentsSound, ReservationsSound, RemovalsSound, TxsSound, LocksSound, HistorySound,
         ReceiptsValid;
    assert ReplySound(s.clients[c], s.db.operations);
  }

  /** What a transaction is sound about does not concern the other transactions. */
  lemma TxSame(s: System, s': System, tx: Tx)
    requires s'.db == s.db && s'.history == s.history
    ensures TxSound(tx, s') == TxSound(tx, s)
  {
    hide RequestSound, CloseIntent;
  }

  lemma TxOf(s: System, c: nat)
    requires Inv(s) && c in s.txs
    ensures TxSound(s.txs[c], s) && c in s.clients && s.txs[c].request.key == s.clients[c].key
  {
    hide HistorySound, CommitsSound, CountsSound, IntentsSound, ReservationsSound, RepliesSound, RemovalsSound,
         LocksSound, TxSound;
  }

  lemma ApartFrom(s: System, c: nat, d: nat)
    requires Inv(s) && c in s.txs && d in s.txs && c != d
    ensures Exclusive(s.txs[c], s.txs[d]) && Exclusive(s.txs[d], s.txs[c])
  {
    hide HistorySound, CommitsSound, CountsSound, IntentsSound, ReservationsSound, RepliesSound, RemovalsSound,
         TxsSound, Exclusive;
  }

  /** Moving one transaction to another stage. */
  lemma StagingKeeps(s: System, c: nat, stage: Stage, version: int)
    requires Inv(s) && c in s.txs
    requires var tx := s.txs[c].(stage := stage, version := version);
             TxSound(tx, s) && forall d | d in s.txs && d != c :: Exclusive(tx, s.txs[d]) && Exclusive(s.txs[d], tx)
    ensures Inv(Staging(s, c, stage, version))
  {
    hide CommitsSound, CountsSound, IntentsSound, ReservationsSound, RepliesSound, RemovalsSound, HistorySound,
         Exclusive, TxSound;
    var s' := Staging(s, c, stage, version);
    forall d | d in s'.txs ensures TxSound(s'.txs[d], s') {
      TxSame(s, s', s'.txs[d]);
    }
    QuietKeeps(s, s');
  }

  // ---- drawing up a request ----

  lemma PreparedSound(s: System, key: Key, c: Command, drawn: Fresh)
    requires HistorySound(s) && Prepare(s.db.groups, key, c, drawn).Some?
    ensures RequestSound(Prepare(s.db.groups, key, c, drawn).value, s.history)
    ensures Prepare(s.db.groups, key, c, drawn).value.key == key &&
            Prepare(s.db.groups, key, c, drawn).value.command == c
  {
    hide Apply, Create, HistoryOf, GR.Created, GR.Step;
    if c.CmdCreate? {
      CreatedSound(key, drawn);
    } else {
      ChangeSound(s, key, c, drawn);
    }
  }

  lemma CreatedSound(key: Key, drawn: Fresh)
    requires Create(drawn.groupId, drawn.participantId, key.actorSubject, drawn.now).Ok?
    ensures GR.Created(Create(drawn.groupId, drawn.participantId, key.actorSubject, drawn.now).value)
  {
    hide Create;
  }

  lemma ChangeSound(s: System, key: Key, c: Command, drawn: Fresh)
    requires HistorySound(s) && !c.CmdCreate? && Prepare(s.db.groups, key, c, drawn).Some?
    ensures RequestSound(Prepare(s.db.groups, key, c, drawn).value, s.history)
    ensures Prepare(s.db.groups, key, c, drawn).value.key == key &&
            Prepare(s.db.groups, key, c, drawn).value.command == c
  {
    hide Apply, Create, HistoryOf, GR.Created;
    var before := s.db.groups[c.groupId];
    LastState(c.groupId, before, s.history[c.groupId], s.transitions[c.groupId]);
    SameGroup(before.group, TransitionOf(key.actorSubject, c, drawn).value);
  }

  lemma LastState(id: string, stored: Versioned, gs: seq<Group>, ts: seq<Transition>)
    requires HistoryOf(id, stored, gs, ts)
    ensures 1 <= stored.version == |gs| && gs[stored.version - 1] == stored.group && stored.group.id == id
  {
    hide GR.Step, GR.Created;
  }

  lemma SameGroup(g: Group, t: Transition)
    requires Apply(g, t).Ok?
    ensures Apply(g, t).value.id == g.id
  {
    hide StatusCheck, ParticipantsCheck, InvitationsCheck, FindInvitation, ActiveCount, ActiveSubject, RequireClosing,
         OwnerFor, FindFence, FindUnfence, FindParticipant, Map, WithInvitation, Leaving, LastJoinOrder, Answers,
         FenceFits, FenceShaped;
  }

  /** A new transaction holds no lock. */
  lemma TxAdded(s: System, c: nat, tx: Tx)
    requires TxsSound(s) && LocksSound(s.txs) && c in s.clients && tx.stage == LookingUp && TxSound(tx, s)
    requires tx.request.key == s.clients[c].key && tx.request.command == s.clients[c].command
    ensures TxsSound(s.(txs := s.txs[c := tx])) && LocksSound(s.txs[c := tx])
  {
    hide TxSound, Exclusive;
    var s' := s.(txs := s.txs[c := tx]);
    forall d | d in s'.txs ensures TxSound(s'.txs[d], s') {
      TxSame(s, s', s'.txs[d]);
    }
    forall d | d in s.txs ensures Exclusive(tx, s.txs[d]) && Exclusive(s.txs[d], tx) {
      HoldsNothing(tx, s.txs[d]);
    }
  }

  lemma HoldsNothing(tx: Tx, other: Tx)
    requires tx.stage == LookingUp || tx.stage == Registering
    ensures Exclusive(tx, other) && Exclusive(other, tx)
  {
  }

  lemma LoadKeeps(s: System, c: nat, drawn: Fresh, request: Request)
    requires Inv(s) && c in s.clients && c !in s.txs
    requires Prepare(s.db.groups, s.clients[c].key, s.clients[c].command, drawn) == Some(request)
    ensures Inv(Telling(s, c, Waiting).(txs := s.txs[c := Tx(request, LookingUp, 0)]))
  {
    hide Prepare, HistorySound, CommitsSound, CountsSound, IntentsSound, ReservationsSound, RemovalsSound, ReplySound,
         RequestSound, RepliesSound, TxsSound, LocksSound, TxSound;
    PreparedSound(s, s.clients[c].key, s.clients[c].command, drawn);
    FencesStay(s, c, Waiting);
    TellingKeeps(s, c, Waiting);
    AddingKeeps(Telling(s, c, Waiting), c, request);
  }

  lemma AddingKeeps(s: System, c: nat, request: Request)
    requires Inv(s) && c in s.clients && RequestSound(request, s.history)
    requires request.key == s.clients[c].key && request.command == s.clients[c].command
    ensures Inv(s.(txs := s.txs[c := Tx(request, LookingUp, 0)]))
  {
    hide HistorySound, CommitsSound, CountsSound, IntentsSound, ReservationsSound, RemovalsSound, RequestSound,
         RepliesSound, TxsSound, LocksSound;
    TxAdded(s, c, Tx(request, LookingUp, 0));
    QuietKeeps(s, s.(txs := s.txs[c := Tx(request, LookingUp, 0)]));
  }

  // ---- the statements of a transaction ----

  lemma LookUpKeeps(s: System, c: nat, s': System)
    requires Inv(s) && Next(s, LookUp(c), s')
    ensures Inv(s')
  {
    hide *;
    LookUpIs(s, c, s');
    if s.clients[c].key in s.db.operations {
      LookedSound(s, c, Failed);
      RolledBackKeeps(s, c, Looked(s.db, s.clients[c], Failed));
    } else {
      StageFree(s, c, if CloseIntent(s.txs[c].request).Some? then Registering else CheckingVersion, 0);
    }
  }

  lemma LookUpIs(s: System, c: nat, s': System)
    requires Next(s, LookUp(c), s')
    ensures c in s.clients && c in s.txs && s.txs[c].stage == LookingUp
    ensures s' == if s.clients[c].key in s.db.operations then RolledBack(s, c, Looked(s.db, s.clients[c], Failed))
                  else Staging(s, c, if CloseIntent(s.txs[c].request).Some? then Registering else CheckingVersion, 0)
  {
    hide RolledBack, Staging, Looked, CloseIntent;
  }

  /** The stages without a lock that is new. */
  lemma StageFree(s: System, c: nat, stage: Stage, version: int)
    requires Inv(s) && c in s.txs && s.txs[c].stage == LookingUp
    requires stage == if CloseIntent(s.txs[c].request).Some? then Registering else CheckingVersion
    ensures Inv(Staging(s, c, stage, version))
  {
    hide *;
    TxOf(s, c);
    var tx := s.txs[c].(stage := stage, version := version);
    LookedUpTx(s.txs[c], s, stage, version);
    forall d | d in s.txs && d != c ensures Exclusive(tx, s.txs[d]) && Exclusive(s.txs[d], tx) {
      ApartFrom(s, c, d);
      SameLocks(s.txs[c], tx, s.txs[d]);
    }
    StagingKeeps(s, c, stage, version);
  }

  lemma LookedUpTx(tx: Tx, s: System, stage: Stage, version: int)
    requires TxSound(tx, s) && tx.stage == LookingUp
    requires stage == if CloseIntent(tx.request).Some? then Registering else CheckingVersion
    ensures TxSound(tx.(stage := stage, version := version), s)
  {
    hide RequestSound, CloseIntent;
  }

  /** The first two stages hold no lock, except that the second may stand without an intent. */
  lemma SameLocks(tx: Tx, tx': Tx, other: Tx)
    requires Exclusive(tx, other) && Exclusive(other, tx) && tx'.request == tx.request
    requires tx'.stage == Registering || (tx'.stage == CheckingVersion && CloseIntent(tx.request).None?)
    ensures Exclusive(tx', other) && Exclusive(other, tx')
  {
  }

  lemma RegisterKeeps(s: System, c: nat, s': System)
    requires Inv(s) && Next(s, RegisterIntent(c), s')
    ensures Inv(s')
  {
    hide *;
    RegisterIs(s, c, s');
    if CloseIntent(s.txs[c].request).value in s.db.intents {
      LookedSound(s, c, Failed);
      RolledBackKeeps(s, c, Looked(s.db, s.clients[c], Failed));
    } else {
      RegisteredKeeps(s, c, CloseIntent(s.txs[c].request).value);
    }
  }

  lemma RegisterIs(s: System, c: nat, s': System)
    requires Next(s, RegisterIntent(c), s')
    ensures c in s.clients && c in s.txs && s.txs[c].stage == Registering && CloseIntent(s.txs[c].request).Some?
    ensures IntentFree(s, c, CloseIntent(s.txs[c].request).value)
    ensures s' == if CloseIntent(s.txs[c].request).value in s.db.intents
                  then RolledBack(s, c, Looked(s.db, s.clients[c], Failed)) else Staging(s, c, CheckingVersion, 0)
  {
    hide RolledBack, Staging, Looked, CloseIntent, IntentFree;
  }

  lemma RegisteredKeeps(s: System, c: nat, intent: string)
    requires Inv(s) && c in s.txs && s.txs[c].stage == Registering && CloseIntent(s.txs[c].request) == Some(intent)
    requires intent !in s.db.intents && IntentFree(s, c, intent)
    ensures Inv(Staging(s, c, CheckingVersion, 0))
  {
    hide *;
    TxOf(s, c);
    var tx := s.txs[c].(stage := CheckingVersion, version := 0);
    RegisteredTx(s.txs[c], s, intent);
    forall d | d in s.txs && d != c ensures Exclusive(tx, s.txs[d]) && Exclusive(s.txs[d], tx) {
      ApartFrom(s, c, d);
      NobodyHoldsIntent(s, c, d, intent);
      TakesIntent(s.txs[c], tx, s.txs[d], intent);
    }
    StagingKeeps(s, c, CheckingVersion, 0);
  }

  lemma RegisteredTx(tx: Tx, s: System, intent: string)
    requires TxSound(tx, s) && tx.stage == Registering && CloseIntent(tx.request) == Some(intent)
    requires intent !in s.db.intents
    ensures TxSound(tx.(stage := CheckingVersion, version := 0), s)
  {
    hide RequestSound, CloseIntent;
  }

  lemma NobodyHoldsIntent(s: System, c: nat, d: nat, intent: string)
    requires IntentFree(s, c, intent) && d in s.txs && d != c
    ensures !HoldsIntent(s.txs[d], intent)
  {
    hide HoldsIntent;
  }

  lemma TakesIntent(tx: Tx, tx': Tx, other: Tx, intent: string)
    requires Exclusive(tx, other) && Exclusive(other, tx) && !HoldsIntent(other, intent)
    requires tx'.request == tx.request && CloseIntent(tx.request) == Some(intent) && tx'.stage == CheckingVersion
    ensures Exclusive(tx', other) && Exclusive(other, tx')
  {
    hide CloseIntent;
  }

  /** The version check either ends the transaction or lets it go on with the lock on the group. */
  lemma CheckedIs(s: System, c: nat)
    requires c in s.clients && c in s.txs && TxSound(s.txs[c], s) && s.txs[c].stage == CheckingVersion
    ensures || Checked(s, c) == RolledBack(s, c, Failed) || Checked(s, c) == RolledBack(s, c, Recovering)
            || exists version :: Checked(s, c) == Staging(s, c, Locating, version) &&
                                 TxSound(s.txs[c].(stage := Locating, version := version), s)
  {
    hide RequestSound;
    var tx := s.txs[c];
    var r := tx.request;
    var version := if r.expectedVersion.None? then 1 else if r.stateChanged then r.expectedVersion.value + 1
      else r.expectedVersion.value;
    assert Checked(s, c) == RolledBack(s, c, Failed) || Checked(s, c) == RolledBack(s, c, Recovering) ||
           (Checked(s, c) == Staging(s, c, Locating, version) &&
            TxSound(tx.(stage := Locating, version := version), s));
  }

  lemma CheckKeeps(s: System, c: nat, s': System)
    requires Inv(s) && Next(s, CheckVersion(c), s')
    ensures Inv(s')
  {
    hide *;
    CheckIs(s, c, s');
    TxOf(s, c);
    CheckedIs(s, c);
    if s' == RolledBack(s, c, Failed) {
      FencesStay(s, c, Failed);
      RolledBackKeeps(s, c, Failed);
    } else if s' == RolledBack(s, c, Recovering) {
      FencesStay(s, c, Recovering);
      RolledBackKeeps(s, c, Recovering);
    } else {
      var version :| s' == Staging(s, c, Locating, version) &&
        TxSound(s.txs[c].(stage := Locating, version := version), s);
      CheckedKeeps(s, c, version);
    }
  }

  lemma CheckIs(s: System, c: nat, s': System)
    requires Next(s, CheckVersion(c), s')
    ensures c in s.clients && c in s.txs && s.txs[c].stage == CheckingVersion && s' == Checked(s, c)
    ensures GroupFree(s, c, s.txs[c].request.group.id)
  {
    hide Checked, GroupFree;
  }

  lemma CheckedKeeps(s: System, c: nat, version: int)
    requires Inv(s) && c in s.txs && s.txs[c].stage == CheckingVersion && GroupFree(s, c, s.txs[c].request.group.id)
    requires TxSound(s.txs[c].(stage := Locating, version := version), s)
    ensures Inv(Staging(s, c, Locating, version))
  {
    hide *;
    var tx := s.txs[c].(stage := Locating, version := version);
    forall d | d in s.txs && d != c ensures Exclusive(tx, s.txs[d]) && Exclusive(s.txs[d], tx) {
      ApartFrom(s, c, d);
      NobodyHoldsGroup(s, c, d, tx.request.group.id);
      TakesGroup(s.txs[c], tx, s.txs[d]);
    }
    StagingKeeps(s, c, Locating, version);
  }

  lemma NobodyHoldsGroup(s: System, c: nat, d: nat, id: string)
    requires GroupFree(s, c, id) && d in s.txs && d != c
    ensures !HoldsGroup(s.txs[d], id)
  {
    hide HoldsGroup;
  }

  lemma TakesGroup(tx: Tx, tx': Tx, other: Tx)
    requires Exclusive(tx, other) && Exclusive(other, tx) && !HoldsGroup(other, tx.request.group.id)
    requires tx.stage == CheckingVersion && tx'.request == tx.request && tx'.stage == Locating
    ensures Exclusive(tx', other) && Exclusive(other, tx')
  {
    hide CloseIntent;
  }

  lemma LocateKeeps(s: System, c: nat, s': System)
    requires Inv(s) && Next(s, Locate(c), s')
    ensures Inv(s')
  {
    hide *;
    LocateIs(s, c, s');
    if s.txs[c].request.key in s.db.operations {
      FencesStay(s, c, Racing);
      RolledBackKeeps(s, c, Racing);
    } else {
      LocatedKeeps(s, c);
    }
  }

  lemma LocateIs(s: System, c: nat, s': System)
    requires Next(s, Locate(c), s')
    ensures c in s.clients && c in s.txs && s.txs[c].stage == Locating && KeyFree(s, c, s.txs[c].request.key)
    ensures s' == if s.txs[c].request.key in s.db.operations then RolledBack(s, c, Racing)
                  else Staging(s, c, Staged, s.txs[c].version)
  {
    hide RolledBack, Staging, KeyFree;
  }

  lemma LocatedKeeps(s: System, c: nat)
    requires Inv(s) && c in s.txs && s.txs[c].stage == Locating && KeyFree(s, c, s.txs[c].request.key)
    requires s.txs[c].request.key !in s.db.operations
    ensures Inv(Staging(s, c, Staged, s.txs[c].version))
  {
    hide *;
    TxOf(s, c);
    var tx := s.txs[c].(stage := Staged);
    LocatedTx(s.txs[c], s);
    forall d | d in s.txs && d != c ensures Exclusive(tx, s.txs[d]) && Exclusive(s.txs[d], tx) {
      ApartFrom(s, c, d);
      NobodyHoldsKey(s, c, d, tx.request.key);
      TakesKey(s.txs[c], tx, s.txs[d]);
    }
    StagingKeeps(s, c, Staged, s.txs[c].version);
  }

  lemma LocatedTx(tx: Tx, s: System)
    requires TxSound(tx, s) && tx.stage == Locating && tx.request.key !in s.db.operations
    ensures TxSound(tx.(stage := Staged), s)
  {
    hide RequestSound, CloseIntent;
  }

  lemma NobodyHoldsKey(s: System, c: nat, d: nat, key: Key)
    requires KeyFree(s, c, key) && d in s.txs && d != c
    ensures !HoldsKey(s.txs[d], key)
  {
    hide HoldsKey;
  }

  lemma TakesKey(tx: Tx, tx': Tx, other: Tx)
    requires Exclusive(tx, other) && Exclusive(other, tx) && !HoldsKey(other, tx.request.key)
    requires tx.stage == Locating && tx'.request == tx.request && tx'.stage == Staged
    ensures Exclusive(tx', other) && Exclusive(other, tx')
  {
    hide CloseIntent;
  }

  // ---- the commit ----

  ghost predicate CommitReady(s: System, c: nat) {
    && c in s.txs && s.txs[c].stage == Staged && TxSound(s.txs[c], s)
    && HistorySound(s) && s.db.groups.Keys == s.history.Keys == s.transitions.Keys
  }

  lemma RunExtends(gs: seq<Group>, ts: seq<Transition>, t: Transition, g: Group)
    requires GR.Run(gs, ts) && GR.Step(gs[|gs| - 1], t, g)
    ensures GR.Run(gs + [g], ts + [t])
  {
    hide GR.Step;
    forall k | 0 <= k < |ts| + 1 ensures GR.Step((gs + [g])[k], (ts + [t])[k], (gs + [g])[k + 1]) {
      assert k < |ts| ==> GR.Step(gs[k], ts[k], gs[k + 1]);
    }
  }

  lemma HistoryGrows(s: System, c: nat)
    requires CommitReady(s, c)
    ensures HistorySound(Committed(s, c))
  {
    hide GR.Step, GR.Created, GR.Run, HoldsIntent, CloseIntent, HistoryOf;
    var s', tx := Committed(s, c), s.txs[c];
    var id, r := tx.request.group.id, tx.request;
    forall x | x in s'.db.groups ensures HistoryOf(x, s'.db.groups[x], s'.history[x], s'.transitions[x]) {
      if x != id || !r.stateChanged {
        assert HistoryOf(x, s.db.groups[x], s.history[x], s.transitions[x]);
      } else if r.expectedVersion.None? {
        FirstState(id, r.group);
      } else {
        LastState(id, s.db.groups[id], s.history[id], s.transitions[id]);
        NextState(id, s.db.groups[id], s.history[id], s.transitions[id], r.transition.value, r.group);
      }
    }
  }

  lemma FirstState(id: string, g: Group)
    requires GR.Created(g) && g.id == id
    ensures HistoryOf(id, Versioned(g, 1), [] + [g], [])
  {
    hide GR.Step, GR.Created;
  }

  lemma NextState(id: string, stored: Versioned, gs: seq<Group>, ts: seq<Transition>, t: Transition, g: Group)
    requires HistoryOf(id, stored, gs, ts) && gs != [] && GR.Step(gs[|gs| - 1], t, g) && g.id == id
    ensures HistoryOf(id, Versioned(g, stored.version + 1), gs + [g], ts + [t])
  {
    hide GR.Step, GR.Created;
    RunExtends(gs, ts, t, g);
  }

  lemma CommitsGrow(s: System, c: nat)
    requires CommitReady(s, c) && CommitsSound(s.db.operations, s.commits)
    ensures CommitsSound(Committed(s, c).db.operations, Committed(s, c).commits)
  {
    hide GR.Step, GR.Created, HistorySound;
    var s', tx := Committed(s, c), s.txs[c];
    var one := Commit(tx.request.key, StoredBy(tx), tx.request.stateChanged);
    assert forall x | x in s.commits :: CommitKeyOf(x) != CommitKeyOf(one);
    DistinctSnoc(s.commits, one, CommitKeyOf);
    hide DistinctBy;
    forall key | key in s'.db.operations ensures exists x :: x in s'.commits && x.key == key {
      if key == tx.request.key {
        assert one in s'.commits;
      } else {
        var x :| x in s.commits && x.key == key;
        assert x in s'.commits;
      }
    }
  }

  lemma CountsGrow(s: System, c: nat)
    requires CommitReady(s, c) && CountsSound(s.db.groups, s.commits)
    ensures CountsSound(Committed(s, c).db.groups, Committed(s, c).commits)
  {
    hide GR.Step, GR.Created, HistorySound;
    var s', tx := Committed(s, c), s.txs[c];
    var one := Commit(tx.request.key, StoredBy(tx), tx.request.stateChanged);
    forall id ensures Sum(s'.commits, CountFor(id)) == if id in s'.db.groups then s'.db.groups[id].version else 0 {
      SumAppend(s.commits, [one], CountFor(id));
      assert Sum([one], CountFor(id)) == CountFor(id)(one) + Sum<Commit>([], CountFor(id));
    }
  }

  /** Transitions are only appended, at most one, to one group. */
  lemma TransitionsGrow(s: System, c: nat)
    requires CommitReady(s, c)
    ensures var s', r := Committed(s, c), s.txs[c].request;
            forall id | id in s'.transitions ::
              if id in s.transitions then
                s'.transitions[id] == s.transitions[id] +
                  if r.stateChanged && id == r.group.id then [r.transition.value] else []
              else s'.transitions[id] == []
  {
    hide GR.Step, GR.Created, HistorySound;
  }

  lemma IntentCommitted(s: System, c: nat)
    requires CommitReady(s, c)
    ensures c in s.txs
    ensures var r, s' := s.txs[c].request, Committed(s, c);
            && (CloseIntent(r).Some? ==> CloseIntent(r).value !in s.db.intents)
            && s'.db.intents == if CloseIntent(r).Some? then s.db.intents[CloseIntent(r).value := r.group.id]
               else s.db.intents
  {
    hide HistorySound, RequestSound;
  }

  /** One transition appended to one group, its close intent registered if it starts one. */
  ghost predicate OneAppended(before: map<string, seq<Transition>>, after: map<string, seq<Transition>>, id: string,
                              added: seq<Transition>) {
    |added| <= 1 &&
    forall x | x in after :: after[x] == if x in before then before[x] + (if x == id then added else []) else []
  }

  lemma IntentsExtend(intents: map<string, string>, intents': map<string, string>, before: map<string, seq<Transition>>,
                      after: map<string, seq<Transition>>, id: string, added: seq<Transition>)
    requires IntentsSound(intents, before) && OneAppended(before, after, id, added)
    requires if added != [] && added[0].ToStartClosing?
             then added[0].closeIntentId !in intents && intents' == intents[added[0].closeIntentId := id]
             else intents' == intents
    ensures IntentsSound(intents', after)
  {
    hide GC.FreshIntents;
    forall x | x in after
      ensures GC.FreshIntents(after[x])
      ensures forall t: Transition | t in after[x] && t.ToStartClosing? ::
              t.closeIntentId in intents' && intents'[t.closeIntentId] == x
    {
      var old', more := if x in before then before[x] else [], if x in before && x == id then added else [];
      assert after[x] == old' + more;
      assert GC.FreshIntents(old') by { NothingStarted(); }
      StartsExtend(intents, intents', x, old', more);
    }
  }

  lemma NothingStarted()
    ensures GC.FreshIntents([])
  {
  }

  lemma StartsExtend(intents: map<string, string>, intents': map<string, string>, id: string, ts: seq<Transition>,
                     added: seq<Transition>)
    requires GC.FreshIntents(ts) && |added| <= 1
    requires forall t: Transition | t in ts && t.ToStartClosing? ::
             t.closeIntentId in intents && intents[t.closeIntentId] == id
    requires forall intent | intent in intents :: intent in intents' && intents'[intent] == intents[intent]
    requires added != [] && added[0].ToStartClosing? ==>
             added[0].closeIntentId !in intents && added[0].closeIntentId in intents' &&
               intents'[added[0].closeIntentId] == id
    ensures GC.FreshIntents(ts + added)
    ensures forall t: Transition | t in ts + added && t.ToStartClosing? ::
            t.closeIntentId in intents' && intents'[t.closeIntentId] == id
  {
    FreshExtends(ts, ts + added);
    hide GC.FreshIntents;
    forall t: Transition | t in ts + added && t.ToStartClosing?
      ensures t.closeIntentId in intents' && intents'[t.closeIntentId] == id {
      assert t in ts || (added != [] && t == added[0]);
    }
  }

  function AddedBy(r: Request): seq<Transition> {
    if r.stateChanged && r.transition.Some? then [r.transition.value] else []
  }

  lemma CommitAppends(s: System, c: nat)
    requires CommitReady(s, c)
    ensures c in s.txs && OneAppended(s.transitions, Committed(s, c).transitions, s.txs[c].request.group.id,
                                      AddedBy(s.txs[c].request))
  {
    hide GR.Step, GR.Created, HistorySound;
  }

  lemma IntentsGrow(s: System, c: nat)
    requires CommitReady(s, c) && IntentsSound(s.db.intents, s.transitions)
    ensures IntentsSound(Committed(s, c).db.intents, Committed(s, c).transitions)
  {
    IntentCommitted(s, c);
    CommitAppends(s, c);
    hide TxSound, HistorySound, CommitReady, Committed, IntentsSound, OneAppended;
    var s', r := Committed(s, c), s.txs[c].request;
    IntentsExtend(s.db.intents, s'.db.intents, s.transitions, s'.transitions, r.group.id, AddedBy(r));
  }

  lemma FreshExtends(ts: seq<Transition>, ts': seq<Transition>)
    requires GC.FreshIntents(ts) && (ts' == ts + [] || (|ts'| == |ts| + 1 && ts <= ts'))
    requires |ts'| == |ts| + 1 && ts'[|ts|].ToStartClosing? ==>
             forall t | t in ts && t.ToStartClosing? :: t.closeIntentId != ts'[|ts|].closeIntentId
    ensures GC.FreshIntents(ts')
  {
    forall i, j | 0 <= i < j < |ts'| && ts'[i].ToStartClosing? && ts'[j].ToStartClosing?
      ensures ts'[i].closeIntentId != ts'[j].closeIntentId {
      assert ts'[i] in ts;
    }
  }

  lemma ReservedStays(s: System, c: nat, id: string, intent: string)
    requires CommitReady(s, c) && Reserved(s.transitions, id, intent)
    ensures Reserved(Committed(s, c).transitions, id, intent)
  {
    TransitionsGrow(s, c);
    assert id in Committed(s, c).transitions;
    hide TxSound, HistorySound, CommitReady, Committed;
    var t :| t in s.transitions[id] && t.ToReserve? && t.closeIntentId == intent;
  }

  lemma ReserveChanges(g: Group, actor: string, intent: string, g': Group)
    requires GR.Step(g, ToReserve(actor, intent), g')
    ensures g' != g
  {
    hide StatusCheck, ParticipantsCheck, InvitationsCheck, OwnerFor;
  }

  lemma ReservationIs(r: Request, history: map<string, seq<Group>>)
    requires RequestSound(r, history) && r.command.CmdReserve?
    ensures r.stateChanged && r.group.id in history && r.group.id == r.command.groupId
    ensures r.transition == Some(ToReserve(r.key.actorSubject, r.command.closeIntentId))
  {
    hide GR.Created, GR.Step, KindFits;
    ReserveChanges(history[r.group.id][r.expectedVersion.value - 1], r.key.actorSubject, r.command.closeIntentId,
                   r.group);
  }

  lemma ReadyParts(s: System, c: nat)
    requires CommitReady(s, c)
    ensures c in s.txs && RequestSound(s.txs[c].request, s.history) && s.history.Keys == s.transitions.Keys
    ensures s.history.Keys <= Committed(s, c).transitions.Keys
  {
    hide RequestSound, HistorySound;
  }

  /** A committed reservation is the transition just appended. */
  lemma NewReservation(s: System, c: nat)
    requires CommitReady(s, c) && c in s.txs && s.txs[c].request.command.CmdReserve?
    ensures Reserved(Committed(s, c).transitions, s.txs[c].request.command.groupId,
                     s.txs[c].request.command.closeIntentId)
  {
    hide *;
    ReadyParts(s, c);
    var r, ts := s.txs[c].request, Committed(s, c).transitions;
    ReservationIs(r, s.history);
    TransitionsGrow(s, c);
    assert r.group.id in ts && r.group.id in s.transitions;
    assert r.transition.value in ts[r.group.id];
    ReservedBy(ts, r.command.groupId, r.transition.value);
  }

  lemma ReservedBy(transitions: map<string, seq<Transition>>, id: string, t: Transition)
    requires id in transitions && t in transitions[id] && t.ToReserve?
    ensures Reserved(transitions, id, t.closeIntentId)
  {
  }

  lemma ReservationsGrow(s: System, c: nat)
    requires CommitReady(s, c) && ReservationsSound(s.db.operations, s.transitions)
    ensures ReservationsSound(Committed(s, c).db.operations, Committed(s, c).transitions)
  {
    Listed(s, c);
    var s', r := Committed(s, c), s.txs[c].request;
    assert s'.db.operations == s.db.operations[r.key := StoredBy(s.txs[c])];
    hide CommitReady, Reserved, Committed;
    forall key | key in s'.db.operations && s'.db.operations[key].command.CmdReserve?
      ensures Reserved(s'.transitions, s'.db.operations[key].command.groupId,
                       s'.db.operations[key].command.closeIntentId)
    {
      if key == r.key {
        NewReservation(s, c);
      } else {
        ReservedStays(s, c, s.db.operations[key].command.groupId, s.db.operations[key].command.closeIntentId);
      }
    }
  }

  lemma RequestStays(r: Request, history: map<string, seq<Group>>, history': map<string, seq<Group>>)
    requires RequestSound(r, history) && forall id | id in history :: id in history' && history[id] <= history'[id]
    ensures RequestSound(r, history')
  {
    hide GR.Step, GR.Created;
  }

  lemma OthersStay(s: System, c: nat, d: nat)
    requires CommitReady(s, c) && d in s.txs && d != c && TxSound(s.txs[d], s) && Exclusive(s.txs[c], s.txs[d])
    ensures TxSound(s.txs[d], Committed(s, c))
  {
    hide GR.Step, GR.Created, HistorySound;
    var tx, other, s' := s.txs[c], s.txs[d], Committed(s, c);
    forall id | id in s.history ensures id in s'.history && s.history[id] <= s'.history[id] {
    }
    RequestStays(other.request, s.history, s'.history);
    hide RequestSound;
    assert HoldsGroup(tx, tx.request.group.id) && HoldsKey(tx, tx.request.key);
    assert CloseIntent(tx.request).Some? ==> HoldsIntent(tx, CloseIntent(tx.request).value);
  }

  lemma TxsStay(s: System, c: nat)
    requires CommitReady(s, c) && TxsSound(s) && LocksSound(s.txs)
    ensures TxsSound(Committed(s, c))
  {
    Listed(s, c);
    hide HistorySound, Exclusive, RequestSound, CommitReady, TxSound;
    var s' := Committed(s, c);
    forall d | d in s'.txs
      ensures TxSound(s'.txs[d], s') && d in s'.clients && s'.txs[d].request.key == s'.clients[d].key &&
              s'.txs[d].request.command == s'.clients[d].command
    {
      assert Exclusive(s.txs[c], s.txs[d]);
      OthersStay(s, c, d);
    }
  }

  lemma Listed(s: System, c: nat)
    requires CommitReady(s, c)
    ensures c in s.txs
  {
  }

  lemma RepliesStay(s: System, c: nat)
    requires c in s.txs && RepliesSound(s.clients, s.db.operations) && s.txs[c].request.key !in s.db.operations
    ensures RepliesSound(Committed(s, c).clients, Committed(s, c).db.operations)
  {
    hide ReceiptsValid, CloseIntent;
    var s' := Committed(s, c);
    forall d | d in s'.clients ensures ReplySound(s'.clients[d], s'.db.operations) {
      assert ReplySound(s.clients[d], s.db.operations);
    }
  }

  lemma RemovalsStay(s: System, c: nat)
    requires CommitReady(s, c) && RemovalsSound(s.removed, s.transitions)
    ensures RemovalsSound(Committed(s, c).removed, Committed(s, c).transitions)
  {
    Listed(s, c);
    assert Committed(s, c).removed == s.removed;
    hide Committed, CommitReady, Reserved;
    forall f | f in s.removed ensures Reserved(Committed(s, c).transitions, f.1, f.2) {
      ReservedStays(s, c, f.1, f.2);
    }
  }

  lemma CommittedKeeps(s: System, c: nat)
    requires Inv(s) && c in s.txs && s.txs[c].stage == Staged
    ensures Inv(Committed(s, c))
  {
    assert CommitReady(s, c) && s.txs[c].request.key !in s.db.operations by {
      hide HistoryOf, RequestSound;
      assert TxSound(s.txs[c], s);
    }
    assert Committed(s, c).txs == s.txs - {c};
    hide TxSound, CommitReady, HistorySound, CommitsSound, CountsSound, IntentsSound, ReservationsSound, RemovalsSound,
         RepliesSound, TxsSound, LocksSound, Committed;
    HistoryGrows(s, c);
    CommitsGrow(s, c);
    CountsGrow(s, c);
    IntentsGrow(s, c);
    ReservationsGrow(s, c);
    TxsStay(s, c);
    FewerTxs(s, c);
    RepliesStay(s, c);
    RemovalsStay(s, c);
  }

  lemma CommitKeeps(s: System, c: nat, s': System)
    requires Inv(s) && Next(s, CommitTx(c), s')
    ensures Inv(s')
  {
    hide *;
    CommitIs(s, c, s');
    CommittedKeeps(s, c);
    if s.clients[c].phase == Waiting {
      CommittedReply(s, c);
      TellingKeeps(Committed(s, c), c, ReplyTo(s.clients[c], StoredBy(s.txs[c])));
    }
  }

  /** What a commit event says. */
  lemma CommitIs(s: System, c: nat, s': System)
    requires Next(s, CommitTx(c), s')
    ensures c in s.clients && c in s.txs && s.txs[c].stage == Staged && Committed(s, c).clients == s.clients
    ensures s' == if s.clients[c].phase == Waiting
                  then Telling(Committed(s, c), c, ReplyTo(s.clients[c], StoredBy(s.txs[c]))) else Committed(s, c)
  {
    hide Telling, ReplyTo, StoredBy, CloseIntent;
  }

  /** The reply that goes with a commit is the result it saved. */
  lemma CommittedReply(s: System, c: nat)
    requires Inv(s) && c in s.clients && c in s.txs
    ensures Committed(s, c).clients == s.clients
    ensures ReplySound(s.clients[c].(phase := ReplyTo(s.clients[c], StoredBy(s.txs[c]))), Committed(s, c).db.operations)
  {
    hide *;
    TxOf(s, c);
    ReplyOf(s, c);
    CommittedParts(s, c);
    SavedReply(s.clients[c], s.db.operations, StoredBy(s.txs[c]));
  }

  lemma ReplyOf(s: System, c: nat)
    requires Inv(s) && c in s.clients
    ensures ReplySound(s.clients[c], s.db.operations)
  {
    hide HistorySound, CommitsSound, CountsSound, IntentsSound, ReservationsSound, RemovalsSound, TxsSound, LocksSound,
         ReplySound;
  }

  lemma CommittedParts(s: System, c: nat)
    requires c in s.txs
    ensures Committed(s, c).clients == s.clients && Committed(s, c).removed == s.removed
    ensures s.commits <= Committed(s, c).commits
    ensures Committed(s, c).db.operations == s.db.operations[s.txs[c].request.key := StoredBy(s.txs[c])]
  {
    hide CloseIntent, StoredBy;
  }

  lemma SavedReply(c: Client, operations: map<Key, Stored>, stored: Stored)
    requires ReplySound(c, operations)
    ensures ReplySound(c.(phase := ReplyTo(c, stored)), operations[c.key := stored])
  {
    hide KindFits, ReceiptsValid;
  }
}
