/** At-most-once commands and the safety of closing, in every execution. */
module CommandTheorems {
  import opened Sequences
  import opened Text
  import opened GroupRoot
  import GR = GroupRuns
  import GC = GroupClosing
  import opened CommandSystem
  import opened CommandSafety

  // ---- every event keeps the invariant ----

  lemma StartKeeps(s: System, e: Event, s': System)
    requires Inv(s) && e.Start? && Next(s, e, s')
    ensures Inv(s')
  {
    hide HistorySound, CommitsSound, CountsSound, IntentsSound, ReservationsSound, RemovalsSound, LocksSound, TxSound,
         ReceiptsValid;
    forall c | c in s'.clients ensures ReplySound(s'.clients[c], s'.db.operations) {
      if c != e.client {
        assert ReplySound(s.clients[c], s.db.operations);
      }
    }
    forall c | c in s'.txs ensures TxSound(s'.txs[c], s') {
      TxSame(s, s', s.txs[c]);
    }
    QuietKeeps(s, s');
  }

  lemma RemoveKeeps(s: System, e: Event, s': System)
    requires Inv(s) && e.RemoveFence? && Next(s, e, s')
    ensures Inv(s')
  {
    hide HistorySound, CommitsSound, CountsSound, IntentsSound, LocksSound, TxSound, RemovalsSound;
    var client := s.clients[e.client];
    assert ReplySound(client, s.db.operations);
    var receipt := ReceiptFor(client.fences.value, e.context).value;
    ReceiptNamed(client.fences.value, client.command, e.context);
    hide ReceiptsValid, ReservationsSound, RepliesSound;
    assert Reserved(s.transitions, receipt.fence.groupId,
                    receipt.fence.closeIntentId) by { SavedReservation(s, client.key); }
    forall c | c in s'.txs ensures TxSound(s'.txs[c], s') {
      TxSame(s, s', s.txs[c]);
    }
    RemovalAdded(s.removed, s.transitions, (e.context, receipt.fence.groupId, receipt.fence.closeIntentId));
    QuietKeeps(s, s');
  }

  lemma SavedReservation(s: System, key: Key)
    requires ReservationsSound(s.db.operations, s.transitions) && key in s.db.operations &&
             s.db.operations[key].command.CmdReserve?
    ensures Reserved(s.transitions, s.db.operations[key].command.groupId, s.db.operations[key].command.closeIntentId)
  {
    hide Reserved;
  }

  lemma RemovalAdded(removed: set<(Context, string, string)>, transitions: map<string, seq<Transition>>,
                     f: (Context, string, string))
    requires RemovalsSound(removed, transitions) && Reserved(transitions, f.1, f.2)
    ensures RemovalsSound(removed + {f}, transitions)
  {
    hide Reserved;
  }

  lemma ReceiptNamed(receipts: seq<FenceReceipt>, command: Command, context: Context)
    requires ReceiptsValid(receipts, command)
    ensures command.CmdReserve? && ReceiptFor(receipts, context).Some?
    ensures var f := ReceiptFor(receipts, context).value.fence;
            f.groupId == command.groupId && f.closeIntentId == command.closeIntentId
  {
  }

  lemma ClientKeeps(s: System, e: Event, s': System)
    requires Inv(s) && Next(s, e, s') && (e.Ask? || e.Disconnect? || e.ResolveRace? || e.Recover? || e.GiveUp?)
    ensures Inv(s')
  {
    hide *;
    ClientTold(s, e, s');
    match e
    case Ask(c) => LookedSound(s, c, Loading); TellingKeeps(s, c, Looked(s.db, s.clients[c], Loading));
    case Disconnect(c) => FencesStay(s, c, Recovering); TellingKeeps(s, c, Recovering);
    case ResolveRace(c) => LookedSound(s, c, Recovering); TellingKeeps(s, c, Looked(s.db, s.clients[c], Recovering));
    case Recover(c) => LookedSound(s, c, Failed); TellingKeeps(s, c, Looked(s.db, s.clients[c], Failed));
    case GiveUp(c) => FencesStay(s, c, Failed); TellingKeeps(s, c, Failed);
  }

  /** The client of such an event is told something, and nothing else changes. */
  lemma ClientTold(s: System, e: Event, s': System)
    requires Next(s, e, s') && (e.Ask? || e.Disconnect? || e.ResolveRace? || e.Recover? || e.GiveUp?)
    ensures e.client in s.clients
    ensures s' == Telling(s, e.client, match e
                                       case Ask(c) => Looked(s.db, s.clients[c], Loading)
                                       case Disconnect(_) => Recovering
                                       case ResolveRace(c) => Looked(s.db, s.clients[c], Recovering)
                                       case Recover(c) => Looked(s.db, s.clients[c], Failed)
                                       case _ => Failed)
  {
    hide Telling, Looked, Prepare, ReceiptsValid;
  }

  lemma LoadOrAbortKeeps(s: System, e: Event, s': System)
    requires Inv(s) && Next(s, e, s') && (e.Load? || e.AbortTx?)
    ensures Inv(s')
  {
    if e.Load? {
      hide Inv, Prepare;
      var c := e.client;
      var request := Prepare(s.db.groups, s.clients[c].key, s.clients[c].command, e.drawn);
      if request.None? {
        FencesStay(s, c, Failed);
        TellingKeeps(s, c, Failed);
      } else {
        LoadKeeps(s, c, e.drawn, request.value);
      }
    } else if s.clients[e.client].phase == Waiting {
      hide Inv;
      FencesStay(s, e.client, Recovering);
      RolledBackKeeps(s, e.client, Recovering);
    } else {
      hide HistorySound, CommitsSound, CountsSound, IntentsSound, ReservationsSound, RepliesSound, RemovalsSound,
           TxsSound, LocksSound;
      FewerTxs(s, e.client);
      QuietKeeps(s, s');
    }
  }

  lemma NextKeeps(s: System, e: Event, s': System)
    requires Inv(s) && Next(s, e, s')
    ensures Inv(s')
  {
    hide Inv, Next;
    match e
    case Start(_, _, _, _) => StartKeeps(s, e, s');
    case Ask(_) => ClientKeeps(s, e, s');
    case Load(_, _) => LoadOrAbortKeeps(s, e, s');
    case LookUp(c) => LookUpKeeps(s, c, s');
    case RegisterIntent(c) => RegisterKeeps(s, c, s');
    case CheckVersion(c) => CheckKeeps(s, c, s');
    case Locate(c) => LocateKeeps(s, c, s');
    case CommitTx(c) => CommitKeeps(s, c, s');
    case AbortTx(_) => LoadOrAbortKeeps(s, e, s');
    case Disconnect(_) => ClientKeeps(s, e, s');
    case ResolveRace(_) => ClientKeeps(s, e, s');
    case Recover(_) => ClientKeeps(s, e, s');
    case GiveUp(_) => ClientKeeps(s, e, s');
    case RemoveFence(_, _) => RemoveKeeps(s, e, s');
  }

  // ---- executions ----

  /** Any interleaving of any clients, from the empty system on. */
  ghost predicate Execution(ss: seq<System>, es: seq<Event>) {
    |ss| == |es| + 1 && ss[0] == EMPTY && forall k | 0 <= k < |es| :: Next(ss[k], es[k], ss[k + 1])
  }

  lemma {:induction false} AlwaysSound(ss: seq<System>, es: seq<Event>, k: nat)
    requires Execution(ss, es) && k <= |es|
    ensures Inv(ss[k])
  {
    hide Inv, Next;
    if k == 0 {
      EmptySound();
    } else {
      AlwaysSound(ss, es, k - 1);
      assert Next(ss[k - 1], es[k - 1], ss[k - 1 + 1]);
      NextKeeps(ss[k - 1], es[k - 1], ss[k]);
    }
  }

  // ---- what only grows ----

  /** Saved operations, removed fences and committed transitions are never taken back. */
  ghost predicate Grown(s: System, s': System) {
    && (forall key | key in s.db.operations :: key in s'.db.operations && s'.db.operations[key] == s.db.operations[key])
    && s.removed <= s'.removed && s.commits <= s'.commits
    && Appended(s.transitions, s'.transitions)
  }

  lemma StagedIsReady(s: System, c: nat)
    requires Inv(s) && c in s.txs && s.txs[c].stage == Staged
    ensures CommitReady(s, c) && s.txs[c].request.key !in s.db.operations
  {
    hide HistoryOf, RequestSound, CommitsSound, CountsSound, IntentsSound, ReservationsSound, RepliesSound,
         RemovalsSound, LocksSound;
    assert TxSound(s.txs[c], s);
  }

  ghost predicate Appended(before: map<string, seq<Transition>>, after: map<string, seq<Transition>>) {
    forall id | id in before :: id in after && before[id] <= after[id]
  }

  lemma TransitionsAppended(s: System, c: nat)
    requires CommitReady(s, c)
    ensures Appended(s.transitions, Committed(s, c).transitions)
  {
    TransitionsGrow(s, c);
    ReadyParts(s, c);
    hide Committed, CommitReady, TxSound, RequestSound, HistorySound;
    var after := Committed(s, c).transitions;
    forall id | id in s.transitions ensures id in after && s.transitions[id] <= after[id] {
      assert id in s.history && id in after;
    }
  }

  lemma CommitGrows(s: System, c: nat)
    requires Inv(s) && c in s.txs && s.txs[c].stage == Staged
    ensures Grown(s, Committed(s, c))
  {
    hide *;
    StagedIsReady(s, c);
    CommittedParts(s, c);
    TransitionsAppended(s, c);
    GrownBySaving(s, Committed(s, c), s.txs[c].request.key);
  }

  lemma GrownBySaving(s: System, s': System, key: Key)
    requires key !in s.db.operations && s.removed == s'.removed && s.commits <= s'.commits
    requires key in s'.db.operations && s'.db.operations == s.db.operations[key := s'.db.operations[key]]
    requires Appended(s.transitions, s'.transitions)
    ensures Grown(s, s')
  {
    hide Appended;
  }

  /** Only a commit changes what is stored. */
  lemma OnlyCommits(s: System, e: Event, s': System)
    requires Next(s, e, s') && !e.CommitTx?
    ensures SameStore(s, s') && s.removed <= s'.removed
  {
    hide *;
    if e.LookUp? || e.RegisterIntent? || e.Locate? {
      StatementsOnlyStage(s, e, s');
    } else if e.CheckVersion? || e.AbortTx? || e.Load? {
      TransactionsOnlyMove(s, e, s');
    } else {
      ClientsOnlyTell(s, e, s');
    }
  }

  lemma StatementsOnlyStage(s: System, e: Event, s': System)
    requires Next(s, e, s') && (e.LookUp? || e.RegisterIntent? || e.Locate?)
    ensures SameStore(s, s') && s.removed == s'.removed
  {
    hide Looked, IntentFree, KeyFree, CloseIntent;
  }

  lemma TransactionsOnlyMove(s: System, e: Event, s': System)
    requires Next(s, e, s') && (e.CheckVersion? || e.AbortTx? || e.Load?)
    ensures SameStore(s, s') && s.removed == s'.removed
  {
    hide Prepare, GroupFree, SafeInteger;
  }

  lemma ClientsOnlyTell(s: System, e: Event, s': System)
    requires Next(s, e, s')
    requires e.Start? || e.Ask? || e.Disconnect? || e.ResolveRace? || e.Recover? || e.GiveUp? || e.RemoveFence?
    ensures SameStore(s, s') && s.removed <= s'.removed
  {
    hide Prepare, ReceiptsValid, Looked, VersionValid, ReceiptFor, CloseIntent;
  }

  lemma NextGrows(s: System, e: Event, s': System)
    requires Inv(s) && Next(s, e, s')
    ensures Grown(s, s')
  {
    hide Inv;
    if e.CommitTx? {
      CommitGrows(s, e.client);
    } else {
      OnlyCommits(s, e, s');
      hide Next;
    }
  }

  lemma {:induction false} AlwaysGrows(ss: seq<System>, es: seq<Event>, k: nat, m: nat)
    requires Execution(ss, es) && k <= m <= |es|
    ensures Grown(ss[k], ss[m])
  {
    hide Inv, Next;
    if k < m {
      AlwaysGrows(ss, es, k, m - 1);
      AlwaysSound(ss, es, m - 1);
      assert Next(ss[m - 1], es[m - 1], ss[m - 1 + 1]);
      NextGrows(ss[m - 1], es[m - 1], ss[m]);
    }
  }

  // ---- at most once ----

  /** No two commits of an execution belong to the same actor and operation identifier. */
  lemma OneEffectPerOperation(ss: seq<System>, es: seq<Event>, k: nat, i: nat, j: nat)
    requires Execution(ss, es) && k <= |es| && i < j < |ss[k].commits|
    ensures ss[k].commits[i].key != ss[k].commits[j].key
  {
    AlwaysSound(ss, es, k);
    hide Execution, HistorySound, CountsSound, IntentsSound, ReservationsSound, RepliesSound, RemovalsSound, TxsSound,
         LocksSound;
    assert CommitKeyOf(ss[k].commits[i]) != CommitKeyOf(ss[k].commits[j]);
  }

  /**
   * All successful replies for one operation are equal, whenever and to whomever they are given: to the first attempt,
   * a retry, a loser of a race or a client recovering from an unknown commit. A different command never gets that
   * result.
   */
  lemma RepliesAgree(ss: seq<System>, es: seq<Event>, k: nat, c: nat, m: nat, d: nat)
    requires Execution(ss, es) && k <= m <= |es| && c in ss[k].clients && d in ss[m].clients
    requires ss[k].clients[c].phase.Replied? && ss[m].clients[d].phase.Replied? &&
             ss[k].clients[c].key == ss[m].clients[d].key
    ensures ss[k].clients[c].phase == ss[m].clients[d].phase && ss[k].clients[c].command == ss[m].clients[d].command
    ensures exists i :: 0 <= i < |ss[k].commits| && ss[k].commits[i].key == ss[k].clients[c].key &&
                        ss[k].commits[i].stored == ss[k].clients[c].phase.stored
  {
    hide *;
    StatesOf(ss, es);
    AlwaysSound(ss, es, k);
    AlwaysSound(ss, es, m);
    AlwaysGrows(ss, es, k, m);
    ReplyIsSaved(ss[k], c);
    ReplyIsSaved(ss[m], d);
    SavedStays(ss[k], ss[m], ss[k].clients[c].key);
    var i := SavedByCommit(ss[k], ss[k].clients[c].key);
  }

  lemma StatesOf(ss: seq<System>, es: seq<Event>)
    requires Execution(ss, es)
    ensures |ss| == |es| + 1
  {
  }

  lemma ReplyIsSaved(s: System, c: nat)
    requires Inv(s) && c in s.clients && s.clients[c].phase.Replied?
    ensures s.clients[c].key in s.db.operations && s.db.operations[s.clients[c].key] == s.clients[c].phase.stored
    ensures s.clients[c].phase.stored.command == s.clients[c].command
  {
    hide HistorySound, CommitsSound, CountsSound, IntentsSound, ReservationsSound, RemovalsSound, TxsSound, LocksSound,
         ReceiptsValid;
    assert ReplySound(s.clients[c], s.db.operations);
  }

  lemma SavedStays(s: System, s': System, key: Key)
    requires Grown(s, s') && key in s.db.operations
    ensures key in s'.db.operations && s'.db.operations[key] == s.db.operations[key]
  {
    hide Appended;
  }

  lemma SavedByCommit(s: System, key: Key) returns (i: nat)
    requires Inv(s) && key in s.db.operations
    ensures i < |s.commits| && s.commits[i].key == key && s.commits[i].stored == s.db.operations[key]
  {
    hide HistorySound, CountsSound, IntentsSound, ReservationsSound, RepliesSound, RemovalsSound, TxsSound, LocksSound,
         KindFits, DistinctBy;
    var commit :| commit in s.commits && commit.key == key;
    i :| 0 <= i < |s.commits| && s.commits[i] == commit;
  }

  /** A saved result always has a kind its command accepts, so replays are never refused for their kind. */
  lemma SavedKindFits(ss: seq<System>, es: seq<Event>, k: nat, key: Key)
    requires Execution(ss, es) && k <= |es| && key in ss[k].db.operations
    ensures KindFits(ss[k].db.operations[key].command, ss[k].db.operations[key].outcome)
  {
    AlwaysSound(ss, es, k);
    hide Execution, HistorySound, CountsSound, IntentsSound, ReservationsSound, RepliesSound, RemovalsSound, TxsSound,
         LocksSound, KindFits;
    var c :| c in ss[k].commits && c.key == key;
  }

  /** The version of a group is the number of its committed state changes, creation included. */
  lemma VersionCountsChanges(ss: seq<System>, es: seq<Event>, k: nat, id: string)
    requires Execution(ss, es) && k <= |es| && id in ss[k].db.groups
    ensures ss[k].db.groups[id].version == Sum(ss[k].commits, CountFor(id))
  {
    AlwaysSound(ss, es, k);
    hide Execution, HistorySound, CommitsSound, IntentsSound, ReservationsSound, RepliesSound, RemovalsSound, TxsSound,
         LocksSound;
  }

  /**
   * Every stored group is the last state of a run of accepted transitions from its creation: no update is lost or torn.
   */
  lemma StoredGroupIsRun(ss: seq<System>, es: seq<Event>, k: nat, id: string)
    returns (gs: seq<Group>, ts: seq<Transition>)
    requires Execution(ss, es) && k <= |es| && id in ss[k].db.groups
    ensures GR.Run(gs, ts) && GR.Created(gs[0]) && ss[k].db.groups[id] == Versioned(gs[|ts|], |gs|)
    ensures id in ss[k].transitions && ts == ss[k].transitions[id]
    ensures GR.Restorable(ss[k].db.groups[id].group)
  {
    AlwaysSound(ss, es, k);
    hide Execution, CommitsSound, CountsSound, IntentsSound, ReservationsSound, RepliesSound, RemovalsSound, TxsSound,
         LocksSound, GR.Created, GR.Step, GR.Restorable;
    assert HistoryOf(id, ss[k].db.groups[id], ss[k].history[id], ss[k].transitions[id]);
    gs, ts := ss[k].history[id], ss[k].transitions[id];
    GR.CreatedIs(gs[0]);
    GR.RunRestores(gs, ts, |ts|);
  }

  // ---- the safety of closing ----

  ghost predicate ArchivedUnder(s: System, id: string, intent: string) {
    id in s.transitions && exists t :: t in s.transitions[id] && t.ToArchive? && t.closeIntentId == intent
  }

  lemma NeverBoth(s: System, id: string, intent: string)
    requires Inv(s) && Reserved(s.transitions, id, intent)
    ensures !ArchivedUnder(s, id, intent)
  {
    hide CommitsSound, CountsSound, ReservationsSound, RepliesSound, RemovalsSound, TxsSound, LocksSound, GR.Created,
         GR.Step, GC.FreshIntents;
    if ArchivedUnder(s, id, intent) {
      assert HistoryOf(id, s.db.groups[id], s.history[id], s.transitions[id]);
      var gs, ts := s.history[id], s.transitions[id];
      GR.CreatedIs(gs[0]);
      var t :| t in ts && t.ToReserve? && t.closeIntentId == intent;
      var u :| u in ts && u.ToArchive? && u.closeIntentId == intent;
      var i :| 0 <= i < |ts| && ts[i] == t;
      var j :| 0 <= j < |ts| && ts[j] == u;
      GC.ArchiveXorReserve(gs, ts, i, j, intent);
    }
  }

  /** In no execution do archiving and cancellation reservation both commit under one close intent. */
  lemma ArchiveXorReservation(ss: seq<System>, es: seq<Event>, k: nat, id: string, intent: string)
    requires Execution(ss, es) && k <= |es|
    ensures !(ArchivedUnder(ss[k], id, intent) && Reserved(ss[k].transitions, id, intent))
  {
    AlwaysSound(ss, es, k);
    hide Execution, Inv, ArchivedUnder, Reserved;
    if Reserved(ss[k].transitions, id, intent) {
      NeverBoth(ss[k], id, intent);
    }
  }

  /** Once a context's fence for an intent is removed, the group is not archived under that intent, then or ever. */
  lemma RemovedFenceNeverArchived(ss: seq<System>, es: seq<Event>, k: nat, m: nat, context: Context, id: string,
                                  intent: string)
    requires Execution(ss, es) && k <= |es| && m <= |es| && (context, id, intent) in ss[k].removed
    ensures !ArchivedUnder(ss[m], id, intent)
  {
    var n := if k < m then m else k;
    AlwaysSound(ss, es, n);
    AlwaysGrows(ss, es, k, n);
    AlwaysGrows(ss, es, m, n);
    hide Execution;
    var f := (context, id, intent);
    assert f in ss[n].removed;
    assert Reserved(ss[n].transitions, f.1, f.2) by {
      hide HistorySound, CommitsSound, CountsSound, IntentsSound, ReservationsSound, RepliesSound, TxsSound, LocksSound,
           Reserved;
    }
    hide Inv, Reserved;
    NeverBoth(ss[n], id, intent);
    ArchivedStays(ss[m], ss[n], id, intent);
  }

  lemma ArchivedStays(s: System, s': System, id: string, intent: string)
    requires Grown(s, s')
    ensures ArchivedUnder(s, id, intent) ==> ArchivedUnder(s', id, intent)
  {
    if ArchivedUnder(s, id, intent) {
      var t :| t in s.transitions[id] && t.ToArchive? && t.closeIntentId == intent;
      assert s.transitions[id] <= s'.transitions[id];
      assert t in s'.transitions[id];
    }
  }
}
