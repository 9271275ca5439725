/**
 * Saving one request in one transaction: the kernel's ordered writes, and the owner that commits or rolls all of them
 * back.
 */
module GroupCommitKernel {
  import opened Outcomes
  import opened Text
  import GR = GroupRuns
  import opened CommandSystem
  import opened CommandSafety
  import opened CommandTheorems

  datatype KernelOutcome =
    | Saved(stored: Stored) | Replayed(saved: Stored) | OperationMismatch | Conflict | AlreadyExists
    | CloseIntentAlreadyExists | Unavailable

  /** The version a request leads to, or why it cannot be saved. */
  function VersionAfter(groups: map<string, Versioned>, r: Request): Result<int, KernelOutcome> {
    match r.expectedVersion
    case None => if r.group.id in groups then Err(AlreadyExists) else Ok(1)
    case Some(v) =>
      if r.group.id !in groups || groups[r.group.id].version != v then Err(Conflict)
      else if !r.stateChanged then Ok(v)
      else if !SafeInteger(v + 1) then Err(Unavailable)
      else Ok(v + 1)
  }

  function ReplayOf(operations: map<Key, Stored>, r: Request): Option<KernelOutcome> {
    if r.key !in operations then None
    else if operations[r.key].command == r.command then Some(Replayed(operations[r.key]))
    else Some(OperationMismatch)
  }

  function Else(replay: Option<KernelOutcome>, otherwise: KernelOutcome): KernelOutcome {
    if replay.Some? then replay.value else otherwise
  }

  /** What saving the request alone answers. */
  function Answer(db: Database, r: Request): KernelOutcome {
    var replay := ReplayOf(db.operations, r);
    if replay.Some? then replay.value
    else if CloseIntent(r).Some? && CloseIntent(r).value in db.intents then CloseIntentAlreadyExists
    else match VersionAfter(db.groups, r)
      case Err(e) => e
      case Ok(version) => Saved(Stored(r.command, r.outcome, r.group.id, version))
  }

  /** All three writes of a saved request. */
  function Written(db: Database, r: Request, stored: Stored): Database {
    Database(
      if r.stateChanged then db.groups[r.group.id := Versioned(r.group, stored.version)] else db.groups,
      if CloseIntent(r).Some? then db.intents[CloseIntent(r).value := r.group.id] else db.intents,
      db.operations[r.key := stored])
  }

  class Storage {
    var groups: map<string, Versioned>
    var intents: map<string, string>
    var operations: map<Key, Stored>

    function Db(): Database
      reads this
    {
      Database(groups, intents, operations)
    }

    /**
     * The state writer: compares the version under the row lock, and replaces the stored group when something changed.
     */
    method Persist(r: Request) returns (result: Result<int, KernelOutcome>)
      modifies this`groups
      ensures result == VersionAfter(old(groups), r)
      ensures groups == if result.Ok? && r.stateChanged then old(groups)[r.group.id := Versioned(r.group,
              result.value)] else old(groups)
    {
      match r.expectedVersion {
        case None =>
          if r.group.id in groups {
            return Err(AlreadyExists);
          }
          if r.stateChanged {
            groups := groups[r.group.id := Versioned(r.group, 1)];
          }
          return Ok(1);
        case Some(expected) =>
          if r.group.id !in groups || groups[r.group.id].version != expected {
            return Err(Conflict);
          }
          if !r.stateChanged {
            return Ok(expected);
          }
          if !SafeInteger(expected + 1) {
            return Err(Unavailable);
          }
          groups := groups[r.group.id := Versioned(r.group, expected + 1)];
          return Ok(expected + 1);
      }
    }

    /** The kernel's statements in order. On a refusal earlier writes may be left for the owner to roll back. */
    method Stage(r: Request) returns (outcome: KernelOutcome)
      modifies this
      ensures outcome == Answer(old(Db()), r)
      ensures outcome.Saved? ==> Db() == Written(old(Db()), r, outcome.stored)
    {
      var replay := ReplayOf(operations, r);
      if replay.Some? {
        return replay.value;
      }
      var intent := CloseIntent(r);
      if intent.Some? {
        if intent.value in intents {
          return Else(ReplayOf(operations, r), CloseIntentAlreadyExists);
        }
        intents := intents[intent.value := r.group.id];
      }
      var version := Persist(r);
      if version.Err? {
        return version.error;
      }
      var stored := Stored(r.command, r.outcome, r.group.id, version.value);
      operations := operations[r.key := stored];
      outcome := Saved(stored);
    }

    /** The transaction owner: a refusal leaves no trace at all, a success leaves all writes. */
    method Commit(r: Request) returns (outcome: KernelOutcome)
      modifies this
      ensures outcome == Answer(old(Db()), r)
      ensures Db() == if outcome.Saved? then Written(old(Db()), r, outcome.stored) else old(Db())
    {
      var savedGroups, savedIntents, savedOperations := groups, intents, operations;
      outcome := Stage(r);
      if !outcome.Saved? {
        groups, intents, operations := savedGroups, savedIntents, savedOperations;
      }
    }
  }

  /** The database after saving requests one after another; a refused one leaves it as it is. */
  function AfterAll(db: Database, rs: seq<Request>): Database
    decreases |rs|
  {
    if rs == [] then db
    else
      var before := AfterAll(db, rs[..|rs| - 1]);
      var r := rs[|rs| - 1];
      if Answer(before, r).Saved? then Written(before, r, Answer(before, r).stored) else before
  }

  /** A saved result is never rewritten, whatever is saved later. */
  lemma {:induction false} SavedStays(db: Database, rs: seq<Request>, key: Key)
    requires key in db.operations
    ensures key in AfterAll(db, rs).operations && AfterAll(db, rs).operations[key] == db.operations[key]
  {
    hide VersionAfter, CloseIntent;
    if rs != [] {
      SavedStays(db, rs[..|rs| - 1], key);
    }
  }

  /**
   * However many requests come in between, a retry of a saved request is answered with the saved result and another
   * command under its key is refused; neither writes anything.
   */
  lemma RetryReplays(db: Database, r: Request, rs: seq<Request>, other: Request)
    requires Answer(db, r).Saved? && other.key == r.key
    ensures var later := AfterAll(Written(db, r, Answer(db, r).stored), rs);
            && Answer(later, other) == (if other.command == r.command then Replayed(Answer(db, r).stored)
                                        else OperationMismatch)
            && AfterAll(later, [other]) == later
  {
    var after := Written(db, r, Answer(db, r).stored);
    SavedStays(after, rs, r.key);
    hide VersionAfter, CloseIntent;
    var later := AfterAll(after, rs);
    assert [other][..0] == [] && AfterAll(later, []) == later;
  }

  // ---- the kernel is one path of the protocol ----

  /** The states of an undisturbed transaction, from its first statement to its commit. */
  ghost predicate Undisturbed(s: System, c: nat, r: Request, s': System) {
    exists s1, s2, s3, s4 ::
      && Next(s, LookUp(c), s1)
      && (if CloseIntent(r).Some? then Next(s1, RegisterIntent(c), s2) else s2 == s1)
      && Next(s2, CheckVersion(c), s3) && Next(s3, Locate(c), s4) && Next(s4, CommitTx(c), s')
  }

  /**
   * What the kernel saves alone, the protocol's statements save step by step: the same database, and the client told
   * the same result.
   */
  lemma KernelFollowsProtocol(s: System, c: nat, r: Request)
    requires c in s.clients && s.clients[c].phase == Waiting && s.txs == map[c := Tx(r, LookingUp, 0)]
    requires r.key == s.clients[c].key && r.command == s.clients[c].command && KindFits(r.command, r.outcome)
    requires Answer(s.db, r).Saved?
    ensures exists s' :: Undisturbed(s, c, r, s') && s'.db == Written(s.db, r, Answer(s.db, r).stored) &&
                         c in s'.clients && s'.clients[c].phase == Replied(Answer(s.db, r).stored) && s'.txs == map[]
  {
    hide Prepare, ReceiptsValid, KindFits;
    var stored := Answer(s.db, r).stored;
    var intent := CloseIntent(r);
    var s1 := Staging(s, c, if intent.Some? then Registering else CheckingVersion, 0);
    var s2 := Staging(s, c, CheckingVersion, 0);
    var s3 := Staging(s, c, Locating, stored.version);
    var s4 := Staging(s, c, Staged, stored.version);
    Restaged(s, c);
    FirstSteps(s, c, r, s1, s2);
    LastSteps(s, c, r, stored, s2, s3, s4);
    var s' := Telling(Committed(s4, c), c, ReplyTo(s4.clients[c], StoredBy(s4.txs[c])));
    Told(s, c, r, stored, s4, s');
    hide Next;
    assert Undisturbed(s, c, r, s');
  }

  lemma Restaged(s: System, c: nat)
    requires c in s.txs && s.txs.Keys == {c}
    ensures forall st, v, st', v' :: Staging(Staging(s, c, st, v), c, st', v') == Staging(s, c, st', v')
  {
    forall st, v, st', v' ensures Staging(Staging(s, c, st, v), c, st', v') == Staging(s, c, st', v') {
      assert Staging(Staging(s, c, st, v), c, st', v').txs == Staging(s, c, st', v').txs;
    }
  }

  lemma FirstSteps(s: System, c: nat, r: Request, s1: System, s2: System)
    requires c in s.clients && s.clients[c].phase == Waiting && s.txs == map[c := Tx(r, LookingUp, 0)] &&
             r.key == s.clients[c].key
    requires Answer(s.db, r).Saved?
    requires s1 == Staging(s, c, if CloseIntent(r).Some? then Registering else CheckingVersion, 0) &&
             s2 == Staging(s, c, CheckingVersion, 0)
    ensures Next(s, LookUp(c), s1)
    ensures if CloseIntent(r).Some? then Next(s1, RegisterIntent(c), s2) else s2 == s1
  {
    hide Prepare, ReceiptsValid, KindFits, VersionAfter;
    Restaged(s, c);
  }

  lemma LastSteps(s: System, c: nat, r: Request, stored: Stored, s2: System, s3: System, s4: System)
    requires c in s.clients && s.clients[c].phase == Waiting && s.txs == map[c := Tx(r, LookingUp, 0)] &&
             r.key == s.clients[c].key
    requires Answer(s.db, r) == Saved(stored)
    requires s2 == Staging(s, c, CheckingVersion, 0) && s3 == Staging(s, c, Locating, stored.version) &&
             s4 == Staging(s, c, Staged, stored.version)
    ensures Next(s2, CheckVersion(c), s3) && Next(s3, Locate(c), s4)
    ensures Next(s4, CommitTx(c), Telling(Committed(s4, c), c, ReplyTo(s4.clients[c], StoredBy(s4.txs[c]))))
  {
    hide *;
    Restaged(s, c);
    SavedSays(s.db, r, stored);
    CheckStep(s, c, r, stored.version, s2, s3);
    LocateStep(s, c, r, stored.version, s3, s4);
    CommitStep(s, c, r, stored.version, s4);
  }

  lemma SavedSays(db: Database, r: Request, stored: Stored)
    requires Answer(db, r) == Saved(stored)
    ensures r.key !in db.operations && VersionAfter(db.groups, r) == Ok(stored.version)
  {
    hide CloseIntent;
  }

  lemma CheckStep(s: System, c: nat, r: Request, version: int, s2: System, s3: System)
    requires c in s.clients && s.clients[c].phase == Waiting && s.txs == map[c := Tx(r, LookingUp, 0)]
    requires VersionAfter(s.db.groups, r) == Ok(version)
    requires s2 == Staging(s, c, CheckingVersion, 0) && s3 == Staging(s2, c, Locating, version)
    ensures Next(s2, CheckVersion(c), s3)
  {
    hide SafeInteger;
  }

  lemma LocateStep(s: System, c: nat, r: Request, version: int, s3: System, s4: System)
    requires c in s.clients && s.clients[c].phase == Waiting && s.txs == map[c := Tx(r, LookingUp, 0)]
    requires r.key !in s.db.operations
    requires s3 == Staging(s, c, Locating, version) && s4 == Staging(s3, c, Staged, version)
    ensures Next(s3, Locate(c), s4)
  {
  }

  lemma CommitStep(s: System, c: nat, r: Request, version: int, s4: System)
    requires c in s.clients && s.clients[c].phase == Waiting && s.txs == map[c := Tx(r, LookingUp, 0)]
    requires s4 == Staging(s, c, Staged, version)
    ensures Next(s4, CommitTx(c), Telling(Committed(s4, c), c, ReplyTo(s4.clients[c], StoredBy(s4.txs[c]))))
  {
    hide ReplyTo, CloseIntent, StoredBy;
  }

  lemma Told(s: System, c: nat, r: Request, stored: Stored, s4: System, s': System)
    requires c in s.clients && s.txs == map[c := Tx(r, LookingUp, 0)] && s4 == Staging(s, c, Staged, stored.version)
    requires r.command == s.clients[c].command && KindFits(r.command, r.outcome) && Answer(s.db, r) == Saved(stored)
    requires s' == Telling(Committed(s4, c), c, ReplyTo(s4.clients[c], StoredBy(s4.txs[c])))
    ensures s'.db == Written(s.db, r, stored) && s'.txs == map[]
    ensures c in s'.clients && s'.clients[c].phase == Replied(stored)
  {
    hide KindFits, CloseIntent;
    assert StoredBy(s4.txs[c]) == stored;
  }

  // ---- every interleaving acts by kernel saves ----

  /** A commit of a sound system is the kernel's save, on the database of that instant. */
  lemma CommitIsSave(s: System, c: nat)
    requires Inv(s) && c in s.txs && s.txs[c].stage == Staged
    ensures Answer(s.db, s.txs[c].request) == Saved(StoredBy(s.txs[c]))
    ensures Committed(s, c).db == Written(s.db, s.txs[c].request, StoredBy(s.txs[c]))
  {
    hide *;
    TxOf(s, c);
    StagedVersion(s.txs[c], s);
    AnswerStaged(s.db, s.txs[c]);
    CommittedIsWritten(s, c);
  }

  /** What the locks of a staged transaction guarantee. */
  lemma StagedVersion(tx: Tx, s: System)
    requires TxSound(tx, s) && tx.stage == Staged
    ensures VersionAfter(s.db.groups, tx.request) == Ok(tx.version) && tx.request.key !in s.db.operations
    ensures CloseIntent(tx.request).Some? ==> CloseIntent(tx.request).value !in s.db.intents
  {
    hide GR.Created, GR.Step, CloseIntent, KindFits;
  }

  lemma AnswerStaged(db: Database, tx: Tx)
    requires VersionAfter(db.groups, tx.request) == Ok(tx.version) && tx.request.key !in db.operations
    requires CloseIntent(tx.request).Some? ==> CloseIntent(tx.request).value !in db.intents
    ensures Answer(db, tx.request) == Saved(StoredBy(tx))
  {
    hide VersionAfter, CloseIntent;
  }

  lemma CommittedIsWritten(s: System, c: nat)
    requires c in s.txs
    ensures Committed(s, c).db == Written(s.db, s.txs[c].request, StoredBy(s.txs[c]))
  {
    hide CloseIntent;
  }

  /**
   * A transaction that its statements end, without an abort, asked for something the kernel refuses at that instant.
   */
  ghost predicate RefusedByKernel(s: System, c: nat) {
    c in s.txs && !Answer(s.db, s.txs[c].request).Saved?
  }

  /** Only the four statements end a transaction otherwise. */
  lemma EndedBy(s: System, e: Event, s': System, c: nat)
    requires Next(s, e, s') && !e.CommitTx? && !e.AbortTx? && c in s.txs && c !in s'.txs
    ensures e == LookUp(c) || e == RegisterIntent(c) || e == CheckVersion(c) || e == Locate(c)
  {
    hide *;
    if e.LookUp? || e.RegisterIntent? || e.CheckVersion? || e.Locate? {
      OwnTransaction(s, e, s');
    } else {
      ClientsKeepTransactions(s, e, s');
    }
  }

  lemma OwnTransaction(s: System, e: Event, s': System)
    requires Next(s, e, s') && (e.LookUp? || e.RegisterIntent? || e.CheckVersion? || e.Locate?)
    ensures s.txs.Keys - {e.client} <= s'.txs.Keys
  {
    hide Looked, IntentFree, GroupFree, KeyFree, CloseIntent, SafeInteger;
  }

  lemma ClientsKeepTransactions(s: System, e: Event, s': System)
    requires Next(s, e, s') && !e.CommitTx? && !e.AbortTx?
    requires !e.LookUp? && !e.RegisterIntent? && !e.CheckVersion? && !e.Locate?
    ensures s.txs.Keys <= s'.txs.Keys
  {
    hide Prepare, ReceiptsValid, Looked, VersionValid, ReceiptFor;
  }

  lemma StatementRefuses(s: System, e: Event, s': System, c: nat)
    requires Next(s, e, s') && c in s.txs && c !in s'.txs && c in s.clients && s.txs[c].request.key == s.clients[c].key
    requires e == LookUp(c) || e == RegisterIntent(c) || e == CheckVersion(c) || e == Locate(c)
    ensures RefusedByKernel(s, c)
  {
    hide Prepare, ReceiptsValid, Looked, VersionValid, ReceiptFor, IntentFree, GroupFree, KeyFree, CloseIntent, ReplyTo;
  }

  lemma EndedIsRefused(s: System, e: Event, s': System, c: nat)
    requires Inv(s) && Next(s, e, s') && !e.CommitTx? && !e.AbortTx? && c in s.txs && c !in s'.txs
    ensures RefusedByKernel(s, c)
  {
    assert c in s.clients && s.txs[c].request.key == s.clients[c].key by {
      hide TxSound, HistorySound, CommitsSound, CountsSound, IntentsSound, ReservationsSound, RepliesSound,
           RemovalsSound, LocksSound, Next;
    }
    hide Inv, Next;
    EndedBy(s, e, s', c);
    StatementRefuses(s, e, s', c);
  }

  /**
   * In every interleaving of clients, statements and failures, each step either leaves the database as it is or commits
   * exactly what the kernel saves alone, and a transaction is refused only where the kernel refuses.
   */
  lemma EveryCommitIsKernel(ss: seq<System>, es: seq<Event>, k: nat)
    requires Execution(ss, es) && k < |es|
    ensures es[k].CommitTx? ==>
            es[k].client in ss[k].txs &&
            var tx := ss[k].txs[es[k].client];
            Answer(ss[k].db, tx.request) == Saved(StoredBy(tx)) &&
              ss[k + 1].db == Written(ss[k].db, tx.request, StoredBy(tx))
    ensures !es[k].CommitTx? ==> ss[k + 1].db == ss[k].db
    ensures forall c | c in ss[k].txs && c !in ss[k + 1].txs ::
            es[k].CommitTx? || es[k].AbortTx? || RefusedByKernel(ss[k], c)
  {
    AlwaysSound(ss, es, k);
    assert Next(ss[k], es[k], ss[k + 1]);
    hide Execution, Inv, Answer, Written, RefusedByKernel;
    if es[k].CommitTx? {
      CommitIsSave(ss[k], es[k].client);
    } else {
      OnlyCommits(ss[k], es[k], ss[k + 1]);
      if !es[k].AbortTx? {
        forall c | c in ss[k].txs && c !in ss[k + 1].txs ensures RefusedByKernel(ss[k], c) {
          EndedIsRefused(ss[k], es[k], ss[k + 1], c);
        }
      }
    }
  }
}
