/** The hash-chained ledger of deletions and recoveries, and the walk that verifies it. */
module DeletionLedger {
  import opened Outcomes
  import opened Text
  import Utf8
  import opened Tlv
  import opened RecipientCodeRecords

  datatype DeletionState = Prepared | Complete

  datatype Record =
    | Deletion(operationId: string, actorDigestKeyVersion: string, actorDigest: seq<Utf8.byte>, preparedAt: int,
               version: int, state: DeletionState, targetReference: string)
    | Recovery(operationId: string, epoch: string, completedAt: int, evidenceDigest: seq<Utf8.byte>)

  datatype Entry = Entry(
    sequence: int, previousHash: string, record: Record, macKeyVersion: string, mac: seq<Utf8.byte>, hash: string)

  datatype Head = Head(sequence: int, hash: string)

  /** The foreign functions: the entry hash, and whether a MAC verifies under a key version. */
  datatype Crypto = Crypto(
    hash: (seq<Utf8.byte>, seq<Utf8.byte>) -> string, verifies: (seq<Utf8.byte>, string, seq<Utf8.byte>) -> bool)

  /** Different bodies or MACs never share a hash. */
  ghost predicate Injective(crypto: Crypto) {
    forall b: seq<Utf8.byte>, m: seq<Utf8.byte>, b': seq<Utf8.byte>, m': seq<Utf8.byte> ::
      crypto.hash(b, m) == crypto.hash(b', m') ==> b == b' && m == m'
  }

  const EIGHT_ZEROS: string := "00000000"
  const ZERO_HASH: string :=
    EIGHT_ZEROS + EIGHT_ZEROS + EIGHT_ZEROS + EIGHT_ZEROS + EIGHT_ZEROS + EIGHT_ZEROS + EIGHT_ZEROS + EIGHT_ZEROS
  const ORIGIN: Head := Head(0, ZERO_HASH)

  // ---- well-formed records ----

  predicate HexHash(s: string) {
    |s| == 64 && forall i | 0 <= i < 64 :: LowerHex(s[i])
  }

  predicate KeyName(s: string) {
    |s| >= 1 && forall i | 0 <= i < |s| :: KeyVersionChar(s[i])
  }

  predicate RecordValid(r: Record) {
    match r
    case Deletion(op, key, digest, at, version, _, target) =>
      && UuidV4(op) && KeyName(key) && |digest| == 32 && Instant(at) && 1 <= version <= MAX_SAFE && KeyName(target) &&
         |target| <= 256
    case Recovery(op, epoch, at, digest) => UuidV4(op) && UuidV4(epoch) && Instant(at) && |digest| == 32
  }

  predicate EntryValid(e: Entry) {
    && 1 <= e.sequence <= MAX_SAFE && HexHash(e.previousHash) && RecordValid(e.record) && KeyName(e.macKeyVersion)
    && |e.mac| == 32 && HexHash(e.hash)
  }

  // ---- the body ----

  function StateName(s: DeletionState): string {
    if s.Prepared? then "prepared" else "complete"
  }

  function Facts(r: Record): seq<Value>
    requires RecordValid(r)
  {
    match r
    case Deletion(_, key, digest, at, version, state, target) =>
      [Words(key), Binary(digest), Words(Decimal(at)), Words(Decimal(version)), Words(StateName(state)), Words(target)]
    case Recovery(_, epoch, at, digest) => [Words(epoch), Words(Decimal(at)), Binary(digest)]
  }

  function BodyFields(sequence: int, previousHash: string, r: Record, keyVersion: string): seq<Value>
    requires sequence >= 1 && RecordValid(r)
  {
    [Words("kakei_app"), Words("auth-deletion-ledger/v1"), Words("authentication/v1"), Words(Decimal(sequence)),
     Words(previousHash),
     Words(if r.Deletion? then "actor-deletion" else "recovery"), Words(r.operationId), Words(keyVersion)] + Facts(r)
  }

  function Body(e: Entry): Option<seq<Utf8.byte>>
    requires EntryValid(e)
  {
    Encode(BodyFields(e.sequence, e.previousHash, e.record, e.macKeyVersion))
  }

  // ---- the walk ----

  predicate SameDeletion(a: Record, b: Record)
    requires a.Deletion? && b.Deletion?
  {
    a == b.(version := a.version, state := a.state)
  }

  /** The records a new record leads to: a deletion is prepared once, then completed once, and nothing else. */
  function Transition(records: map<string, Record>, r: Record): Option<map<string, Record>> {
    if r.Recovery? then Some(records)
    else if r.operationId !in records then
      if r.state.Prepared? && r.version == 1 then Some(records[r.operationId := r]) else None
    else
      var previous := records[r.operationId];
      if previous.Deletion? && SameDeletion(previous, r) && previous.state.Prepared? && r.state.Complete? &&
        r.version == previous.version + 1
      then Some(records[r.operationId := r])
      else None
  }

  datatype Walked = Walked(head: Head, records: map<string, Record>, hashes: map<int, string>)

  const START: Walked := Walked(ORIGIN, map[], map[])

  function Link(crypto: Crypto, w: Walked, e: Entry): Option<Walked> {
    if !EntryValid(e) || e.sequence != w.head.sequence + 1 || e.previousHash != w.head.hash then None
    else if Body(e).None? then None
    else
      var body := Body(e).value;
      if !crypto.verifies(body, e.macKeyVersion, e.mac) || e.hash != crypto.hash(body, e.mac) then None
      else match Transition(w.records, e.record)
        case None => None
        case Some(records) => Some(Walked(Head(e.sequence, e.hash), records, w.hashes[e.sequence := e.hash]))
  }

  /** The entries from the origin on, each linked to the one before. */
  function Walk(crypto: Crypto, entries: seq<Entry>): Option<Walked> {
    if entries == [] then Some(START)
    else match Walk(crypto, entries[..|entries| - 1])
      case None => None
      case Some(w) => Link(crypto, w, entries[|entries| - 1])
  }

  // ---- what a walk is ----

  lemma {:induction false} WalkShape(crypto: Crypto, entries: seq<Entry>)
    requires Walk(crypto, entries).Some?
    ensures var w := Walk(crypto, entries).value;
            w.head == if entries == [] then ORIGIN else Head(|entries|, entries[|entries| - 1].hash)
  {
    hide EntryValid, Body, Transition;
    if entries != [] {
      WalkShape(crypto, entries[..|entries| - 1]);
    }
  }

  lemma {:induction false} WalkPrefix(crypto: Crypto, entries: seq<Entry>, k: nat)
    requires k <= |entries| && Walk(crypto, entries).Some?
    ensures Walk(crypto, entries[..k]).Some?
  {
    hide Link;
    if k < |entries| {
      var init := entries[..|entries| - 1];
      WalkPrefix(crypto, init, k);
      assert init[..k] == entries[..k];
    } else {
      assert entries[..k] == entries;
    }
  }

  lemma LastLinked(crypto: Crypto, entries: seq<Entry>)
    requires entries != [] && Walk(crypto, entries).Some?
    ensures var init, e := entries[..|entries| - 1], entries[|entries| - 1];
            && Walk(crypto, init).Some? && EntryValid(e) && e.sequence == |entries| &&
               e.previousHash == Walk(crypto, init).value.head.hash
            && Body(e).Some? && e.hash == crypto.hash(Body(e).value, e.mac)
  {
    WalkShape(crypto, entries[..|entries| - 1]);
    hide EntryValid, Body, Transition;
  }

  // ---- bodies tell entries apart ----

  lemma {:induction false} ChunksTell(xs: seq<Value>, ys: seq<Value>, i: nat)
    requires Encodable(xs) && Encodable(ys) && i <= |xs| && i <= |ys| && ChunksFrom(xs, i) == ChunksFrom(ys, i)
    ensures |xs| == |ys| && forall j | i <= j < |xs| :: Content(xs[j]) == Content(ys[j])
    decreases |xs| - i
  {
    hide Content, Chunk, Presence, ReadU32;
    if i < |xs| && i < |ys| {
      assert Content(xs[i]).Some? && Content(ys[i]).Some?;
      ChunkParts(i + 1, xs[i], ChunksFrom(xs, i + 1));
      ChunkParts(i + 1, ys[i], ChunksFrom(ys, i + 1));
      ChunksTell(xs, ys, i + 1);
    } else if i < |xs| {
      ChunkParts(i + 1, xs[i], ChunksFrom(xs, i + 1));
    } else if i < |ys| {
      ChunkParts(i + 1, ys[i], ChunksFrom(ys, i + 1));
    }
  }

  lemma WordsTell(s: string, t: string)
    requires Content(Words(s)).Some? && Content(Words(s)) == Content(Words(t))
    ensures s == t
  {
    Utf8.DecodeOfEncode(s);
    Utf8.DecodeOfEncode(t);
  }

  lemma DecimalsTell(m: int, n: int)
    requires m >= 0 && n >= 0 && Decimal(m) == Decimal(n)
    ensures m == n
  {
    DecimalShape(m);
    DecimalShape(n);
  }

  /** Contents that agree field by field are the same values, when both are words or both are bytes. */
  lemma ValuesTell(x: Value, y: Value)
    requires Content(x).Some? && Content(x) == Content(y) && x.Words? == y.Words? && x.Binary? == y.Binary?
    ensures x == y
  {
    if x.Words? {
      WordsTell(x.text, y.text);
    }
  }

  predicate SameKinds(xs: seq<Value>, ys: seq<Value>) {
    |xs| == |ys| && forall i | 0 <= i < |xs| :: xs[i].Words? == ys[i].Words? && xs[i].Binary? == ys[i].Binary?
  }

  lemma FieldsTell(xs: seq<Value>, ys: seq<Value>)
    requires Encode(xs).Some? && Encode(xs) == Encode(ys)
    ensures |xs| == |ys| && (SameKinds(xs, ys) ==> xs == ys)
  {
    hide Content;
    ChunksTell(xs, ys, 0);
    if SameKinds(xs, ys) {
      forall i | 0 <= i < |xs| ensures xs[i] == ys[i] {
        ValuesTell(xs[i], ys[i]);
      }
    }
  }

  /** Entries with the same body agree in everything the body covers. */
  lemma BodiesTell(x: Entry, y: Entry)
    requires EntryValid(x) && EntryValid(y) && Body(x).Some? && Body(x) == Body(y)
    ensures x.sequence == y.sequence && x.previousHash == y.previousHash && x.record == y.record &&
            x.macKeyVersion == y.macKeyVersion
  {
    var xs := BodyFields(x.sequence, x.previousHash, x.record, x.macKeyVersion);
    var ys := BodyFields(y.sequence, y.previousHash, y.record, y.macKeyVersion);
    hide EntryValid;
    FieldsTell(xs, ys);
    assert x.record.Deletion? == y.record.Deletion? by { FieldCounts(x, y); }
    KindsAgree(x, y);
    assert xs == ys;
    hide Decimal, Encode;
    SameFields(x, y);
  }

  lemma FieldCounts(x: Entry, y: Entry)
    requires RecordValid(x.record) && RecordValid(y.record) && x.sequence >= 1 && y.sequence >= 1
    requires |BodyFields(x.sequence, x.previousHash, x.record, x.macKeyVersion)| ==
             |BodyFields(y.sequence, y.previousHash, y.record, y.macKeyVersion)|
    ensures x.record.Deletion? == y.record.Deletion?
  {
    hide RecordValid, Decimal;
  }

  lemma KindsAgree(x: Entry, y: Entry)
    requires RecordValid(x.record) && RecordValid(y.record) && x.sequence >= 1 && y.sequence >= 1
    requires x.record.Deletion? == y.record.Deletion?
    ensures SameKinds(BodyFields(x.sequence, x.previousHash, x.record, x.macKeyVersion),
                      BodyFields(y.sequence, y.previousHash, y.record, y.macKeyVersion))
  {
    hide RecordValid, Decimal;
  }

  lemma SameFields(x: Entry, y: Entry)
    requires RecordValid(x.record) && RecordValid(y.record) && x.sequence >= 1 && y.sequence >= 1 &&
             x.record.Deletion? == y.record.Deletion?
    requires BodyFields(x.sequence, x.previousHash, x.record, x.macKeyVersion) ==
             BodyFields(y.sequence, y.previousHash, y.record, y.macKeyVersion)
    ensures x.sequence == y.sequence && x.previousHash == y.previousHash && x.record == y.record &&
            x.macKeyVersion == y.macKeyVersion
  {
    var xs := BodyFields(x.sequence, x.previousHash, x.record, x.macKeyVersion);
    var ys := BodyFields(y.sequence, y.previousHash, y.record, y.macKeyVersion);
    assert xs[3] == ys[3] && xs[4] == ys[4] && xs[6] == ys[6] && xs[7] == ys[7] && xs[8..] == ys[8..];
    assert xs[8..] == Facts(x.record) && ys[8..] == Facts(y.record);
    DecimalsTell(x.sequence, y.sequence);
    hide Decimal, BodyFields;
    SameFacts(x.record, y.record);
  }

  lemma SameFacts(x: Record, y: Record)
    requires RecordValid(x) && RecordValid(y) && x.Deletion? == y.Deletion? && x.operationId == y.operationId &&
             Facts(x) == Facts(y)
    ensures x == y
  {
    assert Facts(x)[0] == Facts(y)[0] && Facts(x)[1] == Facts(y)[1] && Facts(x)[2] == Facts(y)[2];
    if x.Deletion? {
      assert Facts(x)[3] == Facts(y)[3] && Facts(x)[4] == Facts(y)[4] && Facts(x)[5] == Facts(y)[5];
      DecimalsTell(x.preparedAt, y.preparedAt);
      DecimalsTell(x.version, y.version);
    } else {
      DecimalsTell(x.completedAt, y.completedAt);
    }
  }

  // ---- heads tell ledgers apart ----

  /** With an injective entry hash, two verified ledgers whose heads share a hash hold the same entries. */
  lemma {:induction false} SameHeadSameEntries(crypto: Crypto, xs: seq<Entry>, ys: seq<Entry>)
    requires Injective(crypto) && Walk(crypto, xs).Some? && Walk(crypto, ys).Some? && xs != [] && ys != []
    requires Walk(crypto, xs).value.head.hash == Walk(crypto, ys).value.head.hash
    ensures xs == ys
  {
    hide Link, Body, EntryValid;
    WalkShape(crypto, xs);
    WalkShape(crypto, ys);
    LastLinked(crypto, xs);
    LastLinked(crypto, ys);
    var x, y := xs[|xs| - 1], ys[|ys| - 1];
    BodiesTell(x, y);
    if |xs| > 1 {
      SameHeadSameEntries(crypto, xs[..|xs| - 1], ys[..|ys| - 1]);
    }
    assert xs == xs[..|xs| - 1] + [x] && ys == ys[..|ys| - 1] + [y];
  }

  /**
   * A checkpoint met during the walk is the head of a prefix; a ledger verified with that head earlier is that prefix.
   */
  lemma CheckpointIsPrefix(crypto: Crypto, entries: seq<Entry>, earlier: seq<Entry>, checkpoint: Head, k: nat)
    requires Injective(crypto) && Walk(crypto, entries).Some? && k <= |entries| && Walk(crypto, earlier).Some?
    requires Walk(crypto, entries[..k]).Some? &&
             Walk(crypto, entries[..k]).value.head == checkpoint == Walk(crypto, earlier).value.head
    ensures earlier == entries[..k] && checkpoint.sequence == k
  {
    hide Link;
    WalkShape(crypto, entries[..k]);
    WalkShape(crypto, earlier);
    if k > 0 {
      SameHeadSameEntries(crypto, entries[..k], earlier);
    }
  }

  // ---- deletions ----

  /** The entries before `k` that concern the deletion. */
  ghost predicate Concerns(entries: seq<Entry>, k: nat, id: string) {
    k < |entries| && entries[k].record.Deletion? && entries[k].record.operationId == id
  }

  /** After the walk, the record kept for a deletion is its last entry; nothing is kept without one. */
  ghost predicate Kept(entries: seq<Entry>, records: map<string, Record>) {
    && (forall id | id in records ::
        records[id].Deletion? && records[id].operationId == id && Story(entries, id, records[id]))
    && forall k | 0 <= k < |entries| && entries[k].record.Deletion? :: entries[k].record.operationId in records
  }

  ghost predicate PreparedAt(entries: seq<Entry>, i: nat, id: string) {
    Concerns(entries, i, id) && entries[i].record.state.Prepared? && entries[i].record.version == 1
  }

  ghost predicate OnlyPrepared(entries: seq<Entry>, id: string, last: Record, i: nat) {
    PreparedAt(entries, i, id) && entries[i].record == last && forall k | Concerns(entries, k, id) :: k == i
  }

  ghost predicate CompletedAt(entries: seq<Entry>, id: string, last: Record, i: nat, j: nat)
    requires last.Deletion?
  {
    && PreparedAt(entries, i, id) && i < j && Concerns(entries, j, id) && entries[j].record == last
    && last.state.Complete? && last.version == 2 && SameDeletion(entries[i].record, last)
    && forall k | Concerns(entries, k, id) :: k == i || k == j
  }

  /**
   * A deletion's entries: prepared at version 1, then possibly complete at version 2 with the same facts, and no more.
   */
  ghost predicate Story(entries: seq<Entry>, id: string, last: Record)
    requires last.Deletion?
  {
    (exists i :: OnlyPrepared(entries, id, last, i)) || (exists i, j :: CompletedAt(entries, id, last, i, j))
  }

  lemma StoryContinues(entries: seq<Entry>, e: Entry, id: string, last: Record)
    requires last.Deletion? && Story(entries, id, last) && !(e.record.Deletion? && e.record.operationId == id)
    ensures Story(entries + [e], id, last)
  {
    var es := entries + [e];
    assert forall k :: Concerns(es, k, id) <==> Concerns(entries, k, id);
    if i :| OnlyPrepared(entries, id, last, i) {
      assert OnlyPrepared(es, id, last, i);
    } else {
      var i, j :| CompletedAt(entries, id, last, i, j);
      assert CompletedAt(es, id, last, i, j);
    }
  }

  lemma StoryBegins(entries: seq<Entry>, e: Entry)
    requires e.record.Deletion? && e.record.state.Prepared? && e.record.version == 1
    requires forall k | 0 <= k < |entries| && entries[k].record.Deletion? ::
             entries[k].record.operationId != e.record.operationId
    ensures Story(entries + [e], e.record.operationId, e.record)
  {
    var es, id := entries + [e], e.record.operationId;
    assert forall k | 0 <= k < |entries| :: es[k] == entries[k];
    assert OnlyPrepared(es, id, e.record, |entries|);
  }

  lemma StoryEnds(entries: seq<Entry>, e: Entry, last: Record)
    requires e.record.Deletion? && last.Deletion? && last.state.Prepared? && Story(entries, e.record.operationId, last)
    requires SameDeletion(last, e.record) && e.record.state.Complete? && e.record.version == last.version + 1
    ensures Story(entries + [e], e.record.operationId, e.record)
  {
    var es, id, n := entries + [e], e.record.operationId, |entries|;
    var i :| OnlyPrepared(entries, id, last, i);
    forall k: nat | Concerns(es, k, id) ensures k == i || k == n {
      assert k < n ==> Concerns(entries, k, id);
    }
    assert CompletedAt(es, id, e.record, i, n);
  }

  lemma KeptStep(entries: seq<Entry>, e: Entry, records: map<string, Record>)
    requires Kept(entries, records) && Transition(records, e.record).Some?
    ensures Kept(entries + [e], Transition(records, e.record).value)
  {
    var es, records' := entries + [e], Transition(records, e.record).value;
    forall id | id in records'
      ensures records'[id].Deletion? && records'[id].operationId == id && Story(es, id, records'[id]) {
      if e.record.Deletion? && e.record.operationId == id {
        if id in records {
          StoryEnds(entries, e, records[id]);
        } else {
          StoryBegins(entries, e);
        }
      } else {
        StoryContinues(entries, e, id, records[id]);
      }
    }
    hide Story;
    forall k | 0 <= k < |es| && es[k].record.Deletion? ensures es[k].record.operationId in records' {
      assert k < |entries| ==> es[k] == entries[k];
    }
  }

  lemma {:induction false} WalkKeeps(crypto: Crypto, entries: seq<Entry>)
    requires Walk(crypto, entries).Some?
    ensures Kept(entries, Walk(crypto, entries).value.records)
  {
    hide EntryValid, Body, Kept;
    if entries == [] {
      assert Kept([], map[]) by { NothingKept(); }
    } else {
      var init, e := entries[..|entries| - 1], entries[|entries| - 1];
      WalkKeeps(crypto, init);
      KeptStep(init, e, Walk(crypto, init).value.records);
      assert init + [e] == entries;
    }
  }

  lemma NothingKept()
    ensures Kept([], map[])
  {
  }

  /**
   * In a verified ledger a deletion goes from prepared version 1 to at most one complete version 2, its facts fixed.
   */
  lemma DeletionStory(crypto: Crypto, entries: seq<Entry>, i: nat, j: nat, id: string)
    requires Walk(crypto, entries).Some? && i < j && Concerns(entries, i, id) && Concerns(entries, j, id)
    ensures entries[i].record.state.Prepared? && entries[i].record.version == 1
    ensures entries[j].record.state.Complete? && entries[j].record.version == 2 &&
            SameDeletion(entries[i].record, entries[j].record)
    ensures forall k | Concerns(entries, k, id) :: k == i || k == j
  {
    WalkKeeps(crypto, entries);
    var last := Walk(crypto, entries).value.records[id];
    hide Walk;
    assert Story(entries, id, last);
  }
}
