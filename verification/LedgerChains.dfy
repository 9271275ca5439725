/** What a verified ledger is, entry by entry, and which entries may be appended to it. */
module LedgerChains {
  import opened Outcomes
  import opened Text
  import Utf8
  import opened Tlv
  import opened DeletionLedger
  import opened LedgerBodies
  import opened LedgerEvidence

  // ---- a verified ledger, entry by entry ----

  /** A deletion of the same person at the same time, at whatever stage. */
  ghost predicate SameFactsAs(a: Record, b: Record) {
    a.Deletion? && b.Deletion? && b == a.(version := b.version, state := b.state)
  }

  /** A deletion is prepared once, before anything else is said of it, and completed once, with the same facts. */
  ghost predicate InStory(entries: seq<Entry>, k: nat)
    requires k < |entries|
  {
    var r := entries[k].record;
    r.Deletion? ==>
      if r.state == Prepared then r.version == 1 && forall j: nat | j < k :: !Concerns(entries, j, r.operationId)
      else exists j: nat :: j < k && PreparedAt(entries, j, r.operationId) && SameFactsAs(entries[j].record, r) &&
                       r.version == 2 && forall m: nat | m < k && m != j :: !Concerns(entries, m, r.operationId)
  }

  function HashBefore(entries: seq<Entry>, k: nat): string
    requires k <= |entries|
  {
    if k == 0 then seq(64, _ => '0') else entries[k - 1].hash
  }

  /** The entry is valid, next in the chain, and its MAC and hash are those of its body. */
  ghost predicate InChain(crypto: Crypto, entries: seq<Entry>, k: nat)
    requires k < |entries|
  {
    var e := entries[k];
    && EntryFine(e) && e.sequence == k + 1 && e.previousHash == HashBefore(entries, k)
    && exists body :: Bears(body, e) && crypto.verifies(body, e.macKeyVersion, e.mac) &&
                      e.hash == crypto.hash(body, e.mac)
  }

  ghost predicate Chain(crypto: Crypto, entries: seq<Entry>) {
    forall k | 0 <= k < |entries| :: InChain(crypto, entries, k) && InStory(entries, k)
  }

  lemma ZeroHashIs()
    ensures ZERO_HASH == seq(64, _ => '0')
  {
    assert EIGHT_ZEROS == seq(8, _ => '0');
    assert ZERO_HASH == seq(64, _ => '0');
  }

  /** An entry links to a walk exactly when it is next in the chain and its record goes on with the story. */
  lemma LinkIs(crypto: Crypto, entries: seq<Entry>, w: Walked, e: Entry)
    requires w.head.sequence == |entries| && w.head.hash == HashBefore(entries, |entries|)
    ensures Link(crypto, w, e).Some? <==>
            InChain(crypto, entries + [e], |entries|) && Transition(w.records, e.record).Some?
    ensures Link(crypto, w, e).Some? ==>
            Link(crypto, w, e).value.head == Head(e.sequence, e.hash) &&
            Some(Link(crypto, w, e).value.records) == Transition(w.records, e.record)
  {
    hide *;
    EntryExact(e);
    LinkSays(crypto, w, e);
    InChainSays(crypto, entries, e);
    if EntryValid(e) {
      if Body(e).Some? {
        BodyExact(e, Body(e).value);
      }
      forall body | Bears(body, e) ensures Body(e) == Some(body) {
        BodyExact(e, body);
      }
    }
  }

  lemma LinkSays(crypto: Crypto, w: Walked, e: Entry)
    ensures Link(crypto, w, e).Some? <==>
            EntryValid(e) && e.sequence == w.head.sequence + 1 && e.previousHash == w.head.hash && Body(e).Some? &&
            crypto.verifies(Body(e).value, e.macKeyVersion, e.mac) && e.hash == crypto.hash(Body(e).value, e.mac) &&
            Transition(w.records, e.record).Some?
    ensures Link(crypto, w, e).Some? ==>
            Link(crypto, w, e).value.head == Head(e.sequence, e.hash) &&
            Some(Link(crypto, w, e).value.records) == Transition(w.records, e.record)
  {
    hide EntryValid, Body, Transition;
  }

  lemma InChainSays(crypto: Crypto, entries: seq<Entry>, e: Entry)
    ensures InChain(crypto, entries + [e], |entries|) <==>
            EntryFine(e) && e.sequence == |entries| + 1 && e.previousHash == HashBefore(entries, |entries|) &&
            exists body :: Bears(body, e) && crypto.verifies(body, e.macKeyVersion, e.mac) &&
                           e.hash == crypto.hash(body, e.mac)
  {
    hide EntryFine, Bears;
  }

  /** The record goes on with the story kept so far exactly when it does so among the entries. */
  lemma TransitionIs(entries: seq<Entry>, records: map<string, Record>, e: Entry)
    requires Kept(entries, records)
    ensures Transition(records, e.record).Some? <==> InStory(entries + [e], |entries|)
  {
    if !e.record.Deletion? {
      assert InStory(entries + [e], |entries|);
    } else if e.record.operationId in records {
      KnownStory(entries, records[e.record.operationId], e);
      hide InStory, Kept, SameDeletion;
    } else {
      UnknownStory(entries, records, e);
      hide InStory, Kept;
    }
  }

  lemma UnknownStory(entries: seq<Entry>, records: map<string, Record>, e: Entry)
    requires Kept(entries, records) && e.record.Deletion? && e.record.operationId !in records
    ensures InStory(entries + [e], |entries|) <==> e.record.state == Prepared && e.record.version == 1
  {
    hide Story;
    var r, all, n := e.record, entries + [e], |entries|;
    forall j: nat | j < n ensures !Concerns(all, j, r.operationId) {
      assert all[j] == entries[j];
    }
    hide Concerns;
  }

  lemma KnownStory(entries: seq<Entry>, last: Record, e: Entry)
    requires last.Deletion? && e.record.Deletion? && last.operationId == e.record.operationId
    requires Story(entries, last.operationId, last)
    ensures InStory(entries + [e], |entries|) <==>
            SameDeletion(last, e.record) && last.state.Prepared? && e.record.state.Complete? &&
            e.record.version == last.version + 1
  {
    var id := last.operationId;
    if i :| OnlyPrepared(entries, id, last, i) {
      PreparedStory(entries, last, e, i);
    } else {
      var i, j :| CompletedAt(entries, id, last, i, j);
      CompletedStory(entries, last, e, i, j);
    }
  }

  lemma PreparedStory(entries: seq<Entry>, last: Record, e: Entry, i: nat)
    requires last.Deletion? && e.record.Deletion? && last.operationId == e.record.operationId
    requires OnlyPrepared(entries, last.operationId, last, i)
    ensures InStory(entries + [e], |entries|) <==>
            SameDeletion(last, e.record) && last.state.Prepared? && e.record.state.Complete? &&
            e.record.version == last.version + 1
  {
    var r, all, n, id := e.record, entries + [e], |entries|, last.operationId;
    OnlyConcern(entries, last, e, i);
    assert all[n] == e && all[i].record == last && last.state.Prepared? && last.version == 1;
    hide OnlyPrepared, Concerns;
    if SameDeletion(last, r) && r.state.Complete? && r.version == 2 {
      assert i < n && PreparedAt(all, i, id) && SameFactsAs(all[i].record, r);
    }
    if InStory(all, n) {
      assert r.state != Prepared;
      var j: nat :| j < n && PreparedAt(all, j, id) && SameFactsAs(all[j].record, r) && r.version == 2 &&
                    forall m: nat | m < n && m != j :: !Concerns(all, m, id);
      assert j == i;
    }
  }

  lemma OnlyConcern(entries: seq<Entry>, last: Record, e: Entry, i: nat)
    requires last.Deletion? && OnlyPrepared(entries, last.operationId, last, i)
    ensures i < |entries| && entries[i].record == last && last.state.Prepared? && last.version == 1
    ensures PreparedAt(entries + [e], i, last.operationId)
    ensures forall j: nat | j < |entries| :: Concerns(entries + [e], j, last.operationId) <==> j == i
  {
    forall j: nat | j < |entries| ensures Concerns(entries + [e], j, last.operationId) <==> j == i {
      assert (entries + [e])[j] == entries[j];
      assert Concerns(entries, j, last.operationId) <==> j == i;
    }
    assert (entries + [e])[i] == entries[i];
  }

  lemma CompletedStory(entries: seq<Entry>, last: Record, e: Entry, i: nat, j: nat)
    requires last.Deletion? && e.record.Deletion? && last.operationId == e.record.operationId
    requires CompletedAt(entries, last.operationId, last, i, j)
    ensures !InStory(entries + [e], |entries|) && last.state.Complete?
  {
    var all, id := entries + [e], last.operationId;
    assert all[i] == entries[i] && all[j] == entries[j];
    assert Concerns(all, i, id) && Concerns(all, j, id);
  }

  lemma ChainGrows(crypto: Crypto, entries: seq<Entry>, e: Entry)
    ensures Chain(crypto, entries + [e]) <==>
            Chain(crypto, entries) && InChain(crypto, entries + [e], |entries|) && InStory(entries + [e], |entries|)
  {
    hide InChain, InStory;
    var all, n := entries + [e], |entries|;
    forall k | 0 <= k < n
      ensures InChain(crypto, all, k) == InChain(crypto, entries, k) && InStory(all, k) == InStory(entries, k)
    {
      SameInChain(crypto, entries, e, k);
      SameInStory(entries, e, k);
    }
    if Chain(crypto, all) {
      forall k | 0 <= k < n ensures InChain(crypto, entries, k) && InStory(entries, k) {
        assert InChain(crypto, all, k) && InStory(all, k);
      }
      assert InChain(crypto, all, n) && InStory(all, n);
    }
    if Chain(crypto, entries) && InChain(crypto, all, n) && InStory(all, n) {
      forall k | 0 <= k < n + 1 ensures InChain(crypto, all, k) && InStory(all, k) {
        assert k < n ==> InChain(crypto, entries, k) && InStory(entries, k);
      }
    }
  }

  lemma SameInChain(crypto: Crypto, entries: seq<Entry>, e: Entry, k: nat)
    requires k < |entries|
    ensures InChain(crypto, entries + [e], k) <==> InChain(crypto, entries, k)
  {
    hide EntryFine, Bears;
    assert (entries + [e])[k] == entries[k] && HashBefore(entries + [e], k) == HashBefore(entries, k);
  }

  lemma SameInStory(entries: seq<Entry>, e: Entry, k: nat)
    requires k < |entries|
    ensures InStory(entries + [e], k) <==> InStory(entries, k)
  {
    var id := entries[k].record.operationId;
    forall j: nat | j < k
      ensures Concerns(entries + [e], j, id) <==> Concerns(entries, j, id)
      ensures PreparedAt(entries + [e], j, id) <==> PreparedAt(entries, j, id)
    {
      assert (entries + [e])[j] == entries[j];
    }
    hide Concerns, PreparedAt;
  }

  /**
   * The walk accepts exactly the ledgers in which every entry is valid, follows its predecessor, verifies over its body
   * and hashes it, and every deletion is prepared once and completed at most once.
   */
  lemma {:induction false} WalkExact(crypto: Crypto, entries: seq<Entry>)
    ensures Walk(crypto, entries).Some? <==> Chain(crypto, entries)
    ensures Walk(crypto, entries).Some? ==>
            Walk(crypto, entries).value.head.sequence == |entries| &&
            Walk(crypto, entries).value.head.hash == HashBefore(entries, |entries|)
  {
    hide *;
    if entries == [] {
      NothingChained(crypto);
    } else {
      var init, e := entries[..|entries| - 1], entries[|entries| - 1];
      assert init + [e] == entries;
      WalkExact(crypto, init);
      ChainGrows(crypto, init, e);
      WalkStep(crypto, entries);
      if Walk(crypto, init).Some? {
        var w := Walk(crypto, init).value;
        LinkIs(crypto, init, w, e);
        WalkKeeps(crypto, init);
        TransitionIs(init, w.records, e);
        InChainSays(crypto, init, e);
        HashBeforeIs(entries);
      }
    }
  }

  lemma HashBeforeIs(entries: seq<Entry>)
    requires entries != []
    ensures HashBefore(entries, |entries|) == entries[|entries| - 1].hash
  {
  }

  lemma NothingChained(crypto: Crypto)
    ensures Walk(crypto, []) == Some(START) && Chain(crypto, []) && START.head.sequence == 0
    ensures START.head.hash == HashBefore([], 0)
  {
    ZeroHashIs();
  }

  lemma WalkStep(crypto: Crypto, entries: seq<Entry>)
    requires entries != []
    ensures var init := entries[..|entries| - 1];
            Walk(crypto, entries) == if Walk(crypto, init).None? then None
                                     else Link(crypto, Walk(crypto, init).value, entries[|entries| - 1])
  {
    hide Link;
  }

  // ---- what the walk remembers ----

  /** The walk remembers every deletion by the last entry about it. */
  lemma RecordsAre(crypto: Crypto, entries: seq<Entry>, id: string)
    requires Walk(crypto, entries).Some?
    ensures id in Walk(crypto, entries).value.records <==> exists k: nat :: Concerns(entries, k, id)
    ensures id in Walk(crypto, entries).value.records ==>
            exists k: nat :: Concerns(entries, k, id) && entries[k].record == Walk(crypto, entries).value.records[id] &&
                             forall m: nat | k < m :: !Concerns(entries, m, id)
  {
    WalkKeeps(crypto, entries);
    hide Walk;
    var records := Walk(crypto, entries).value.records;
    if id in records {
      var last := records[id];
      assert Story(entries, id, last);
      if i :| OnlyPrepared(entries, id, last, i) {
        assert Concerns(entries, i, id);
      } else {
        var i, j :| CompletedAt(entries, id, last, i, j);
        assert Concerns(entries, j, id);
      }
    }
    hide Story;
  }

  // ---- appending ----

  /** An entry is drawn up exactly for a valid record that goes on with the story, as the chain's next entry. */
  lemma AppendedExact(crypto: Crypto, entries: seq<Entry>, r: Record, keyVersion: string, mac: seq<Utf8.byte>, e: Entry)
    requires Walk(crypto, entries).Some?
    ensures Appended(crypto, Walk(crypto, entries).value, r, keyVersion, mac) == Some(e) <==>
            e == Entry(|entries| + 1, HashBefore(entries, |entries|), r, keyVersion, mac, e.hash) &&
            |entries| + 1 <= MAX_SAFE && RecordFine(r) && NameText(keyVersion) &&
            InStory(entries + [e], |entries|) && exists body :: Bears(body, e) && e.hash == crypto.hash(body, mac)
  {
    hide *;
    var w := Walk(crypto, entries).value;
    WalkExact(crypto, entries);
    WalkKeeps(crypto, entries);
    RecordIs(r);
    NameIs(keyVersion);
    if RecordValid(r) && e == Entry(|entries| + 1, HashBefore(entries, |entries|), r, keyVersion, mac, e.hash) {
      AppendedSays(crypto, w, r, keyVersion, mac);
      TransitionIs(entries, w.records, e);
      forall body {
        FieldsExact(e, body);
      }
    } else {
      AppendedParts(crypto, w, r, keyVersion, mac);
    }
  }

  lemma AppendedSays(crypto: Crypto, w: Walked, r: Record, keyVersion: string, mac: seq<Utf8.byte>)
    requires RecordValid(r) && w.head.sequence >= 0
    ensures var a := Appended(crypto, w, r, keyVersion, mac);
            var body := Encode(BodyFields(w.head.sequence + 1, w.head.hash, r, keyVersion));
            && (a.Some? <==> Transition(w.records, r).Some? && w.head.sequence + 1 <= MAX_SAFE && KeyName(keyVersion) &&
                             body.Some?)
            && (a.Some? ==> a.value == Entry(w.head.sequence + 1, w.head.hash, r, keyVersion, mac,
                                             crypto.hash(body.value, mac)))
  {
    hide RecordValid, Transition, KeyName, BodyFields, Encode;
  }

  lemma AppendedParts(crypto: Crypto, w: Walked, r: Record, keyVersion: string, mac: seq<Utf8.byte>)
    ensures var a := Appended(crypto, w, r, keyVersion, mac);
            a.Some? ==> RecordValid(r) && a.value == Entry(w.head.sequence + 1, w.head.hash, r, keyVersion, mac,
                                                           a.value.hash)
  {
    hide RecordValid, Transition, KeyName, BodyFields, Encode;
  }

  // ---- heads and pages ----

  /** A head is a place and a hash, at the origin 64 zeros. */
  lemma HeadExact(h: Head)
    ensures HeadValid(h) <==>
            0 <= h.sequence <= MAX_SAFE && Hash64(h.hash) && (h.sequence == 0 ==> h.hash == seq(64, _ => '0'))
  {
    HashIs(h.hash);
    ZeroHashIs();
    hide HexHash, Hash64;
  }

  // ---- what the latest head rests on ----

  /** The entries are read in pages of 1 to 128 entries, each asked for behind the entries before it. */
  ghost predicate ReadInPages(pages: int -> seq<Entry>, entries: seq<Entry>)
    decreases |entries|
  {
    entries == [] ||
    exists k :: 0 <= k < |entries| && ReadInPages(pages, entries[..k]) && entries[k..] == pages(k) &&
                1 <= |pages(k)| <= 128
  }

  /** The head is that of the first `head.sequence` entries. */
  ghost predicate HeadIn(entries: seq<Entry>, head: Head) {
    0 <= head.sequence <= |entries| && head.hash == HashBefore(entries, head.sequence)
  }

  lemma {:induction false} PagesAre(pages: int -> seq<Entry>, entries: seq<Entry>)
    ensures Paged(pages, entries) <==> ReadInPages(pages, entries)
    decreases |entries|
  {
    forall k | 0 <= k < |entries| ensures Paged(pages, entries[..k]) <==> ReadInPages(pages, entries[..k]) {
      PagesAre(pages, entries[..k]);
    }
  }

  lemma HeadAtIs(crypto: Crypto, entries: seq<Entry>, k: nat, head: Head)
    requires Walk(crypto, entries).Some? && k <= |entries|
    ensures HeadAt(crypto, entries, k, head) <==> head.sequence == k && head.hash == HashBefore(entries, k)
  {
    WalkPrefix(crypto, entries, k);
    WalkExact(crypto, entries[..k]);
    hide Walk, Chain;
    assert k > 0 ==> entries[..k][k - 1] == entries[k - 1];
  }

  lemma MetIs(crypto: Crypto, entries: seq<Entry>, head: Head)
    requires Walk(crypto, entries).Some?
    ensures Met(crypto, entries, head) <==> HeadIn(entries, head)
  {
    forall k | 0 <= k <= |entries|
      ensures HeadAt(crypto, entries, k, head) <==> head.sequence == k && head.hash == HashBefore(entries, k)
    {
      HeadAtIs(crypto, entries, k, head);
    }
    hide HeadAt, HashBefore, Walk;
  }

  /** The chain the latest head is the head of: verified, read in pages, and with the checkpoint on it. */
  lemma WholeChainExact(crypto: Crypto, pages: int -> seq<Entry>, entries: seq<Entry>, head: Head,
                        backup: Option<Head>)
    ensures WholeChain(crypto, pages, entries, head, backup) <==>
            Chain(crypto, entries) && ReadInPages(pages, entries) && |entries| == head.sequence &&
            HeadIn(entries, head) && (backup.Some? ==> HeadIn(entries, backup.value))
  {
    PagesAre(pages, entries);
    WalkExact(crypto, entries);
    if Walk(crypto, entries).Some? && backup.Some? {
      MetIs(crypto, entries, backup.value);
    }
    if |entries| == head.sequence {
      HeadInAll(entries, head);
    }
    hide Walk, Paged, ReadInPages, Met, Chain, HeadIn, HashBefore;
  }

  lemma HeadInAll(entries: seq<Entry>, head: Head)
    requires |entries| == head.sequence
    ensures HeadIn(entries, head) <==> head.hash == HashBefore(entries, |entries|)
  {
  }
}
