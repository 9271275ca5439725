/** Fetching the latest verified head page by page, and appending to it. */
module LedgerEvidence {
  import opened Outcomes
  import opened Text
  import opened Tlv
  import opened RecipientCodeRecords
  import opened DeletionLedger

  /** What both sources of one query answered, and whether their attestations verified. */
  datatype Proofs = Proofs(checkpointHead: Head, witnessHead: Head, attested: bool)

  predicate HeadValid(h: Head) {
    0 <= h.sequence <= MAX_SAFE && HexHash(h.hash) && (h.sequence == 0 ==> h.hash == ZERO_HASH)
  }

  const PAGE_LIMIT: int := 128

  ghost predicate HeadAt(crypto: Crypto, entries: seq<Entry>, k: int, head: Head)
    requires 0 <= k <= |entries|
  {
    Walk(crypto, entries[..k]).Some? && Walk(crypto, entries[..k]).value.head == head
  }

  /** The walk has the head at some point. */
  ghost predicate Met(crypto: Crypto, entries: seq<Entry>, head: Head) {
    exists k :: 0 <= k <= |entries| && HeadAt(crypto, entries, k, head)
  }

  /** The walk has the backup's head at some point behind `from`. */
  ghost predicate MetBehind(crypto: Crypto, entries: seq<Entry>, from: nat, backup: Option<Head>) {
    backup.Some? && exists k :: from < k <= |entries| && HeadAt(crypto, entries, k, backup.value)
  }

  lemma MetBehindMore(crypto: Crypto, entries: seq<Entry>, e: Entry, from: nat, backup: Option<Head>)
    requires from <= |entries| && Walk(crypto, entries + [e]).Some?
    ensures MetBehind(crypto, entries + [e], from, backup) <==>
            MetBehind(crypto, entries, from, backup) || backup == Some(Walk(crypto, entries + [e]).value.head)
  {
    hide Walk;
    var more := entries + [e];
    assert more[..|more|] == more;
    forall k | 0 <= k <= |entries| && backup.Some?
      ensures HeadAt(crypto, more, k, backup.value) <==> HeadAt(crypto, entries, k, backup.value)
    {
      assert more[..k] == entries[..k];
    }
    if backup == Some(Walk(crypto, more).value.head) {
      assert HeadAt(crypto, more, |more|, backup.value);
    }
  }

  /** Links the entries of one page to what was walked before, up to the expected sequence. */
  method WalkPage(crypto: Crypto, walked: Walked, page: seq<Entry>, expected: Head, backup: Option<Head>, found: bool,
                  ghost before: seq<Entry>)
    returns (r: Option<Walked>, found': bool)
    requires Walk(crypto, before) == Some(walked)
    ensures r.Some? <==> Walk(crypto, before + page).Some? && (page == [] || |before| + |page| <= expected.sequence)
    ensures r.Some? ==> Walk(crypto, before + page) == r
    ensures r.Some? ==> (found' <==> found || MetBehind(crypto, before + page, |before|, backup))
  {
    hide Link, Body, EntryValid, Walk, MetBehind;
    var w := walked;
    found' := found;
    ghost var all := before + page;
    WalkShape(crypto, before);
    assert all[..|before|] == before;
    assert !MetBehind(crypto, all[..|before|], |before|, backup) by {
      NothingBehind(crypto, before, backup);
    }
    for k := 0 to |page|
      invariant Walk(crypto, all[..|before| + k]) == Some(w) && w.head.sequence == |before| + k
      invariant k > 0 ==> w.head.sequence <= expected.sequence
      invariant found' <==> found || MetBehind(crypto, all[..|before| + k], |before|, backup)
    {
      var e := page[k];
      ghost var so := all[..|before| + k];
      assert all[..|before| + k + 1] == so + [e];
      OneMoreEntry(crypto, so, e);
      if Walk(crypto, all).Some? {
        WalkPrefix(crypto, all, |before| + k + 1);
        LinkedHead(crypto, w, e);
      }
      if e.sequence > expected.sequence {
        return None, found';
      }
      var next := Link(crypto, w, e);
      if next.None? {
        return None, found';
      }
      LinkedHead(crypto, w, e);
      MetBehindMore(crypto, so, e, |before|, backup);
      w := next.value;
      if backup == Some(w.head) {
        found' := true;
      }
    }
    assert all[..|before| + |page|] == all;
    r := Some(w);
  }

  lemma NothingBehind(crypto: Crypto, entries: seq<Entry>, backup: Option<Head>)
    ensures !MetBehind(crypto, entries, |entries|, backup)
  {
  }

  lemma OneMoreEntry(crypto: Crypto, entries: seq<Entry>, e: Entry)
    requires Walk(crypto, entries).Some?
    ensures Walk(crypto, entries + [e]) == Link(crypto, Walk(crypto, entries).value, e)
  {
    hide Link;
    assert (entries + [e])[..|entries|] == entries;
  }

  lemma LinkedHead(crypto: Crypto, w: Walked, e: Entry)
    requires Link(crypto, w, e).Some?
    ensures Link(crypto, w, e).value.head == Head(e.sequence, e.hash) && e.sequence == w.head.sequence + 1
  {
    hide EntryValid, Body, Transition;
  }

  lemma NothingWalked(crypto: Crypto, backup: Option<Head>)
    ensures Walk(crypto, []) == Some(START)
    ensures backup.Some? ==> (Met(crypto, [], backup.value) <==> backup.value == ORIGIN)
  {
    var nothing: seq<Entry> := [];
    assert nothing[..0] == [];
    if backup.Some? {
      assert HeadAt(crypto, nothing, 0, backup.value) <==> backup.value == ORIGIN;
    }
  }

  /** A head is met on the longer walk exactly if it was met before or is met on the page. */
  lemma MetOnPage(crypto: Crypto, entries: seq<Entry>, page: seq<Entry>, head: Head)
    ensures Met(crypto, entries + page, head) <==>
            Met(crypto, entries, head) || MetBehind(crypto, entries + page, |entries|, Some(head))
  {
    hide Walk;
    forall k | 0 <= k <= |entries|
      ensures HeadAt(crypto, entries + page, k, head) <==> HeadAt(crypto, entries, k, head)
    {
      assert (entries + page)[..k] == entries[..k];
    }
  }

  predicate PageSize(page: seq<Entry>) {
    1 <= |page| <= PAGE_LIMIT
  }

  /** The entries are the answers to the pages asked for, each behind the sequence number reached before. */
  ghost predicate Paged(pages: int -> seq<Entry>, entries: seq<Entry>)
    decreases |entries|
  {
    entries == [] ||
    exists k ::
      0 <= k < |entries| && Paged(pages, entries[..k]) && entries[k..] == pages(k) && PageSize(pages(k))
  }

  lemma OnePageMore(pages: int -> seq<Entry>, entries: seq<Entry>, page: seq<Entry>)
    requires Paged(pages, entries) && PageSize(page) && page == pages(|entries|)
    ensures Paged(pages, entries + page)
  {
    var longer := entries + page;
    assert longer[..|entries|] == entries && longer[|entries|..] == page;
  }

  /** Of two lists made of the same pages the shorter one goes on in the longer one with its next page. */
  lemma {:induction false} NextPage(pages: int -> seq<Entry>, a: seq<Entry>, b: seq<Entry>)
    requires Paged(pages, a) && Paged(pages, b) && |a| < |b|
    ensures PageSize(pages(|a|)) && a + pages(|a|) <= b
    decreases |a| + |b|
  {
    hide *;
    var k := LastPage(pages, b);
    if |a| < k {
      NextPage(pages, a, b[..k]);
    } else if k < |a| {
      NextPage(pages, b[..k], a);
    } else if a != [] {
      var j := LastPage(pages, a);
      NextPage(pages, a[..j], b[..k]);
    }
  }

  lemma LastPage(pages: int -> seq<Entry>, entries: seq<Entry>) returns (k: nat)
    requires Paged(pages, entries) && entries != []
    ensures k < |entries| && Paged(pages, entries[..k]) && PageSize(pages(k)) && entries == entries[..k] + pages(k)
  {
    hide PageSize;
    k :| 0 <= k < |entries| && Paged(pages, entries[..k]) && entries[k..] == pages(k) && PageSize(pages(k));
  }

  /** Both sources answer the same valid, attested head before the walk and after it. */
  predicate Agreed(first: Proofs, finish: Proofs) {
    && HeadValid(first.checkpointHead) && first.checkpointHead == first.witnessHead && first.attested
    && finish.checkpointHead == finish.witnessHead == first.checkpointHead && finish.attested
  }

  predicate BackupFits(backup: Option<Head>, head: Head) {
    backup.Some? ==> HeadValid(backup.value) && backup.value.sequence <= head.sequence
  }

  /** The pages hold a verified chain up to the head, with the backup's checkpoint on it. */
  ghost predicate WholeChain(crypto: Crypto, pages: int -> seq<Entry>, entries: seq<Entry>, head: Head,
                             backup: Option<Head>) {
    && Paged(pages, entries) && Walk(crypto, entries).Some? && Walk(crypto, entries).value.head == head
    && (backup.Some? ==> Met(crypto, entries, backup.value))
  }

  /** What has been walked so far begins every whole chain. */
  ghost predicate Begins(crypto: Crypto, pages: int -> seq<Entry>, entries: seq<Entry>, head: Head,
                         backup: Option<Head>) {
    forall es | WholeChain(crypto, pages, es, head, backup) :: entries <= es
  }

  lemma ChainLength(crypto: Crypto, pages: int -> seq<Entry>, es: seq<Entry>, head: Head, backup: Option<Head>)
    requires WholeChain(crypto, pages, es, head, backup)
    ensures |es| == head.sequence && Paged(pages, es)
  {
    WalkShape(crypto, es);
    hide Walk, Met, Paged;
  }

  /** A whole chain goes on with the next page, which is of the right size, links and stays below the head. */
  lemma ChainGoesOn(crypto: Crypto, pages: int -> seq<Entry>, entries: seq<Entry>, head: Head, backup: Option<Head>,
                    es: seq<Entry>)
    requires Paged(pages, entries) && |entries| < head.sequence && WholeChain(crypto, pages, es, head, backup)
    ensures var page := pages(|entries|);
            PageSize(page) && entries + page <= es && Walk(crypto, entries + page).Some? &&
            |entries| + |page| <= head.sequence
  {
    hide Walk, Paged, Met;
    ChainLength(crypto, pages, es, head, backup);
    NextPage(pages, entries, es);
    var longer := entries + pages(|entries|);
    assert longer == es[..|longer|];
    WalkPrefix(crypto, es, |longer|);
  }

  /**
   * The latest verified head. It is returned exactly when both sources agree and are attested before and after, and the
   * pages hold a verified chain up to that head with the backup's checkpoint, if any, on it; then the result is the
   * walk over that chain. `pages` answers what follows a sequence number.
   */
  method Latest(crypto: Crypto, first: Proofs, pages: int -> seq<Entry>, finish: Proofs, backup: Option<Head>)
    returns (r: Option<Walked>)
    ensures r.Some? <==> Agreed(first, finish) && BackupFits(backup, first.checkpointHead) &&
                         exists es :: WholeChain(crypto, pages, es, first.checkpointHead, backup)
    ensures r.Some? ==> r.value.head == first.checkpointHead &&
                        exists es ::
                          WholeChain(crypto, pages, es, first.checkpointHead, backup) && Walk(crypto, es) == r
  {
    ghost var entries: seq<Entry> := [];
    assert Paged(pages, entries);
    hide Link, Body, EntryValid, Walk, Met, HexHash, Paged, WholeChain;
    if !HeadValid(first.checkpointHead) || !HeadValid(first.witnessHead) ||
       first.checkpointHead != first.witnessHead || !first.attested {
      return None;
    }
    var expected := first.checkpointHead;
    if backup.Some? && (!HeadValid(backup.value) || backup.value.sequence > expected.sequence) {
      return None;
    }
    var walked, found := START, backup.None? || backup.value == ORIGIN;
    NothingWalked(crypto, backup);
    while walked.head.sequence < expected.sequence
      invariant Walk(crypto, entries) == Some(walked) && Paged(pages, entries)
      invariant |entries| == walked.head.sequence <= expected.sequence
      invariant Begins(crypto, pages, entries, expected, backup)
      invariant found <==> backup.None? || Met(crypto, entries, backup.value)
      decreases expected.sequence - walked.head.sequence
    {
      var page := pages(walked.head.sequence);
      forall es | WholeChain(crypto, pages, es, expected, backup)
        ensures PageSize(page) && entries + page <= es && Walk(crypto, entries + page).Some? &&
                |entries| + |page| <= expected.sequence
      {
        ChainGoesOn(crypto, pages, entries, expected, backup, es);
      }
      if |page| == 0 || |page| > PAGE_LIMIT {
        return None;
      }
      ghost var longer := entries + page;
      var next, found' := WalkPage(crypto, walked, page, expected, backup, found, entries);
      if next.None? {
        return None;
      }
      WalkShape(crypto, longer);
      if backup.Some? {
        MetOnPage(crypto, entries, page, backup.value);
      }
      OnePageMore(pages, entries, page);
      walked, found, entries := next.value, found', longer;
    }
    Finished(crypto, pages, entries, expected, backup);
    if walked.head != expected || !found {
      return None;
    }
    if finish.checkpointHead != expected || finish.witnessHead != expected || !finish.attested {
      return None;
    }
    r := Some(walked);
  }

  /** At full length the walked entries are the only possible whole chain. */
  lemma Finished(crypto: Crypto, pages: int -> seq<Entry>, entries: seq<Entry>, head: Head, backup: Option<Head>)
    requires Paged(pages, entries) && |entries| == head.sequence && Begins(crypto, pages, entries, head, backup)
    requires Walk(crypto, entries).Some?
    ensures (exists es :: WholeChain(crypto, pages, es, head, backup)) <==>
            WholeChain(crypto, pages, entries, head, backup)
    ensures WholeChain(crypto, pages, entries, head, backup) <==>
            Walk(crypto, entries).value.head == head && (backup.Some? ==> Met(crypto, entries, backup.value))
  {
    hide Walk, Paged, Met;
    if es :| WholeChain(crypto, pages, es, head, backup) {
      ChainLength(crypto, pages, es, head, backup);
      assert es == entries;
    }
  }

  /** The entry an append writes behind a verified head, before the provider is asked to store it. */
  function Appended(crypto: Crypto, w: Walked, r: Record, keyVersion: string, mac: seq<Utf8.byte>): Option<Entry> {
    if !RecordValid(r) || Transition(w.records, r).None? || !Instant(w.head.sequence + 1) || w.head.sequence < 0 ||
       !KeyName(keyVersion)
    then None
    else match Encode(BodyFields(w.head.sequence + 1, w.head.hash, r, keyVersion))
      case None => None
      case Some(body) => Some(Entry(w.head.sequence + 1, w.head.hash, r, keyVersion, mac, crypto.hash(body, mac)))
  }

  /** An appended entry with a MAC that verifies extends the verified chain by exactly itself. */
  lemma AppendExtends(crypto: Crypto, entries: seq<Entry>, r: Record, keyVersion: string, mac: seq<Utf8.byte>)
    requires Walk(crypto, entries).Some? && Appended(crypto, Walk(crypto, entries).value, r, keyVersion, mac).Some?
    requires var e := Appended(crypto, Walk(crypto, entries).value, r, keyVersion, mac).value;
             EntryValid(e) && crypto.verifies(Body(e).value, keyVersion, mac)
    ensures var e := Appended(crypto, Walk(crypto, entries).value, r, keyVersion, mac).value;
            && Walk(crypto, entries + [e]).Some? &&
               Walk(crypto, entries + [e]).value.head == Head(|entries| + 1, e.hash)
            && Walk(crypto, entries + [e]).value.records == Transition(Walk(crypto, entries).value.records, r).value
  {
    hide Walk, EntryValid, RecordValid, BodyFields, Transition, Encode;
    WalkShape(crypto, entries);
    var w := Walk(crypto, entries).value;
    var e := Appended(crypto, w, r, keyVersion, mac).value;
    OneMoreEntry(crypto, entries, e);
  }

  // ---- the append is accepted from a fresh walk ----

  /** The refetched head holds the expected hash at its place, and for a deletion the record that was appended. */
  predicate AppendAccepted(later: Walked, e: Entry) {
    && e.sequence in later.hashes && later.hashes[e.sequence] == e.hash
    && (e.record.Deletion? ==>
          e.record.operationId in later.records &&
          var saved := later.records[e.record.operationId];
          saved.Deletion? && SameDeletion(saved, e.record) && saved.version == e.record.version &&
            saved.state == e.record.state)
  }

  lemma {:induction false} HashesAre(crypto: Crypto, entries: seq<Entry>)
    requires Walk(crypto, entries).Some?
    ensures var hashes := Walk(crypto, entries).value.hashes;
            && (forall n :: n in hashes <==> 1 <= n <= |entries|)
            && forall k | 0 <= k < |entries| :: hashes[k + 1] == entries[k].hash
  {
    hide EntryValid, Body, Transition;
    if entries != [] {
      var init := entries[..|entries| - 1];
      HashesAre(crypto, init);
      WalkShape(crypto, init);
      assert forall k | 0 <= k < |init| :: init[k] == entries[k];
    }
  }

  /** Whatever verified entry has the hash of an appended one is the appended one. */
  lemma SameHashSameEntry(crypto: Crypto, entries: seq<Entry>, r: Record, keyVersion: string, mac: seq<Utf8.byte>,
                          x: Entry)
    requires Injective(crypto) && Walk(crypto, entries).Some?
    requires Appended(crypto, Walk(crypto, entries).value, r, keyVersion, mac).Some?
    requires EntryValid(x) && Body(x).Some? && x.hash == crypto.hash(Body(x).value, x.mac)
    requires x.hash == Appended(crypto, Walk(crypto, entries).value, r, keyVersion, mac).value.hash
    ensures x == Appended(crypto, Walk(crypto, entries).value, r, keyVersion, mac).value
  {
    var w := Walk(crypto, entries).value;
    var e := Appended(crypto, w, r, keyVersion, mac).value;
    AppendedValid(crypto, entries, r, keyVersion, mac);
    assert crypto.hash(Body(x).value, x.mac) == crypto.hash(Body(e).value, e.mac);
    hide Appended, EntryValid, Walk, Body;
    BodiesTell(x, e);
  }

  lemma AppendedValid(crypto: Crypto, entries: seq<Entry>, r: Record, keyVersion: string, mac: seq<Utf8.byte>)
    requires Walk(crypto, entries).Some? && Appended(crypto, Walk(crypto, entries).value, r, keyVersion, mac).Some?
    requires |mac| == 32 && HexHash(Appended(crypto, Walk(crypto, entries).value, r, keyVersion, mac).value.hash)
    ensures var e := Appended(crypto, Walk(crypto, entries).value, r, keyVersion, mac).value;
            EntryValid(e) && Body(e).Some? && e.hash == crypto.hash(Body(e).value, mac)
  {
    HeadHex(crypto, entries);
    hide Walk, HexHash, RecordValid, BodyFields, Encode, Transition, KeyName;
  }

  lemma HeadHex(crypto: Crypto, entries: seq<Entry>)
    requires Walk(crypto, entries).Some?
    ensures HexHash(Walk(crypto, entries).value.head.hash) && Walk(crypto, entries).value.head.sequence == |entries|
  {
    WalkShape(crypto, entries);
    if entries != [] {
      LastLinked(crypto, entries);
      hide Walk, Body;
    } else {
      ZeroHashHex();
    }
  }

  lemma ZeroHashHex()
    ensures HexHash(ZERO_HASH)
  {
    assert forall i | 0 <= i < 8 :: EIGHT_ZEROS[i] == '0';
  }

  /**
   * A refetched, verified ledger in which the appended entry is accepted has exactly the earlier entries and then the
   * appended one as a prefix; it is accepted exactly then, unless the deletion it prepared was completed meanwhile.
   */
  lemma AppendConfirmed(crypto: Crypto, entries: seq<Entry>, r: Record, keyVersion: string, mac: seq<Utf8.byte>,
                        later: seq<Entry>)
    requires Injective(crypto) && Walk(crypto, entries).Some? && Walk(crypto, later).Some?
    requires Appended(crypto, Walk(crypto, entries).value, r, keyVersion, mac).Some?
    ensures var e := Appended(crypto, Walk(crypto, entries).value, r, keyVersion, mac).value;
            var now := Walk(crypto, later).value;
            AppendAccepted(now, e) <==>
            entries + [e] <= later && (r.Deletion? ==> r.operationId in now.records && now.records[r.operationId] == r)
  {
    var n := |entries|;
    var e := Appended(crypto, Walk(crypto, entries).value, r, keyVersion, mac).value;
    AppendedNames(crypto, entries, r, keyVersion, mac);
    HashesAre(crypto, later);
    var now := Walk(crypto, later).value;
    assert forall saved: Record | r.Deletion? && saved.Deletion? ::
        SameDeletion(saved, r) && saved.version == r.version && saved.state == r.state <==> saved == r;
    hide Walk, Appended, EntryValid, Body;
    if n < |later| && later[n].hash == e.hash {
      LinkedAt(crypto, later, n);
      SameHashSameEntry(crypto, entries, r, keyVersion, mac, later[n]);
      SameEntryIsPrefix(crypto, entries, later);
    }
  }

  lemma AppendedNames(crypto: Crypto, entries: seq<Entry>, r: Record, keyVersion: string, mac: seq<Utf8.byte>)
    requires Walk(crypto, entries).Some? && Appended(crypto, Walk(crypto, entries).value, r, keyVersion, mac).Some?
    ensures var e := Appended(crypto, Walk(crypto, entries).value, r, keyVersion, mac).value;
            e.sequence == |entries| + 1 && e.record == r && e.previousHash == Walk(crypto, entries).value.head.hash
  {
    HeadHex(crypto, entries);
    hide Walk, HexHash, RecordValid, BodyFields, Encode, Transition, KeyName;
  }

  lemma SameEntryIsPrefix(crypto: Crypto, entries: seq<Entry>, later: seq<Entry>)
    requires Injective(crypto) && Walk(crypto, entries).Some? && Walk(crypto, later).Some? && |entries| < |later|
    requires later[|entries|].previousHash == Walk(crypto, entries).value.head.hash
    ensures entries + [later[|entries|]] <= later
  {
    hide Walk, EntryValid, Body, Injective;
    var n := |entries|;
    var before := later[..n];
    LinkedAt(crypto, later, n);
    assert before == entries by {
      if n > 0 {
        SameHeadSameEntries(crypto, entries, before);
      }
    }
  }

  /** What the walk checked at one place. */
  lemma LinkedAt(crypto: Crypto, entries: seq<Entry>, n: nat)
    requires Walk(crypto, entries).Some? && n < |entries|
    ensures Walk(crypto, entries[..n]).Some?
    ensures var e := entries[n];
            && EntryValid(e) && e.previousHash == Walk(crypto, entries[..n]).value.head.hash
            && Body(e).Some? && e.hash == crypto.hash(Body(e).value, e.mac)
  {
    hide EntryValid, Body, Walk;
    var upTo := entries[..n + 1];
    WalkPrefix(crypto, entries, n + 1);
    LastLinked(crypto, upTo);
    assert upTo[|upTo| - 1] == entries[n] && upTo[..n] == entries[..n];
  }

  /**
   * The append that is stored and yet refused: another client completed the deletion before the ledger was read again.
   */
  lemma StoredButRefused(crypto: Crypto, entries: seq<Entry>, r: Record, keyVersion: string, mac: seq<Utf8.byte>,
                         d: Entry)
    requires Walk(crypto, entries).Some? && Appended(crypto, Walk(crypto, entries).value, r, keyVersion, mac).Some?
    requires r.Deletion? && d.record == r.(version := 2, state := Complete) && r.state.Prepared?
    requires var e := Appended(crypto, Walk(crypto, entries).value, r, keyVersion, mac).value;
             Walk(crypto, entries + [e] + [d]).Some?
    ensures var e := Appended(crypto, Walk(crypto, entries).value, r, keyVersion, mac).value;
            !AppendAccepted(Walk(crypto, entries + [e] + [d]).value, e)
  {
    var e := Appended(crypto, Walk(crypto, entries).value, r, keyVersion, mac).value;
    LastRecordKept(crypto, entries + [e], d);
    AppendedNames(crypto, entries, r, keyVersion, mac);
    hide Walk, Appended;
  }

  /** The walk keeps the record of its last entry, when that is a deletion. */
  lemma LastRecordKept(crypto: Crypto, entries: seq<Entry>, d: Entry)
    requires Walk(crypto, entries + [d]).Some? && d.record.Deletion?
    ensures var records := Walk(crypto, entries + [d]).value.records;
            d.record.operationId in records && records[d.record.operationId] == d.record
  {
    assert (entries + [d])[..|entries|] == entries && (entries + [d])[|entries|] == d;
    hide EntryValid, Body, SameDeletion;
  }
}
