/** When a receipt's draft is edited or confirmed and its bundles change, and the one receipt that follows. */
module ReceiptOutcomes {
  import opened Outcomes
  import opened Sequences
  import opened Text
  import opened TextRules
  import opened ReceiptAdjustments
  import opened AdjustmentOutcomes
  import opened GroupExpenses
  import opened ExpenseRoot
  import opened ExpenseOutcomes
  import opened ReceiptRoot
  import opened ReceiptInvariants

  // ---- who may act, and how a step is noted ----

  /** The actor uploaded the receipt and knows its version. */
  ghost predicate Addressed(r: Receipt, version: int, actor: string) {
    && -MAX_SAFE <= version <= MAX_SAFE && version == r.version && Written(actor)
    && match r.current
       case Unconfirmed(draft) => actor == draft.uploaderSubject
       case Confirmed(facts) => actor == facts.uploaderSubject
  }

  ghost predicate MoreVersions(r: Receipt) {
    -MAX_SAFE <= r.version + 1 <= MAX_SAFE
  }

  /** One version on, with the step noted behind the earlier ones. */
  ghost predicate Noted(r: Receipt, action: Action, actor: string, at: Clock, after: Snapshot, r': Receipt) {
    && at.Some? && r'.current == after && r'.version == r.version + 1
    && r'.changes == r.changes + [Change(action, actor, at.value, r.version, r.version + 1, r.current, after)]
  }

  lemma WrittenEverywhere()
    ensures forall s: string :: Nonempty(s) <==> Written(s)
  {
    forall s: string ensures Nonempty(s) <==> Written(s) {
      WrittenIs(s);
    }
    hide Nonempty, Written;
  }

  lemma ChecksAre(r: Receipt, version: int, actor: string)
    ensures VersionCheck(r, version).Pass? && UploaderCheck(r, actor).Pass? <==> Addressed(r, version, actor)
    ensures UploaderVersionCheck(r, version, actor).Pass? <==> Addressed(r, version, actor) && MoreVersions(r)
  {
    WrittenIs(actor);
    hide Nonempty, Written;
  }

  lemma AdvanceNotes(r: Receipt, after: Snapshot, action: Action, actor: string, at: int)
    ensures forall r' :: r' == Advance(r, after, action, actor, at) <==> Noted(r, action, actor, Some(at), after, r')
  {
  }

  // ---- drafts ----

  lemma CreateExact(d: Draft)
    ensures CreateDraft(d).Ok? <==> Written(d.id) && Written(d.uploaderSubject)
    ensures CreateDraft(d).Ok? ==> CreateDraft(d).value == Receipt(Unconfirmed(d), 1, [])
  {
    WrittenEverywhere();
    hide Nonempty, Written;
  }

  function Redrafted(d: Draft, day: Option<string>, total: int, items: seq<CandidateItem>,
                     adjustments: seq<Adjustment>): Draft {
    Draft(d.id, d.uploaderSubject, day, total, items, adjustments)
  }

  /** A draft takes over what its uploader says, and stays as it is when that is what it says already. */
  lemma EditExact(r: Receipt, version: int, actor: string, at: Clock, day: Option<string>, total: int,
                  items: seq<CandidateItem>, adjustments: seq<Adjustment>)
    ensures EditDraft(r, version, actor, at, day, total, items, adjustments).Ok? <==>
            r.current.Unconfirmed? && Addressed(r, version, actor) && at.Some? &&
            (Redrafted(r.current.draft, day, total, items, adjustments) == r.current.draft || MoreVersions(r))
    ensures var result := EditDraft(r, version, actor, at, day, total, items, adjustments);
            result.Ok? && r.current.Unconfirmed? ==>
            var draft := Redrafted(r.current.draft, day, total, items, adjustments);
            if draft == r.current.draft then result.value == r
            else Noted(r, DraftEdited, actor, at, Unconfirmed(draft), result.value)
  {
    ChecksAre(r, version, actor);
    hide VersionCheck, UploaderCheck, Addressed;
  }

  // ---- confirming ----

  function Reviewed(i: CandidateItem): Item {
    Item(i.id, i.amount)
  }

  function AdjustedOf(i: AdjustedItem): int { i.adjustedAmount }

  /** The reviewed items with the amounts of the calculation. */
  ghost predicate ItemsFrom(items: seq<CandidateItem>, c: Calculation, confirmed: seq<ConfirmedItem>) {
    && |confirmed| == |items| == |c.items|
    && forall k | 0 <= k < |items| ::
         confirmed[k] == ConfirmedItem(items[k].id, items[k].name, items[k].categoryId, items[k].amount,
                                       c.items[k].adjustedAmount)
  }

  /** The calculation of the reviewed items, which adds up to the declared total. */
  ghost predicate AddsUp(items: seq<CandidateItem>, adjustments: seq<Adjustment>, total: int, c: Calculation) {
    && Calculable(Map(items, Reviewed), adjustments) && CalculatedAs(Map(items, Reviewed), adjustments, c)
    && Sum(c.items, AdjustedOf) == total
  }

  ghost predicate MayConfirm(r: Receipt, version: int, actor: string, at: Clock, day: string, total: int,
                             items: seq<CandidateItem>, adjustments: seq<Adjustment>)
  {
    && r.current.Unconfirmed? && Addressed(r, version, actor) && MoreVersions(r) && at.Some? && Dated(day)
    && 0 <= total <= MAX_SAFE && (forall i | i in items :: Written(i.id) && Written(i.categoryId))
    && exists c :: AddsUp(items, adjustments, total, c)
  }

  /** The confirmed facts are what was declared, with the items and spreads of the calculation and no bundle yet. */
  ghost predicate ConfirmedAs(d: Draft, day: string, total: int, items: seq<CandidateItem>,
                              adjustments: seq<Adjustment>, f: ConfirmedFacts)
  {
    && f == ConfirmedFacts(d.id, d.uploaderSubject, day, total, f.items, adjustments, f.allocations, [], [])
    && exists c ::
         AddsUp(items, adjustments, total, c) && ItemsFrom(items, c, f.items) && f.allocations == c.allocations
  }

  lemma {:induction false} ReviewedAre(items: seq<CandidateItem>)
    ensures ReviewedCheck(items).Pass? <==> forall i | i in items :: Nonempty(i.id) && Nonempty(i.categoryId)
  {
    hide Nonempty;
    if items != [] {
      ReviewedAre(items[1..]);
      assert forall i :: i in items <==> i == items[0] || i in items[1..];
    }
  }

  lemma ConfirmUnfolds(r: Receipt, version: int, actor: string, at: Clock, day: string, total: int,
                       items: seq<CandidateItem>, adjustments: seq<Adjustment>)
    ensures var result := Confirm(r, version, actor, at, day, total, items, adjustments);
            var c := Calculate(Map(items, ReviewedInput), adjustments);
            && (result.Ok? <==>
                  r.current.Unconfirmed? && UploaderVersionCheck(r, version, actor).Pass? && at.Some? &&
                  CalendarDay(day) && 0 <= total <= MAX_SAFE && ReviewedCheck(items).Pass? && c.Ok? &&
                  Sum(c.value.items, AdjustedAmountOf) == total)
            && (result.Ok? ==>
                  r.current.Unconfirmed? && at.Some? && c.Ok? && |items| == |c.value.items| &&
                  result.value ==
                  Advance(r, Confirmed(ConfirmedFacts(r.current.draft.id, r.current.draft.uploaderSubject, day, total,
                                                      ConfirmedItems(items, c.value.items), adjustments,
                                                      c.value.allocations, [], [])), Confirmation, actor, at.value))
  {
    hide UploaderVersionCheck, CalendarDay, ReviewedCheck, Calculate, Advance, ConfirmedItems;
  }

  lemma AddsUpIs(items: seq<CandidateItem>, adjustments: seq<Adjustment>, total: int, c: Calculation)
    ensures AddsUp(items, adjustments, total, c) <==>
            Calculate(Map(items, ReviewedInput), adjustments) == Ok(c) && Sum(c.items, AdjustedAmountOf) == total
  {
    CalculateExact(Map(items, ReviewedInput), adjustments, c);
    assert Map(items, ReviewedInput) == Map(items, Reviewed);
    SumsAlike(c.items, c.items, AdjustedAmountOf, AdjustedOf);
    hide Calculate, Calculable, CalculatedAs, Sum;
  }

  lemma ItemsAreFrom(items: seq<CandidateItem>, adjustments: seq<Adjustment>, c: Calculation)
    requires Calculate(Map(items, ReviewedInput), adjustments) == Ok(c)
    ensures |items| == |c.items| && ItemsFrom(items, c, ConfirmedItems(items, c.items))
  {
    hide ItemsCheck, Spreads, RangeCheck;
  }

  lemma ConfirmExact(r: Receipt, version: int, actor: string, at: Clock, day: string, total: int,
                     items: seq<CandidateItem>, adjustments: seq<Adjustment>)
    ensures Confirm(r, version, actor, at, day, total, items, adjustments).Ok? <==>
            MayConfirm(r, version, actor, at, day, total, items, adjustments)
    ensures var result := Confirm(r, version, actor, at, day, total, items, adjustments);
            result.Ok? && r.current.Unconfirmed? ==>
            result.value.current.Confirmed? &&
            ConfirmedAs(r.current.draft, day, total, items, adjustments, result.value.current.facts) &&
            Noted(r, Confirmation, actor, at, result.value.current, result.value)
  {
    hide *;
    ConfirmUnfolds(r, version, actor, at, day, total, items, adjustments);
    ChecksAre(r, version, actor);
    DatedIs(day);
    ReviewedAre(items);
    WrittenEverywhere();
    MayConfirmSays(r, version, actor, at, day, total, items, adjustments);
    forall c {
      AddsUpIs(items, adjustments, total, c);
    }
    var calculated := Calculate(Map(items, ReviewedInput), adjustments);
    var result := Confirm(r, version, actor, at, day, total, items, adjustments);
    if result.Ok? {
      var c := calculated.value;
      ItemsAreFrom(items, adjustments, c);
      var d := r.current.draft;
      var f := ConfirmedFacts(d.id, d.uploaderSubject, day, total, ConfirmedItems(items, c.items), adjustments,
                              c.allocations, [], []);
      AdvanceNotes(r, Confirmed(f), Confirmation, actor, at.value);
      NotedSays(r, Confirmation, actor, at, Confirmed(f), result.value);
      ConfirmedWhen(d, day, total, items, adjustments, f, c);
    }
  }

  lemma NotedSays(r: Receipt, action: Action, actor: string, at: Clock, after: Snapshot, r': Receipt)
    requires Noted(r, action, actor, at, after, r')
    ensures r'.current == after
  {
  }

  lemma ConfirmedWhen(d: Draft, day: string, total: int, items: seq<CandidateItem>, adjustments: seq<Adjustment>,
                      f: ConfirmedFacts, c: Calculation)
    requires f == ConfirmedFacts(d.id, d.uploaderSubject, day, total, f.items, adjustments, c.allocations, [], [])
    requires AddsUp(items, adjustments, total, c) && ItemsFrom(items, c, f.items)
    ensures ConfirmedAs(d, day, total, items, adjustments, f)
  {
    hide AddsUp, ItemsFrom;
  }

  lemma MayConfirmSays(r: Receipt, version: int, actor: string, at: Clock, day: string, total: int,
                       items: seq<CandidateItem>, adjustments: seq<Adjustment>)
    ensures MayConfirm(r, version, actor, at, day, total, items, adjustments) <==>
            r.current.Unconfirmed? && Addressed(r, version, actor) && MoreVersions(r) && at.Some? && Dated(day) &&
            0 <= total <= MAX_SAFE && (forall i | i in items :: Written(i.id) && Written(i.categoryId)) &&
            exists c :: AddsUp(items, adjustments, total, c)
  {
    hide Addressed, MoreVersions, Dated, Written, AddsUp;
  }

  // ---- bundles ----

  /** Item references: at least one, none blank, none twice. */
  ghost predicate References(ids: seq<string>) {
    |ids| >= 1 && (forall id | id in ids :: Written(id)) && forall i, j | 0 <= i < j < |ids| :: ids[i] != ids[j]
  }

  lemma ReferencesAre(ids: seq<string>)
    ensures ItemIdsWellFormed(ids) <==> References(ids)
  {
    WrittenEverywhere();
    hide Nonempty, Written;
  }

  function AdjustedWithin(ids: seq<string>): ConfirmedItem -> int {
    (i: ConfirmedItem) => if i.id in ids then i.adjustedAmount else 0
  }

  ghost predicate HasItem(f: ConfirmedFacts, id: string) {
    exists i :: i in f.items && i.id == id
  }

  ghost predicate MayBundle(f: ConfirmedFacts, bundleId: string, ids: seq<string>, e: GroupExpense) {
    && Written(bundleId) && References(ids) && (forall id | id in ids :: HasItem(f, id))
    && (forall b | b in f.bundles ::
          b.id != bundleId && b.expenseId != e.facts.id && b.groupId == e.facts.groupId &&
          forall id | id in ids :: id !in b.itemIds)
    && e.version == 1 && |e.corrections| == 0 && e.facts.sourceOwnerSubject == f.uploaderSubject
    && e.facts.occurredOn == f.occurredOn && e.facts.total == Sum(f.items, AdjustedWithin(ids))
  }

  /** As many items as references are found exactly when every reference has its item. */
  lemma FoundAll(f: ConfirmedFacts, ids: seq<string>)
    requires DistinctBy(f.items, ConfirmedIdOf) && ItemIdsWellFormed(ids)
    ensures |Filter(f.items, Among(ids))| == |ids| <==> forall id | id in ids :: HasItem(f, id)
  {
    if |Filter(f.items, Among(ids))| == |ids| {
      AllFound(f.items, ids);
      hide ItemIdsWellFormed, DistinctBy, Filter;
    }
    if forall id | id in ids :: HasItem(f, id) {
      SameNames(f, ids);
    }
  }

  lemma SameNames(f: ConfirmedFacts, ids: seq<string>)
    requires DistinctBy(f.items, ConfirmedIdOf) && ItemIdsWellFormed(ids) && forall id | id in ids :: HasItem(f, id)
    ensures |Filter(f.items, Among(ids))| == |ids|
  {
    var names := InReceiptOrder(f.items, ids);
    OrderedIds(f.items, ids);
    DistinctNames(names);
    NoRepetition(ids);
    hide ItemIdsWellFormed, DistinctBy, Filter;
    forall id ensures id in names <==> id in ids {
    }
    DistinctElements(names);
    DistinctElements(ids);
    assert Elements(names) == Elements(ids);
  }

  lemma DistinctNames(names: seq<string>)
    requires DistinctBy(names, Itself)
    ensures forall i, j | 0 <= i < j < |names| :: names[i] != names[j]
  {
    forall i, j | 0 <= i < j < |names| ensures names[i] != names[j] {
      assert Itself(names[i]) != Itself(names[j]);
    }
  }

  lemma NoRepetition(ids: seq<string>)
    requires ItemIdsWellFormed(ids)
    ensures forall i, j | 0 <= i < j < |ids| :: ids[i] != ids[j]
  {
    hide Nonempty;
  }

  lemma RegisterUnfolds(r: Receipt, version: int, actor: string, at: Clock, bundleId: string, ids: seq<string>,
                        e: GroupExpense)
    requires r.current.Confirmed?
    ensures var result := RegisterBundle(r, version, actor, at, bundleId, ids, e);
            var f := r.current.facts;
            && (result.Ok? <==>
                  UploaderVersionCheck(r, version, actor).Pass? && at.Some? && Nonempty(bundleId) &&
                  FindBundle(f.bundles, bundleId).None? && ItemIdsWellFormed(ids) &&
                  |Filter(f.items, Among(ids))| == |ids| && !Assigned(f.bundles, ids) && e.version == 1 &&
                  e.corrections == [] && !PairedExpense(f.bundles, e.facts.id) &&
                  e.facts.sourceOwnerSubject == f.uploaderSubject && e.facts.occurredOn == f.occurredOn &&
                  e.facts.total == Sum(Filter(f.items, Among(ids)), ConfirmedAmountOf) &&
                  (f.bundles == [] || f.bundles[0].groupId == e.facts.groupId))
            && (result.Ok? ==>
                  at.Some? &&
                  result.value == Advance(r, Confirmed(f.(bundles := f.bundles + [Bundle(bundleId, ids, e.facts.id,
                                                                                         e.facts.groupId)])),
                                          BundleRegistered, actor, at.value))
  {
    hide UploaderVersionCheck, FindBundle, ItemIdsWellFormed, Assigned, PairedExpense, Nonempty, Filter, Sum;
  }

  lemma BundleFree(f: ConfirmedFacts, bundleId: string, ids: seq<string>, e: GroupExpense)
    requires forall i, j | 0 <= i < j < |f.bundles| :: f.bundles[i].groupId == f.bundles[j].groupId
    ensures FindBundle(f.bundles, bundleId).None? && !Assigned(f.bundles, ids) &&
            !PairedExpense(f.bundles, e.facts.id) && (f.bundles == [] || f.bundles[0].groupId == e.facts.groupId) <==>
            forall b | b in f.bundles ::
              b.id != bundleId && b.expenseId != e.facts.id && b.groupId == e.facts.groupId &&
              forall id | id in ids :: id !in b.itemIds
  {
    if f.bundles != [] {
      assert f.bundles[0] in f.bundles;
      forall b | b in f.bundles ensures b.groupId == f.bundles[0].groupId {
        var k :| 0 <= k < |f.bundles| && f.bundles[k] == b;
      }
    }
    assert FindBundle(f.bundles, bundleId).None? <==> forall b | b in f.bundles :: b.id != bundleId;
    hide FindBundle;
  }

  lemma {:induction false} WithinIs(items: seq<ConfirmedItem>, ids: seq<string>)
    ensures Sum(Filter(items, Among(ids)), ConfirmedAmountOf) == Sum(items, AdjustedWithin(ids))
  {
    if items != [] {
      WithinIs(items[1..], ids);
      var rest := Filter(items[1..], Among(ids));
      if Among(ids)(items[0]) {
        assert ([items[0]] + rest)[1..] == rest;
      } else {
        assert [] + rest == rest;
      }
    }
  }

  lemma OneGroup(f: ConfirmedFacts)
    requires FactsSound(f)
    ensures forall i, j | 0 <= i < j < |f.bundles| ::
              f.bundles[i].groupId == f.bundles[j].groupId && f.bundles[i].id != f.bundles[j].id &&
              f.bundles[i].expenseId != f.bundles[j].expenseId
    ensures DistinctBy(f.items, ConfirmedIdOf)
  {
    hide BundleSound, SelectionsSound, Nonempty, CalendarDay, Calculate;
    forall i, j | 0 <= i < j < |f.bundles|
      ensures f.bundles[i].groupId == f.bundles[j].groupId && f.bundles[i].id != f.bundles[j].id &&
              f.bundles[i].expenseId != f.bundles[j].expenseId
    {
      assert Apart(f.bundles[i], f.bundles[j]);
    }
  }

  lemma SoundFacts(r: Receipt)
    requires ReceiptSound(r) && r.current.Confirmed?
    ensures FactsSound(r.current.facts)
  {
    hide FactsSound, HistorySound;
  }

  /** The facts with one more bundle, paired with the expense and in its group. */
  function Bundled(f: ConfirmedFacts, bundleId: string, ids: seq<string>, e: GroupExpense): ConfirmedFacts {
    f.(bundles := f.bundles + [Bundle(bundleId, ids, e.facts.id, e.facts.groupId)])
  }

  lemma BundledIs(f: ConfirmedFacts, bundleId: string, ids: seq<string>, e: GroupExpense)
    ensures Bundled(f, bundleId, ids, e) ==
            f.(bundles := f.bundles + [Bundle(bundleId, ids, e.facts.id, e.facts.groupId)])
  {
  }

  /** A bundle is registered exactly for unassigned items with a fresh expense of their sum, and comes last. */
  lemma BundleExact(r: Receipt, version: int, actor: string, at: Clock, bundleId: string, ids: seq<string>,
                    e: GroupExpense)
    requires ReceiptSound(r)
    ensures RegisterBundle(r, version, actor, at, bundleId, ids, e).Ok? <==>
            r.current.Confirmed? && Addressed(r, version, actor) && MoreVersions(r) && at.Some? &&
            MayBundle(r.current.facts, bundleId, ids, e)
    ensures var result := RegisterBundle(r, version, actor, at, bundleId, ids, e);
            result.Ok? && r.current.Confirmed? ==>
            Noted(r, BundleRegistered, actor, at, Confirmed(Bundled(r.current.facts, bundleId, ids, e)), result.value)
  {
    hide *;
    if r.current.Confirmed? {
      var f := r.current.facts;
      SoundFacts(r);
      OneGroup(f);
      RegisterUnfolds(r, version, actor, at, bundleId, ids, e);
      ChecksAre(r, version, actor);
      WrittenEverywhere();
      ReferencesAre(ids);
      BundleFree(f, bundleId, ids, e);
      WithinIs(f.items, ids);
      MayBundleSays(f, bundleId, ids, e);
      if ItemIdsWellFormed(ids) {
        FoundAll(f, ids);
      }
      BundledIs(f, bundleId, ids, e);
      if at.Some? {
        AdvanceNotes(r, Confirmed(Bundled(f, bundleId, ids, e)), BundleRegistered, actor, at.value);
      }
    } else {
      NeedsConfirmed(r, version, actor, at, bundleId, ids, e);
    }
  }

  lemma NeedsConfirmed(r: Receipt, version: int, actor: string, at: Clock, bundleId: string, ids: seq<string>,
                       e: GroupExpense)
    requires !r.current.Confirmed?
    ensures RegisterBundle(r, version, actor, at, bundleId, ids, e).Err?
  {
  }

  lemma MayBundleSays(f: ConfirmedFacts, bundleId: string, ids: seq<string>, e: GroupExpense)
    ensures MayBundle(f, bundleId, ids, e) <==>
            Written(bundleId) && References(ids) && (forall id | id in ids :: HasItem(f, id)) &&
            (forall b | b in f.bundles ::
               b.id != bundleId && b.expenseId != e.facts.id && b.groupId == e.facts.groupId &&
               forall id | id in ids :: id !in b.itemIds) &&
            e.version == 1 && e.corrections == [] && e.facts.sourceOwnerSubject == f.uploaderSubject &&
            e.facts.occurredOn == f.occurredOn && e.facts.total == Sum(f.items, AdjustedWithin(ids))
  {
    hide Written, References, HasItem, Sum;
  }

  // ---- moving ----

  /** The only bundle with the identifier is not selected for a settlement. */
  ghost predicate Unlocked(f: ConfirmedFacts, bundleId: string) {
    && Written(bundleId) && (exists b :: b in f.bundles && b.id == bundleId)
    && forall s | s in f.selections :: s.bundleId != bundleId
  }

  lemma EditableIs(r: Receipt, version: int, actor: string, bundleId: string)
    ensures EditableBundle(r, version, actor, bundleId).Ok? <==>
            r.current.Confirmed? && Addressed(r, version, actor) && Unlocked(r.current.facts, bundleId)
  {
    ChecksAre(r, version, actor);
    WrittenEverywhere();
    hide VersionCheck, UploaderCheck, Addressed, Nonempty, Written;
    if r.current.Confirmed? {
      var bundles := r.current.facts.bundles;
      if FindBundle(bundles, bundleId).Some? {
        assert bundles[FindBundle(bundles, bundleId).value] in bundles;
      }
      hide FindBundle;
    }
  }

  /** The identifiers of these items in the order of the receipt, and no others. */
  ghost predicate InOrderOf(items: seq<ConfirmedItem>, ids: seq<string>, names: seq<string>) {
    && (forall id :: id in names <==> id in ids && exists i :: i in items && i.id == id)
    && forall m, n | 0 <= m < n < |names| :: Behind(items, names[m], names[n])
  }

  ghost predicate Behind(items: seq<ConfirmedItem>, id: string, later: string) {
    exists k, l :: 0 <= k < l < |items| && items[k].id == id && items[l].id == later
  }

  lemma {:induction false} KeptOrder(items: seq<ConfirmedItem>, ids: seq<string>, m: nat, n: nat)
    requires m < n < |InReceiptOrder(items, ids)|
    ensures Behind(items, InReceiptOrder(items, ids)[m], InReceiptOrder(items, ids)[n])
  {
    hide Behind;
    var rest := InReceiptOrder(items[1..], ids);
    OrderStep(items, ids);
    if items[0].id !in ids {
      KeptOrder(items[1..], ids, m, n);
      BehindMore(items, rest[m], rest[n]);
    } else if m > 0 {
      KeptOrder(items[1..], ids, m - 1, n - 1);
      BehindMore(items, rest[m - 1], rest[n - 1]);
    } else {
      NamedIn(items[1..], ids, rest[n - 1]);
      BehindFirst(items, rest[n - 1]);
    }
  }

  lemma OrderStep(items: seq<ConfirmedItem>, ids: seq<string>)
    requires items != []
    ensures InReceiptOrder(items, ids) ==
            (if items[0].id in ids then [items[0].id] else []) + InReceiptOrder(items[1..], ids)
  {
    var rest := Filter(items[1..], Among(ids));
    if items[0].id in ids {
      MapCons(items[0], rest, ConfirmedIdOf);
    } else {
      assert [] + rest == rest;
    }
  }

  lemma NamedIn(items: seq<ConfirmedItem>, ids: seq<string>, id: string)
    requires id in InReceiptOrder(items, ids)
    ensures exists i :: i in items && i.id == id
  {
    var found := Filter(items, Among(ids));
    var k :| 0 <= k < |found| && ConfirmedIdOf(found[k]) == id;
    assert found[k] in found;
    hide Filter;
  }

  lemma BehindMore(items: seq<ConfirmedItem>, id: string, later: string)
    requires items != [] && Behind(items[1..], id, later)
    ensures Behind(items, id, later)
  {
    var k, l :| 0 <= k < l < |items[1..]| && items[1..][k].id == id && items[1..][l].id == later;
    assert items[k + 1].id == id && items[l + 1].id == later;
  }

  lemma BehindFirst(items: seq<ConfirmedItem>, later: string)
    requires items != [] && exists i :: i in items[1..] && i.id == later
    ensures Behind(items, items[0].id, later)
  {
    var i :| i in items[1..] && i.id == later;
    var l :| 0 <= l < |items[1..]| && items[1..][l] == i;
    assert items[0].id == items[0].id && items[l + 1].id == later;
  }

  lemma OrderIs(items: seq<ConfirmedItem>, ids: seq<string>)
    requires DistinctBy(items, ConfirmedIdOf)
    ensures InOrderOf(items, ids, InReceiptOrder(items, ids))
  {
    OrderedIds(items, ids);
    var names := InReceiptOrder(items, ids);
    hide InReceiptOrder, DistinctBy, Behind;
    forall m, n | 0 <= m < n < |names| ensures Behind(items, names[m], names[n]) {
      KeptOrder(items, ids, m, n);
    }
  }

  ghost predicate MayMoveItems(f: ConfirmedFacts, from: string, to: string, ids: seq<string>) {
    && Unlocked(f, from) && Unlocked(f, to) && from != to && References(ids)
    && exists b :: b in f.bundles && b.id == from && |ids| < |b.itemIds| && forall id | id in ids :: id in b.itemIds
  }

  /** The bundle as it is after the move: without the items, with them, or unchanged. */
  ghost predicate BundleMoved(items: seq<ConfirmedItem>, from: string, to: string, ids: seq<string>, b: Bundle,
                              b': Bundle)
  {
    && b' == b.(itemIds := b'.itemIds)
    && (b.id != from && b.id != to ==> b'.itemIds == b.itemIds)
    && (b.id == from ==>
          exists left ::
            InOrderOf(items, left, b'.itemIds) && forall id :: id in left <==> id in b.itemIds && id !in ids)
    && (b.id == to ==> InOrderOf(items, b.itemIds + ids, b'.itemIds))
  }

  /** The receipt with the items moved, everything else as before. */
  ghost predicate ItemsMoved(f: ConfirmedFacts, from: string, to: string, ids: seq<string>, f': ConfirmedFacts) {
    && f' == f.(bundles := f'.bundles) && |f'.bundles| == |f.bundles|
    && forall k | 0 <= k < |f.bundles| :: BundleMoved(f.items, from, to, ids, f.bundles[k], f'.bundles[k])
  }

  lemma MoveUnfolds(r: Receipt, version: int, actor: string, at: Clock, from: string, to: string, ids: seq<string>)
    ensures var result := MoveBundleItems(r, version, actor, at, from, to, ids);
            var i, j := EditableBundle(r, version, actor, from), EditableBundle(r, version, actor, to);
            && (result.Ok? <==>
                  i.Ok? && j.Ok? && from != to && MoreVersions(r) && at.Some? && ItemIdsWellFormed(ids) &&
                  (forall id | id in ids :: id in r.current.facts.bundles[i.value].itemIds) &&
                  |ids| < |r.current.facts.bundles[i.value].itemIds|)
            && (result.Ok? ==>
                  at.Some? && i.Ok? && j.Ok? &&
                  result.value == Advance(r, Confirmed(Moved(r.current.facts, i.value, j.value, ids)),
                                          BundleItemsMoved(from, to, InReceiptOrder(r.current.facts.items, ids)), actor,
                                          at.value))
  {
    hide EditableBundle, ItemIdsWellFormed, Moved, InReceiptOrder;
  }

  lemma MovedIs(f: ConfirmedFacts, i: nat, j: nat, from: string, to: string, ids: seq<string>)
    requires FactsSound(f) && i < |f.bundles| && j < |f.bundles| && f.bundles[i].id == from && f.bundles[j].id == to
    requires from != to
    ensures ItemsMoved(f, from, to, ids, Moved(f, i, j, ids))
  {
    OneGroup(f);
    OrderIs(f.items, Remaining(f.bundles[i].itemIds, ids));
    OrderIs(f.items, f.bundles[j].itemIds + ids);
    hide FactsSound, DistinctBy, InReceiptOrder, InOrderOf, Remaining;
    var f' := Moved(f, i, j, ids);
    forall k | 0 <= k < |f.bundles| ensures BundleMoved(f.items, from, to, ids, f.bundles[k], f'.bundles[k]) {
      if k == i {
      } else if k == j {
      } else {
        assert if k < i then f.bundles[k].id != f.bundles[i].id else f.bundles[i].id != f.bundles[k].id;
        assert if k < j then f.bundles[k].id != f.bundles[j].id else f.bundles[j].id != f.bundles[k].id;
      }
    }
  }

  lemma OnlyBundle(f: ConfirmedFacts, k: nat, b: Bundle)
    requires FactsSound(f) && k < |f.bundles| && b in f.bundles && b.id == f.bundles[k].id
    ensures b == f.bundles[k]
  {
    OneGroup(f);
    hide FactsSound, DistinctBy;
    var m :| 0 <= m < |f.bundles| && f.bundles[m] == b;
    assert f.bundles[m].id == f.bundles[k].id;
  }

  lemma MayMoveSays(f: ConfirmedFacts, from: string, to: string, ids: seq<string>, i: nat)
    requires FactsSound(f) && i < |f.bundles| && f.bundles[i].id == from
    ensures MayMoveItems(f, from, to, ids) <==>
            Unlocked(f, from) && Unlocked(f, to) && from != to && References(ids) &&
            |ids| < |f.bundles[i].itemIds| && forall id | id in ids :: id in f.bundles[i].itemIds
  {
    hide FactsSound, Unlocked, References;
    forall b | b in f.bundles && b.id == from ensures b == f.bundles[i] {
      OnlyBundle(f, i, b);
    }
  }

  /** Items are moved exactly between two unlocked bundles, leaving some behind, and listed in receipt order. */
  lemma MoveExact(r: Receipt, version: int, actor: string, at: Clock, from: string, to: string, ids: seq<string>)
    requires ReceiptSound(r)
    ensures MoveBundleItems(r, version, actor, at, from, to, ids).Ok? <==>
            r.current.Confirmed? && Addressed(r, version, actor) && MoreVersions(r) && at.Some? &&
            MayMoveItems(r.current.facts, from, to, ids)
    ensures var result := MoveBundleItems(r, version, actor, at, from, to, ids);
            result.Ok? && r.current.Confirmed? ==>
            result.value.current.Confirmed? &&
            ItemsMoved(r.current.facts, from, to, ids, result.value.current.facts) &&
            exists names ::
              InOrderOf(r.current.facts.items, ids, names) &&
              Noted(r, BundleItemsMoved(from, to, names), actor, at, result.value.current, result.value)
  {
    hide *;
    MoveUnfolds(r, version, actor, at, from, to, ids);
    EditableIs(r, version, actor, from);
    EditableIs(r, version, actor, to);
    ReferencesAre(ids);
    var i, j := EditableBundle(r, version, actor, from), EditableBundle(r, version, actor, to);
    if i.Ok? && j.Ok? {
      var f := r.current.facts;
      SoundFacts(r);
      MayMoveSays(f, from, to, ids, i.value);
      if from != to {
        MovedIs(f, i.value, j.value, from, to, ids);
        OneGroup(f);
        OrderIs(f.items, ids);
        if at.Some? {
          var after, action := Confirmed(Moved(f, i.value, j.value, ids)),
            BundleItemsMoved(from, to, InReceiptOrder(f.items, ids));
          AdvanceNotes(r, after, action, actor, at.value);
          AdvanceEnds(r, after, action, actor, at.value);
        }
      }
    }
    NoMove(r, from, to, ids);
  }

  lemma AdvanceEnds(r: Receipt, after: Snapshot, action: Action, actor: string, at: int)
    ensures Advance(r, after, action, actor, at).current == after
  {
  }

  lemma NoMove(r: Receipt, from: string, to: string, ids: seq<string>)
    ensures r.current.Confirmed? && MayMoveItems(r.current.facts, from, to, ids) ==>
            Unlocked(r.current.facts, from) && Unlocked(r.current.facts, to) && from != to && References(ids)
  {
    hide Unlocked, References;
  }

  // ---- selecting for a settlement ----

  /** The selection names a bundle with its expense and group, a case and a snapshot. */
  ghost predicate Selects(f: ConfirmedFacts, s: Selection) {
    && Written(s.bundleId) && Written(s.groupId) && LowerUuid(s.caseId) && LowerUuid(s.snapshotId)
    && Written(s.expenseId) && Written(s.actorSubject)
    && exists b :: b in f.bundles && b.id == s.bundleId && b.expenseId == s.expenseId && b.groupId == s.groupId
  }

  /** The selection is there already, or it is the first one of its bundle. */
  ghost predicate MaySelect(r: Receipt, version: int, s: Selection, at: Clock) {
    && r.current.Confirmed? && -MAX_SAFE <= version <= MAX_SAFE && version == r.version && at.Some?
    && Selects(r.current.facts, s)
    && (s.(selectedAt := at.value) in r.current.facts.selections ||
        (MoreVersions(r) && forall x | x in r.current.facts.selections :: x.bundleId != s.bundleId))
  }

  lemma MaySelectSays(r: Receipt, version: int, s: Selection, at: Clock)
    ensures MaySelect(r, version, s, at) <==>
            r.current.Confirmed? && -MAX_SAFE <= version <= MAX_SAFE && version == r.version && at.Some? &&
            Selects(r.current.facts, s) &&
            (s.(selectedAt := at.value) in r.current.facts.selections ||
             (MoreVersions(r) && forall x | x in r.current.facts.selections :: x.bundleId != s.bundleId))
  {
    hide Selects, MoreVersions;
  }

  lemma SelectUnfolds(r: Receipt, version: int, s: Selection, at: Clock)
    ensures var result := RecordSelection(r, version, s, at);
            if !(r.current.Confirmed? && VersionCheck(r, version).Pass? && at.Some?) then result.Err?
            else
              var f, fixed := r.current.facts, s.(selectedAt := at.value);
              var k, first := FindBundle(f.bundles, s.bundleId), SelectionOf(f.selections, s.bundleId);
              var named := Nonempty(s.bundleId) && Nonempty(s.groupId) && CanonicalUuid(s.caseId) &&
                           CanonicalUuid(s.snapshotId) && Nonempty(s.expenseId) && Nonempty(s.actorSubject) &&
                           k.Some? && f.bundles[k.value].expenseId == s.expenseId &&
                           f.bundles[k.value].groupId == s.groupId;
              && (result.Ok? <==> named && if first.Some? then first.value == fixed else MoreVersions(r))
              && (result.Ok? ==>
                    result.value == if first.Some? then r
                                    else Advance(r, Confirmed(f.(selections := f.selections + [fixed])),
                                                 BundleSnapshotSelected, s.actorSubject, at.value))
  {
    hide VersionCheck, FindBundle, SelectionOf, Nonempty, CanonicalUuid;
  }

  lemma SelectedOnce(f: ConfirmedFacts, s: Selection)
    requires FactsSound(f) && s in f.selections
    ensures SelectionOf(f.selections, s.bundleId) == Some(s)
  {
    hide AmountsSound, BundlesSound, Nonempty, CalendarDay;
    var found := SelectionOf(f.selections, s.bundleId).value;
    var m :| 0 <= m < |f.selections| && f.selections[m] == s;
    var n :| 0 <= n < |f.selections| && f.selections[n] == found;
    assert SelectedIdOf(f.selections[m]) == SelectedIdOf(f.selections[n]);
  }

  lemma SelectsIs(f: ConfirmedFacts, s: Selection)
    requires FactsSound(f)
    ensures var k := FindBundle(f.bundles, s.bundleId);
            Selects(f, s) <==>
            Nonempty(s.bundleId) && Nonempty(s.groupId) && CanonicalUuid(s.caseId) && CanonicalUuid(s.snapshotId) &&
            Nonempty(s.expenseId) && Nonempty(s.actorSubject) && k.Some? &&
            f.bundles[k.value].expenseId == s.expenseId && f.bundles[k.value].groupId == s.groupId
  {
    WrittenEverywhere();
    LowerUuidIs(s.caseId);
    LowerUuidIs(s.snapshotId);
    hide Nonempty, Written, CanonicalUuid, LowerUuid, FactsSound;
    var k := FindBundle(f.bundles, s.bundleId);
    if k.Some? {
      forall b | b in f.bundles && b.id == s.bundleId ensures b == f.bundles[k.value] {
        OnlyBundle(f, k.value, b);
      }
    }
    hide FindBundle;
  }

  /** A bundle is selected once and for good; the same selection again changes nothing. */
  lemma SelectExact(r: Receipt, version: int, s: Selection, at: Clock)
    requires ReceiptSound(r)
    ensures RecordSelection(r, version, s, at).Ok? <==> MaySelect(r, version, s, at)
    ensures var result := RecordSelection(r, version, s, at);
            result.Ok? && r.current.Confirmed? && at.Some? ==>
            var f, fixed := r.current.facts, s.(selectedAt := at.value);
            if fixed in f.selections then result.value == r
            else Noted(r, BundleSnapshotSelected, s.actorSubject, at,
                       Confirmed(f.(selections := f.selections + [fixed])), result.value)
  {
    hide *;
    SelectUnfolds(r, version, s, at);
    MaySelectSays(r, version, s, at);
    VersionIs(r, version);
    if r.current.Confirmed? {
      var f := r.current.facts;
      SoundFacts(r);
      SelectsIs(f, s);
      forall x | x in f.selections ensures SelectionOf(f.selections, x.bundleId) == Some(x) {
        SelectedOnce(f, x);
      }
      if at.Some? {
        AdvanceNotes(r, Confirmed(f.(selections := f.selections + [s.(selectedAt := at.value)])),
                     BundleSnapshotSelected, s.actorSubject, at.value);
      }
    }
  }

  lemma VersionIs(r: Receipt, version: int)
    ensures VersionCheck(r, version).Pass? <==> -MAX_SAFE <= version <= MAX_SAFE && version == r.version
  {
  }
}
