/** When an expense follows its receipt, said of the lists themselves, and the one expense that follows. */
module ExpenseFollowing {
  import opened Outcomes
  import opened Sequences
  import opened Text
  import opened ReceiptAdjustments
  import opened GroupExpenses
  import opened ExpenseRoot
  import opened ReceiptSteps
  import opened ExpenseOutcomes

  // ---- following the receipt ----

  /** The participants keep their places and percentages and bear the new total. */
  ghost predicate Refigured(before: ExpenseFacts, total: int, after: ExpenseFacts) {
    && after == before.(total := total, allocations := after.allocations)
    && |after.allocations| == |before.allocations|
    && (forall k | 0 <= k < |before.allocations| ::
          after.allocations[k] == before.allocations[k].(burden := after.allocations[k].burden))
    && FairlyBorne(total, before.payerParticipantId, after.allocations)
  }

  /** The expense's registration at another amount. */
  function Refigure(e: GroupExpense, amount: int): Result<ExpenseFacts, ExpenseError> {
    Register(RegistrationOf(e.facts).(amount := amount))
  }

  lemma RefigureSays(e: GroupExpense, amount: int)
    ensures var r := RegistrationOf(e.facts).(amount := amount);
            && Refigure(e, amount) == Register(r) && r.id == e.facts.id && r.groupId == e.facts.groupId
            && r.sourceOwnerSubject == e.facts.sourceOwnerSubject && r.occurredOn == e.facts.occurredOn
            && r.amount == amount && r.payerParticipantId == e.facts.payerParticipantId
            && r.participants == Map(e.facts.allocations, ParticipantOf)
  {
    hide Register;
  }

  /** A genuine expense can be refigured at every amount that is not negative and not too large. */
  lemma RefigureExact(e: GroupExpense, amount: int)
    requires ExpenseGenuine(e)
    ensures Refigure(e, amount).Ok? <==> 0 <= amount <= MAX_SAFE
    ensures Refigure(e, amount).Ok? ==>
            var f := Refigure(e, amount).value;
            f.total == amount && Refigured(e.facts, amount, e.facts.(total := f.total, allocations := f.allocations))
  {
    hide *;
    GenuineParts(e);
    RegistrationSays(e.facts);
    RefigureSays(e, amount);
    var r := RegistrationOf(e.facts).(amount := amount);
    MayRegisterSays(RegistrationOf(e.facts));
    MayRegisterSays(r);
    RegisterExact(r);
    if Refigure(e, amount).Ok? {
      var xs, after := e.facts.allocations, Register(r).value.allocations;
      EP.RegisteredParts(r);
      RegisteredShares(r, Register(r).value);
      EP.RegistrableParts(r);
      FairSorted(e.facts.total, e.facts.payerParticipantId, xs);
      FairSorted(amount, r.payerParticipantId, after);
      GoodIs(r.participants);
      GoodOrders(r.participants);
      EP.SameParticipants(after, xs, r.participants);
      RefiguredSays(e.facts, amount, after);
    }
  }

  lemma RefiguredSays(before: ExpenseFacts, amount: int, after: seq<Allocation>)
    requires Map(after, ParticipantOf) == Map(before.allocations, ParticipantOf)
    requires FairlyBorne(amount, before.payerParticipantId, after)
    ensures Refigured(before, amount, before.(total := amount, allocations := after))
  {
    hide FairlyBorne;
    forall k | 0 <= k < |after| ensures ParticipantOf(after[k]) == ParticipantOf(before.allocations[k]) {
      assert Map(after, ParticipantOf)[k] == Map(before.allocations, ParticipantOf)[k];
    }
  }

  /** The fact after is the next version's about the same bundle, expense and day, told to the same person. */
  ghost predicate MayMove(e: GroupExpense, version: int, receiptVersion: int, before: BundleFact, after: BundleFact,
                          actor: string, at: Clock)
  {
    && version == e.version <= MAX_SAFE && -MAX_SAFE <= version && e.version + 1 <= MAX_SAFE && at.Some?
    && FactFits(e, before, receiptVersion, actor) && FactComplete(after)
    && after == before.(receiptVersion := before.receiptVersion + 1, adjustedAmount := after.adjustedAmount)
    && after.receiptVersion <= MAX_SAFE
  }

  lemma MovementIs(e: GroupExpense, version: int, receiptVersion: int, before: BundleFact, after: BundleFact,
                   actor: string, at: Clock)
    ensures var r := ReflectMovement(e, version, receiptVersion, before, after, actor, at);
            var f := Refigure(e, after.adjustedAmount);
            && (r.Ok? <==> MayMove(e, version, receiptVersion, before, after, actor, at) && f.Ok?)
            && (r.Ok? ==>
                  at.Some? &&
                  var facts := e.facts.(total := f.value.total, allocations := f.value.allocations);
                  r.value == e.(facts := facts, version := e.version + 1,
                                movements := e.movements + [Movement(actor, at.value, e.version, e.version + 1, before,
                                                                     after, e.facts, facts)]))
  {
    hide Register, RegistrationOf, Nonempty, FactShapeCheck, CurrentFactCheck, FactComplete, FactFits;
    FactChecks(e, before, receiptVersion, actor);
    FactChecks(e, after, receiptVersion, actor);
    FitsSays(e, before, receiptVersion, actor);
  }

  lemma FitsSays(e: GroupExpense, fact: BundleFact, receiptVersion: int, actor: string)
    ensures FactFits(e, fact, receiptVersion, actor) ==> 1 <= fact.receiptVersion <= MAX_SAFE
    ensures FactComplete(fact) ==> 0 <= fact.adjustedAmount <= MAX_SAFE
  {
  }

  /** A move of items is followed exactly when it is one version on, and gives the new amount to the same shares. */
  lemma MovementExact(e: GroupExpense, version: int, receiptVersion: int, before: BundleFact, after: BundleFact,
                      actor: string, at: Clock)
    requires ExpenseGenuine(e)
    ensures var r := ReflectMovement(e, version, receiptVersion, before, after, actor, at);
            && (r.Ok? <==> MayMove(e, version, receiptVersion, before, after, actor, at))
            && (r.Ok? ==>
                  && at.Some? && Refigured(e.facts, after.adjustedAmount, r.value.facts)
                  && r.value == e.(facts := r.value.facts, version := e.version + 1,
                                   movements := e.movements + [Movement(actor, at.value, e.version, e.version + 1,
                                                                        before, after, e.facts, r.value.facts)]))
  {
    hide *;
    MovementIs(e, version, receiptVersion, before, after, actor, at);
    RefigureExact(e, after.adjustedAmount);
    MoveRoom(e, version, receiptVersion, before, after, actor, at);
  }

  lemma MoveRoom(e: GroupExpense, version: int, receiptVersion: int, before: BundleFact, after: BundleFact,
                 actor: string, at: Clock)
    ensures MayMove(e, version, receiptVersion, before, after, actor, at) ==> 0 <= after.adjustedAmount <= MAX_SAFE
  {
    hide FactFits, Nonempty;
  }

  /** The first bundle that is paired with the expense. */
  ghost predicate PairedFirst(bundles: seq<Bundle>, expenseId: string, b: Bundle) {
    exists k :: 0 <= k < |bundles| && bundles[k] == b && b.expenseId == expenseId &&
                forall m | 0 <= m < k :: bundles[m].expenseId != expenseId
  }

  /** The only recorded case fact about the bundle. */
  ghost predicate OnlyEntry(cases: seq<AffectedCase>, bundleId: string, entry: AffectedCase) {
    exists k :: 0 <= k < |cases| && cases[k] == entry && entry.bundleId == bundleId &&
                forall m | 0 <= m < |cases| && m != k :: cases[m].bundleId != bundleId
  }

  /** A selected bundle's case is the expense's, rejected and at the expected version; another bundle has none. */
  ghost predicate CaseFits(e: GroupExpense, selected: bool, entry: AffectedCase) {
    if selected then
      && entry.caseFact.Some? && entry.expectedCaseVersion == Some(entry.caseFact.value.version)
      && var fact := entry.caseFact.value;
         && fact.expenseId == e.facts.id && fact.groupId == e.facts.groupId && CanonicalUuid(fact.caseId)
         && 1 <= fact.version <= MAX_SAFE && fact.lifecycle == "Rejected"
    else entry.caseFact.None? && entry.expectedCaseVersion.None?
  }

  /** The sum of the items' adjusted amounts, each item taken at the first place of its identifier. */
  ghost predicate AmountsTo(items: seq<ConfirmedItem>, ids: seq<string>, amount: int) {
    && amount <= MAX_SAFE && amount == Sum(ids, AmountOfItem(items))
    && forall id | id in ids ::
         exists k :: 0 <= k < |items| && items[k].id == id && (forall m | 0 <= m < k :: items[m].id != id) &&
                     0 <= items[k].adjustedAmount <= MAX_SAFE && AmountOfItem(items)(id) == items[k].adjustedAmount
  }

  lemma PairFound(bundles: seq<Bundle>, expenseId: string)
    ensures PairOf(bundles, expenseId).Some? ==>
            PairedFirst(bundles, expenseId, bundles[PairOf(bundles, expenseId).value])
    ensures forall b | PairedFirst(bundles, expenseId, b) ::
              PairOf(bundles, expenseId).Some? && bundles[PairOf(bundles, expenseId).value] == b
  {
    var found := FirstWhere(bundles, PairedWith(expenseId));
    FirstIsFirst(bundles, PairedWith(expenseId));
    forall b | PairedFirst(bundles, expenseId, b) ensures found.Some? && bundles[found.value] == b {
      var k :| 0 <= k < |bundles| && bundles[k] == b && b.expenseId == expenseId &&
               forall m | 0 <= m < k :: bundles[m].expenseId != expenseId;
      assert bundles[k] in bundles && PairedWith(expenseId)(bundles[k]);
    }
  }

  lemma {:induction false} FirstIsFirst<T(!new)>(xs: seq<T>, p: T -> bool)
    ensures FirstWhere(xs, p).Some? ==> forall m | 0 <= m < FirstWhere(xs, p).value :: !p(xs[m])
  {
    if xs != [] && !p(xs[0]) {
      FirstIsFirst(xs[1..], p);
      if FirstWhere(xs, p).Some? {
        forall m | 0 <= m < FirstWhere(xs, p).value ensures !p(xs[m]) {
          assert m > 0 ==> xs[m] == xs[1..][m - 1];
        }
      }
    }
  }

  lemma {:induction false} EntryIs(cases: seq<AffectedCase>, bundleId: string)
    ensures |EntriesFor(cases, bundleId)| == 0 <==> forall m | 0 <= m < |cases| :: cases[m].bundleId != bundleId
    ensures |EntriesFor(cases, bundleId)| == 1 ==> OnlyEntry(cases, bundleId, EntriesFor(cases, bundleId)[0])
    ensures forall entry | OnlyEntry(cases, bundleId, entry) :: EntriesFor(cases, bundleId) == [entry]
  {
    if cases != [] {
      EntryIs(cases[1..], bundleId);
      EntryStep(cases, bundleId);
      forall entry | OnlyEntry(cases, bundleId, entry) ensures EntriesFor(cases, bundleId) == [entry] {
        OnlyTail(cases, bundleId, entry);
      }
    }
  }

  lemma EntryStep(cases: seq<AffectedCase>, bundleId: string)
    requires cases != []
    requires |EntriesFor(cases[1..], bundleId)| == 0 <==>
             forall m | 0 <= m < |cases| - 1 :: cases[1..][m].bundleId != bundleId
    requires |EntriesFor(cases[1..], bundleId)| == 1 ==>
             OnlyEntry(cases[1..], bundleId, EntriesFor(cases[1..], bundleId)[0])
    ensures |EntriesFor(cases, bundleId)| == 0 <==> forall m | 0 <= m < |cases| :: cases[m].bundleId != bundleId
    ensures |EntriesFor(cases, bundleId)| == 1 ==> OnlyEntry(cases, bundleId, EntriesFor(cases, bundleId)[0])
  {
    EntryZero(cases, bundleId);
    hide OnlyEntry;
    if |EntriesFor(cases, bundleId)| == 1 && cases[0].bundleId != bundleId {
      EntryShift(cases, bundleId, EntriesFor(cases[1..], bundleId)[0]);
    } else if |EntriesFor(cases, bundleId)| == 1 {
      EntryHead(cases, bundleId);
    }
  }

  lemma EntryZero(cases: seq<AffectedCase>, bundleId: string)
    requires cases != []
    ensures (forall m | 0 <= m < |cases| :: cases[m].bundleId != bundleId) <==>
            cases[0].bundleId != bundleId && forall m | 0 <= m < |cases| - 1 :: cases[1..][m].bundleId != bundleId
  {
    assert forall m | 0 <= m < |cases| - 1 :: cases[1..][m] == cases[m + 1];
    assert forall m | 1 <= m < |cases| :: cases[m] == cases[1..][m - 1];
  }

  lemma EntryShift(cases: seq<AffectedCase>, bundleId: string, entry: AffectedCase)
    requires cases != [] && cases[0].bundleId != bundleId && OnlyEntry(cases[1..], bundleId, entry)
    ensures OnlyEntry(cases, bundleId, entry)
  {
    var tail := cases[1..];
    var k :| 0 <= k < |tail| && tail[k] == entry && entry.bundleId == bundleId &&
             forall m | 0 <= m < |tail| && m != k :: tail[m].bundleId != bundleId;
    assert cases[k + 1] == entry;
    assert forall m | 1 <= m < |cases| :: cases[m] == tail[m - 1];
  }

  lemma EntryHead(cases: seq<AffectedCase>, bundleId: string)
    requires cases != [] && cases[0].bundleId == bundleId
    requires forall m | 0 <= m < |cases| - 1 :: cases[1..][m].bundleId != bundleId
    ensures OnlyEntry(cases, bundleId, cases[0])
  {
    assert forall m | 1 <= m < |cases| :: cases[m] == cases[1..][m - 1];
  }

  lemma OnlyTail(cases: seq<AffectedCase>, bundleId: string, entry: AffectedCase)
    requires cases != [] && OnlyEntry(cases, bundleId, entry)
    ensures if cases[0].bundleId == bundleId
            then cases[0] == entry && forall m | 0 <= m < |cases| - 1 :: cases[1..][m].bundleId != bundleId
            else OnlyEntry(cases[1..], bundleId, entry)
  {
    var k :| 0 <= k < |cases| && cases[k] == entry && entry.bundleId == bundleId &&
             forall m | 0 <= m < |cases| && m != k :: cases[m].bundleId != bundleId;
    if k > 0 {
      assert cases[1..][k - 1] == entry;
    }
  }

  lemma {:induction false} AdjustedFirst(items: seq<ConfirmedItem>, id: string)
    ensures AdjustedById(items, id).None? ==> forall m | 0 <= m < |items| :: items[m].id != id
    ensures AdjustedById(items, id).Some? ==>
            exists k :: 0 <= k < |items| && items[k].id == id && (forall m | 0 <= m < k :: items[m].id != id) &&
                        items[k].adjustedAmount == AdjustedById(items, id).value
  {
    if items != [] && items[0].id != id {
      AdjustedFirst(items[1..], id);
      assert forall m | 1 <= m < |items| :: items[m] == items[1..][m - 1];
      if AdjustedById(items, id).Some? {
        var k :| 0 <= k < |items| - 1 && items[1..][k].id == id && (forall m | 0 <= m < k :: items[1..][m].id != id) &&
                 items[1..][k].adjustedAmount == AdjustedById(items[1..], id).value;
        assert items[k + 1].id == id;
      }
    }
  }

  lemma AmountsAre(facts: ConfirmedFacts, ids: seq<string>)
    ensures PairAmount(facts, ids).Ok? ==> AmountsTo(facts.items, ids, PairAmount(facts, ids).value)
    ensures forall amount | AmountsTo(facts.items, ids, amount) :: PairAmount(facts, ids) == Ok(amount)
  {
    hide Sum;
    forall id | id in ids
      ensures ItemAmountFound(facts.items, id) <==>
              exists k :: 0 <= k < |facts.items| && facts.items[k].id == id &&
                          (forall m | 0 <= m < k :: facts.items[m].id != id) &&
                          0 <= facts.items[k].adjustedAmount <= MAX_SAFE &&
                          AmountOfItem(facts.items)(id) == facts.items[k].adjustedAmount
    {
      AdjustedFirst(facts.items, id);
    }
  }

  /** The actor may correct the amounts: the one who registered the receipt or the group's owner, with a reason. */
  ghost predicate MayCorrect(e: GroupExpense, c: FinancialChange) {
    && Nonempty(c.actorSubject) && Nonempty(c.currentOwnerSubject) && Nonempty(c.reason)
    && (c.actorSubject == e.facts.sourceOwnerSubject || c.actorSubject == c.currentOwnerSubject)
  }

  /** Both sides are the same bundle of the same receipt, group, day and person as the expense. */
  ghost predicate SameBundle(e: GroupExpense, c: FinancialChange, b: Bundle, b': Bundle) {
    && c.before.id == c.after.id && b.id == b'.id && b.itemIds == b'.itemIds
    && c.before.uploaderSubject == e.facts.sourceOwnerSubject && c.after.uploaderSubject == e.facts.sourceOwnerSubject
    && c.groupId == e.facts.groupId && b.groupId == c.groupId && b'.groupId == c.groupId
    && c.before.occurredOn == e.facts.occurredOn && c.after.occurredOn == e.facts.occurredOn
  }

  /** An item correction changes the original amount of its item, an adjustment correction only its adjustment. */
  ghost predicate ChangesOnlyThat(c: FinancialChange) {
    match c.correction
    case ItemAmount(itemId) =>
      OriginalById(c.before.items, itemId).Some? && OriginalById(c.after.items, itemId).Some? &&
      OriginalById(c.before.items, itemId) != OriginalById(c.after.items, itemId)
    case AdjustmentAmount(index) =>
      && 0 <= index < |c.before.adjustments| && |c.after.adjustments| == |c.before.adjustments|
      && c.after.adjustments[index].amount != c.before.adjustments[index].amount
      && (forall n | 0 <= n < |c.before.adjustments| ::
            c.after.adjustments[n] == c.before.adjustments[n].(amount := c.after.adjustments[n].amount))
      && (forall n | 0 <= n < |c.before.adjustments| && n != index ::
            c.after.adjustments[n].amount == c.before.adjustments[n].amount)
      && |c.before.items| == |c.after.items|
      && forall n | 0 <= n < |c.before.items| ::
           c.after.items[n] == c.before.items[n].(adjustedAmount := c.after.items[n].adjustedAmount)
  }

  /** The expense may follow the correction of its bundle `b`, whose new amount is `amount`. */
  ghost predicate MayFollow(e: GroupExpense, version: int, receiptVersion: int, c: FinancialChange, b: Bundle,
                            b': Bundle, amount: int, entry: AffectedCase)
  {
    && -MAX_SAFE <= version && version == e.version && e.version + 1 <= MAX_SAFE
    && 1 <= c.previousVersion && receiptVersion == c.previousVersion && c.version == c.previousVersion + 1 <= MAX_SAFE
    && PairedFirst(c.before.bundles, e.facts.id, b) && PairedFirst(c.after.bundles, e.facts.id, b')
    && SameBundle(e, c, b, b') && AmountsTo(c.before.items, b.itemIds, e.facts.total)
    && AmountsTo(c.after.items, b'.itemIds, amount) && MayCorrect(e, c) && ChangesOnlyThat(c)
    && OnlyEntry(c.affected, b.id, entry)
    && CaseFits(e, exists s :: s in c.before.selections && s.bundleId == b.id, entry)
  }

  /** The expense with its total refigured to the amount and the correction noted where its kind is noted. */
  ghost predicate FollowedTo(e: GroupExpense, c: FinancialChange, b: Bundle, amount: int, entry: AffectedCase,
                             e': GroupExpense)
  {
    && Refigured(e.facts, amount, e'.facts)
    && var note := FinancialRecord(c.correction, c.actorSubject, c.at, c.reason, c.before.id, b.id, c.previousVersion,
                                   c.version, e.version, e.version + 1, entry.caseFact, e.facts, e'.facts);
       match c.correction
       case ItemAmount(_) =>
         e' == e.(facts := e'.facts, version := e.version + 1, itemCorrections := e.itemCorrections + [note])
       case AdjustmentAmount(_) =>
         e' == e.(facts := e'.facts, version := e.version + 1,
                  adjustmentCorrections := e.adjustmentCorrections + [note])
  }

  lemma PartsOfCheck(e: GroupExpense, c: FinancialChange, selected: bool, entry: AffectedCase)
    ensures FinancialActorCheck(e, c).Pass? <==> MayCorrect(e, c)
    ensures CorrectionPlausible(c) <==> ChangesOnlyThat(c)
    ensures CaseEntryCheck(e, selected, entry).Pass? <==> CaseFits(e, selected, entry)
  {
    ActorIs(e, c);
    OnlyThatIs(c);
    hide FinancialActorCheck, MayCorrect, CorrectionPlausible, ChangesOnlyThat, CanonicalUuid;
  }

  lemma ActorIs(e: GroupExpense, c: FinancialChange)
    ensures FinancialActorCheck(e, c).Pass? <==> MayCorrect(e, c)
  {
    hide Nonempty;
  }

  lemma OnlyThatIs(c: FinancialChange)
    ensures CorrectionPlausible(c) <==> ChangesOnlyThat(c)
  {
    if c.correction.AdjustmentAmount? {
      OnlyCorrectedIs(c.before.adjustments, c.after.adjustments, c.correction.index);
      OriginalsIs(c.before.items, c.after.items);
      hide OnlyCorrected, SameOriginals;
    } else {
      hide OriginalById;
    }
  }

  lemma OnlyCorrectedIs(xs: seq<Adjustment>, ys: seq<Adjustment>, index: int)
    ensures OnlyCorrected(xs, ys, index) <==>
            0 <= index < |xs| && |ys| == |xs| && ys[index].amount != xs[index].amount &&
            (forall n | 0 <= n < |xs| :: ys[n] == xs[n].(amount := ys[n].amount)) &&
            forall n | 0 <= n < |xs| && n != index :: ys[n].amount == xs[n].amount
  {
  }

  lemma OriginalsIs(xs: seq<ConfirmedItem>, ys: seq<ConfirmedItem>)
    ensures SameOriginals(xs, ys) <==>
            |xs| == |ys| && forall n | 0 <= n < |xs| :: ys[n] == xs[n].(adjustedAmount := ys[n].adjustedAmount)
  {
  }

  lemma CheckIs(e: GroupExpense, version: int, receiptVersion: int, c: FinancialChange, b: Bundle, amount: int,
                entry: AffectedCase)
    ensures var o, o' := PairOf(c.before.bundles, e.facts.id), PairOf(c.after.bundles, e.facts.id);
            FinancialCheck(e, version, receiptVersion, c) == Ok((b, amount, entry)) <==>
            -MAX_SAFE <= version && version == e.version && e.version + 1 <= MAX_SAFE &&
            1 <= c.previousVersion && receiptVersion == c.previousVersion &&
            c.version == c.previousVersion + 1 <= MAX_SAFE &&
            o.Some? && o'.Some? && b == c.before.bundles[o.value] && SamePair(e, c, b, c.after.bundles[o'.value]) &&
            PairAmount(c.before, b.itemIds) == Ok(e.facts.total) &&
            PairAmount(c.after, c.after.bundles[o'.value].itemIds) == Ok(amount) &&
            FinancialActorCheck(e, c).Pass? && CorrectionPlausible(c) && EntriesFor(c.affected, b.id) == [entry] &&
            CaseEntryCheck(e, SelectedBundle(c.before, b.id), entry).Pass?
  {
    hide PairOf, SamePair, PairAmount, FinancialActorCheck, CorrectionPlausible, EntriesFor, CaseEntryCheck,
         SelectedBundle;
  }

  lemma MayFollowSays(e: GroupExpense, version: int, receiptVersion: int, c: FinancialChange, b: Bundle, b': Bundle,
                      amount: int, entry: AffectedCase)
    ensures MayFollow(e, version, receiptVersion, c, b, b', amount, entry) <==>
            -MAX_SAFE <= version && version == e.version && e.version + 1 <= MAX_SAFE &&
            1 <= c.previousVersion && receiptVersion == c.previousVersion &&
            c.version == c.previousVersion + 1 <= MAX_SAFE &&
            PairedFirst(c.before.bundles, e.facts.id, b) && PairedFirst(c.after.bundles, e.facts.id, b') &&
            SamePair(e, c, b, b') && AmountsTo(c.before.items, b.itemIds, e.facts.total) &&
            AmountsTo(c.after.items, b'.itemIds, amount) && MayCorrect(e, c) && ChangesOnlyThat(c) &&
            OnlyEntry(c.affected, b.id, entry) && CaseFits(e, SelectedBundle(c.before, b.id), entry)
  {
    hide PairedFirst, AmountsTo, MayCorrect, ChangesOnlyThat, OnlyEntry, CaseFits;
  }

  /** A correction passes an expense's checks exactly when its parts do, each said of the lists themselves. */
  lemma CheckFollows(e: GroupExpense, version: int, receiptVersion: int, c: FinancialChange, b: Bundle, b': Bundle,
                     amount: int, entry: AffectedCase)
    ensures MayFollow(e, version, receiptVersion, c, b, b', amount, entry) ==>
            FinancialCheck(e, version, receiptVersion, c) == Ok((b, amount, entry))
    ensures FinancialCheck(e, version, receiptVersion, c) == Ok((b, amount, entry)) ==>
            PairOf(c.after.bundles, e.facts.id).Some? &&
            MayFollow(e, version, receiptVersion, c, b, c.after.bundles[PairOf(c.after.bundles, e.facts.id).value],
                      amount, entry)
  {
    hide *;
    var o' := PairOf(c.after.bundles, e.facts.id);
    PairFound(c.before.bundles, e.facts.id);
    PairFound(c.after.bundles, e.facts.id);
    CheckIs(e, version, receiptVersion, c, b, amount, entry);
    PartsOfCheck(e, c, SelectedBundle(c.before, b.id), entry);
    AmountsAre(c.before, b.itemIds);
    AmountsAre(c.after, b'.itemIds);
    EntryIs(c.affected, b.id);
    MayFollowSays(e, version, receiptVersion, c, b, b', amount, entry);
    if o'.Some? {
      AmountsAre(c.after, c.after.bundles[o'.value].itemIds);
      MayFollowSays(e, version, receiptVersion, c, b, c.after.bundles[o'.value], amount, entry);
    }
  }

  lemma FinancialIs(e: GroupExpense, version: int, receiptVersion: int, c: FinancialChange)
    ensures var r, checked := ReflectFinancial(e, version, receiptVersion, c),
                              FinancialCheck(e, version, receiptVersion, c);
            && (r.Ok? <==> checked.Ok? && Refigure(e, checked.value.1).Ok?)
            && (r.Ok? ==>
                  var (b, amount, entry) := checked.value;
                  var f := Refigure(e, amount).value;
                  Refigured(e.facts, amount, e.facts.(total := f.total, allocations := f.allocations)) ==>
                    FollowedTo(e, c, b, amount, entry, r.value))
  {
    hide Register, RegistrationOf, FinancialCheck, Refigured;
  }

  lemma NoNegativeSum(items: seq<ConfirmedItem>, ids: seq<string>, amount: int)
    requires AmountsTo(items, ids, amount)
    ensures 0 <= amount <= MAX_SAFE
  {
    forall id | id in ids ensures AmountOfItem(items)(id) >= 0 {
    }
    SumNotNegative(ids, AmountOfItem(items));
  }

  lemma {:induction false} SumNotNegative(ids: seq<string>, f: string -> int)
    requires forall id | id in ids :: f(id) >= 0
    ensures Sum(ids, f) >= 0
  {
    if ids != [] {
      SumNotNegative(ids[1..], f);
    }
  }

  /**
   * A genuine expense follows a correction exactly when the correction is about it and its bundle alone, and then bears
   * the bundle's new amount and notes the correction.
   */
  lemma FinancialExact(e: GroupExpense, version: int, receiptVersion: int, c: FinancialChange)
    requires ExpenseGenuine(e)
    ensures ReflectFinancial(e, version, receiptVersion, c).Ok? <==>
            exists b, b', amount, entry :: MayFollow(e, version, receiptVersion, c, b, b', amount, entry)
    ensures ReflectFinancial(e, version, receiptVersion, c).Ok? ==>
            forall b, b', amount, entry | MayFollow(e, version, receiptVersion, c, b, b', amount, entry) ::
              FollowedTo(e, c, b, amount, entry, ReflectFinancial(e, version, receiptVersion, c).value)
  {
    hide *;
    var r, checked := ReflectFinancial(e, version, receiptVersion, c), FinancialCheck(e, version, receiptVersion, c);
    FinancialIs(e, version, receiptVersion, c);
    if checked.Ok? {
      var (b, amount, entry) := checked.value;
      RefigureExact(e, amount);
      CheckFollows(e, version, receiptVersion, c, b, b, amount, entry);
    }
    forall b, b', amount, entry | MayFollow(e, version, receiptVersion, c, b, b', amount, entry)
      ensures r.Ok? && FollowedTo(e, c, b, amount, entry, r.value)
    {
      CheckFollows(e, version, receiptVersion, c, b, b', amount, entry);
      MayFollowSays(e, version, receiptVersion, c, b, b', amount, entry);
      NoNegativeSum(c.after.items, b'.itemIds, amount);
      RefigureExact(e, amount);
    }
  }
}
