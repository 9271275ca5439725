/** Every operation keeps the receipt sound; what a lock and a footprint guarantee over whole runs. */
module ReceiptSteps {
  import opened Outcomes
  import opened Sequences
  import opened Text
  import opened ReceiptAdjustments
  import opened GroupExpenses
  import opened ExpenseRoot
  import opened ReceiptRoot
  import opened ReceiptInvariants

  /** Expenses reach the receipt only through registration. */
  ghost predicate ExpenseGenuine(e: GroupExpense) {
    Register(RegistrationOf(e.facts)) == Ok(e.facts)
  }

  ghost predicate Supplied(op: Operation) {
    op.OpRegisterBundle? ==> ExpenseGenuine(op.expense)
  }

  lemma ExpenseRefersTo(e: GroupExpense)
    requires ExpenseGenuine(e)
    ensures Nonempty(e.facts.id) && Nonempty(e.facts.groupId) && CanonicalUuid(e.facts.groupId)
  {
    var r := RegistrationOf(e.facts);
    assert RegistrationCheck(r).Pass?;
    hide Register, Allocations, CalendarDay, ParticipantsCheck;
    assert CanonicalUuid(r.groupId);
    assert LowerHex(r.groupId[0]) && !Blank(r.groupId[0]);
  }

  // ---- what an accepted operation amounts to ----

  lemma RegisterAccepted(r: Receipt, v: int, a: string, at: Clock, b: string, ids: seq<string>, e: GroupExpense)
    requires RegisterBundle(r, v, a, at, b, ids, e).Ok?
    ensures r.current.Confirmed? && at.Some? && v == r.version && SafeInteger(r.version + 1)
    ensures var f := r.current.facts;
            && a == f.uploaderSubject
            && FindBundle(f.bundles, b).None? && Nonempty(b) && ItemIdsWellFormed(ids) &&
               |Filter(f.items, Among(ids))| == |ids|
            && !Assigned(f.bundles, ids) && !PairedExpense(f.bundles, e.facts.id)
            && e.version == 1 && e.corrections == []
            && e.facts.sourceOwnerSubject == f.uploaderSubject && e.facts.occurredOn == f.occurredOn
            && e.facts.total == Sum(Filter(f.items, Among(ids)), ConfirmedAmountOf)
            && (f.bundles == [] || f.bundles[0].groupId == e.facts.groupId)
            && RegisterBundle(r, v, a, at, b, ids, e).value ==
               Advance(r, Confirmed(f.(bundles := f.bundles + [Bundle(b, ids, e.facts.id, e.facts.groupId)])),
                       BundleRegistered, a, at.value)
  {
    hide Nonempty, FindBundle, ItemIdsWellFormed, Assigned, PairedExpense, Advance;
  }

  lemma MoveAccepted(r: Receipt, v: int, a: string, at: Clock, from: string, to: string, ids: seq<string>)
    returns (i: nat, j: nat)
    requires MoveBundleItems(r, v, a, at, from, to, ids).Ok?
    ensures r.current.Confirmed? && at.Some? && i < |r.current.facts.bundles| && j < |r.current.facts.bundles| && i != j
    ensures EditableBundle(r, v, a, from) == Ok(i) && EditableBundle(r, v, a, to) == Ok(j)
    ensures var f := r.current.facts;
            && f.bundles[i].id == from && f.bundles[j].id == to && SafeInteger(r.version + 1)
            && ItemIdsWellFormed(ids) && (forall id | id in ids :: id in f.bundles[i].itemIds) &&
               |ids| < |f.bundles[i].itemIds|
            && MoveBundleItems(r, v, a, at, from, to, ids).value ==
               Advance(r, Confirmed(Moved(f, i, j, ids)), BundleItemsMoved(from, to, InReceiptOrder(f.items, ids)), a,
                       at.value)
  {
    hide EditableBundle, Moved, Advance, InReceiptOrder, ItemIdsWellFormed, Nonempty;
    i, j := EditableBundle(r, v, a, from).value, EditableBundle(r, v, a, to).value;
  }

  lemma EditableMeans(r: Receipt, v: int, a: string, b: string)
    requires EditableBundle(r, v, a, b).Ok?
    ensures r.current.Confirmed? && v == r.version && SafeInteger(r.version) && a == r.current.facts.uploaderSubject
    ensures Nonempty(a) && Nonempty(b) && !SelectedBundle(r.current.facts, b)
    ensures FindBundle(r.current.facts.bundles, b) == Some(EditableBundle(r, v, a, b).value)
  {
    hide Nonempty, FindBundle, SelectedBundle;
  }

  lemma SelectAccepted(r: Receipt, v: int, s: Selection, at: Clock)
    requires RecordSelection(r, v, s, at).Ok? && RecordSelection(r, v, s, at).value != r
    ensures r.current.Confirmed? && at.Some?
    ensures var f, fixed := r.current.facts, s.(selectedAt := at.value);
            && FindBundle(f.bundles, s.bundleId).Some? && SelectionOf(f.selections, s.bundleId).None?
            && var b := f.bundles[FindBundle(f.bundles, s.bundleId).value];
            && b.expenseId == s.expenseId && b.groupId == s.groupId
            && RecordSelection(r, v, s, at).value ==
               Advance(r, Confirmed(f.(selections := f.selections + [fixed])), BundleSnapshotSelected, s.actorSubject,
                       at.value)
  {
    hide FindBundle, SelectionOf, Nonempty, CanonicalUuid, Advance;
  }

  lemma CategoryAccepted(r: Receipt, v: int, a: string, o: string, at: Clock, g: string, i: string, c: string,
                         cv: Option<int>, fact: Option<CaseFact>)
    returns (k: nat, b: Bundle)
    requires CorrectItemCategory(r, v, a, o, at, g, i, c, cv, fact).Ok?
    requires CorrectItemCategory(r, v, a, o, at, g, i, c, cv, fact).value != r
    ensures r.current.Confirmed? && at.Some? && k < |r.current.facts.items|
    ensures var f := r.current.facts;
            && f.items[k].id == i && b in f.bundles && i in b.itemIds
            && CorrectionCaseCheck(f, b, cv, fact, ItemCategoryNotCorrectable).Pass?
            && CorrectItemCategory(r, v, a, o, at, g, i, c, cv, fact).value ==
               Advance(r, Confirmed(f.(items := f.items[k := f.items[k].(categoryId := c)])),
                       ItemCategoryCorrected(i, fact), a, at.value)
  {
    hide FindItem, BundleHolding, Nonempty, CorrectionCaseCheck, Advance;
    var f := r.current.facts;
    k := FindItem(f.items, i).value;
    b := f.bundles[BundleHolding(f.bundles, i).value];
  }

  lemma ItemAmountAccepted(r: Receipt, v: int, a: string, o: string, at: Clock, reason: string, i: string, n: int,
                           input: FinancialInput)
    returns (k: nat)
    requires CorrectItemAmount(r, v, a, o, at, reason, i, n, input).Ok?
    ensures r.current.Confirmed? && at.Some? && k < |r.current.facts.items| && v == r.version && SafeInteger(r.version)
    ensures Nonempty(a) && Nonempty(o) && Nonempty(reason) && (a == r.current.facts.uploaderSubject || a == o)
    ensures var f := r.current.facts;
            var candidate := FinancialCandidate(f, input, Inputs(f.items)[k := Item(i, n)], f.adjustments, {i},
                                                ItemAmountNotCorrectable);
            && FindItem(f.items, i) == Some(k) && candidate.Ok?
            && if f.items[k].originalAmount == n then CorrectItemAmount(r, v, a, o, at, reason, i, n, input).value == r
               else SafeInteger(r.version + 1) && CorrectItemAmount(r, v, a, o, at, reason, i, n, input).value ==
                    Advance(r, Confirmed(candidate.value.0),
                            FinancialCorrected(ItemAmount(i), o, input.groupId, reason, candidate.value.1), a, at.value)
  {
    hide FindItem, BundleHolding, Nonempty, FinancialCandidate, Advance;
    k := FindItem(r.current.facts.items, i).value;
  }

  lemma AdjustmentAmountAccepted(r: Receipt, v: int, a: string, o: string, at: Clock, reason: string, i: int, n: int,
                                 input: FinancialInput)
    requires CorrectAdjustmentAmount(r, v, a, o, at, reason, i, n, input).Ok?
    ensures r.current.Confirmed? && at.Some? && 0 <= i < |r.current.facts.adjustments| && v == r.version &&
            SafeInteger(r.version)
    ensures Nonempty(a) && Nonempty(o) && Nonempty(reason) && (a == r.current.facts.uploaderSubject || a == o)
    ensures var f := r.current.facts;
            var same := f.adjustments[i].amount == n;
            var candidate := FinancialCandidate(f, input, Inputs(f.items),
                                                f.adjustments[i := f.adjustments[i].(amount := n)],
                                                Footprint(f, i, same), AdjustmentAmountNotCorrectable);
            && candidate.Ok?
            && if same then CorrectAdjustmentAmount(r, v, a, o, at, reason, i, n, input).value == r
               else SafeInteger(r.version + 1) && CorrectAdjustmentAmount(r, v, a, o, at, reason, i, n, input).value ==
                    Advance(r, Confirmed(candidate.value.0),
                            FinancialCorrected(AdjustmentAmount(i), o, input.groupId, reason, candidate.value.1), a,
                            at.value)
  {
    hide Nonempty, FinancialCandidate, Advance, Footprint;
  }

  /** What an accepted financial candidate is made of. */
  lemma CandidateMeans(f: ConfirmedFacts, input: FinancialInput, items: seq<Item>, adjustments: seq<Adjustment>,
                       included: set<string>, e: ReceiptError)
    requires |items| == |f.items| && FinancialCandidate(f, input, items, adjustments, included, e).Ok?
    ensures Calculate(items, adjustments).Ok?
    ensures var c := Calculate(items, adjustments).value;
            var candidate := FinancialCandidate(f, input, items, adjustments, included, e).value;
            var affected := AffectedBundles(f, c, included, f.bundles);
            && 0 <= input.declaredTotal <= MAX_SAFE && Sum(c.items, AdjustedAmountOf) == input.declaredTotal
            && candidate.0 == f.(declaredTotal := input.declaredTotal, adjustments := adjustments,
                                 items := Recalculated(f.items, c.items), allocations := c.allocations)
            && candidate.1 == InBundleOrder(affected, input.cases)
            && CoversAffected(input.cases, affected) && AffectedCheck(f, affected, input.groupId, input.cases, e).Pass?
  {
    hide Calculate, AffectedBundles, CoversAffected, AffectedCheck, InBundleOrder, Recalculated;
  }

  // ---- every operation keeps the receipt sound ----

  lemma ConfirmSound(r: Receipt, v: int, a: string, at: Clock, day: string, total: int, items: seq<CandidateItem>,
                     adjustments: seq<Adjustment>)
    requires ReceiptSound(r) && Confirm(r, v, a, at, day, total, items, adjustments).Ok?
    ensures ReceiptSound(Confirm(r, v, a, at, day, total, items, adjustments).value)
  {
    hide HistorySound, CalendarDay, Nonempty, Calculate, ReviewedCheck;
    var r' := Confirm(r, v, a, at, day, total, items, adjustments).value;
    var f := r'.current.facts;
    AdvanceSound(r, r'.current, Confirmation, a, at.value);
    ConfirmedSound(items, adjustments, f);
    hide AmountsSound, Advance, Confirm;
  }

  lemma RegisterSound(r: Receipt, v: int, a: string, at: Clock, b: string, ids: seq<string>, e: GroupExpense)
    requires ReceiptSound(r) && ExpenseGenuine(e) && RegisterBundle(r, v, a, at, b, ids, e).Ok?
    ensures ReceiptSound(RegisterBundle(r, v, a, at, b, ids, e).value)
  {
    hide RegisterBundle, HistorySound, CalendarDay, Nonempty, ExpenseGenuine;
    RegisterAccepted(r, v, a, at, b, ids, e);
    var f := r.current.facts;
    assert DistinctBy(f.items, ConfirmedIdOf);
    hide AmountsSound;
    AllFound(f.items, ids);
    ExpenseRefersTo(e);
    var bundle := Bundle(b, ids, e.facts.id, e.facts.groupId);
    forall i, j | 0 <= i < j < |ids| ensures Itself(ids[i]) != Itself(ids[j]) {
    }
    assert BundleSound(ItemIds(f.items), bundle);
    BundleAdded(ItemIds(f.items), f.bundles, bundle);
    SelectionsCarry(f.bundles, f.bundles + [bundle], f.selections);
    hide BundlesSound, SelectionsSound;
    AdvanceSound(r, Confirmed(f.(bundles := f.bundles + [bundle])), BundleRegistered, a, at.value);
    hide FindBundle, ItemIdsWellFormed, Assigned, PairedExpense;
    var f' := f.(bundles := f.bundles + [bundle]);
    assert AmountsSound(f') by { AmountsCarry(f, f'); }
  }

  lemma AmountsCarry(f: ConfirmedFacts, f': ConfirmedFacts)
    requires AmountsSound(f) && f'.adjustments == f.adjustments && f'.allocations == f.allocations &&
             f'.declaredTotal == f.declaredTotal
    requires |f'.items| == |f.items| && forall k | 0 <= k < |f.items| ::
             f'.items[k] == f.items[k].(categoryId := f'.items[k].categoryId)
    ensures AmountsSound(f')
  {
    assert Inputs(f'.items) == Inputs(f.items);
    SumsAlike(f'.items, f.items, ConfirmedAmountOf, ConfirmedAmountOf);
    IdsCarry(f.items, f'.items);
    hide Calculate, DistinctBy, Sum, Inputs;
    forall i | i in f'.items ensures 0 <= i.adjustedAmount <= MAX_SAFE {
      var k :| 0 <= k < |f'.items| && f'.items[k] == i;
      assert f.items[k] in f.items;
    }
  }

  lemma IdsCarry(items: seq<ConfirmedItem>, items': seq<ConfirmedItem>)
    requires |items'| == |items| && forall k | 0 <= k < |items| :: items'[k].id == items[k].id
    requires DistinctBy(items, ConfirmedIdOf)
    ensures DistinctBy(items', ConfirmedIdOf)
  {
    forall i, j | 0 <= i < j < |items| ensures ConfirmedIdOf(items'[i]) != ConfirmedIdOf(items'[j]) {
      assert ConfirmedIdOf(items[i]) != ConfirmedIdOf(items[j]);
    }
  }

  lemma MoveSound(r: Receipt, v: int, a: string, at: Clock, from: string, to: string, ids: seq<string>)
    requires ReceiptSound(r) && MoveBundleItems(r, v, a, at, from, to, ids).Ok?
    ensures ReceiptSound(MoveBundleItems(r, v, a, at, from, to, ids).value)
  {
    hide MoveBundleItems, HistorySound, CalendarDay, Nonempty, BundlesSound, SelectionsSound, EditableBundle;
    var i, j := MoveAccepted(r, v, a, at, from, to, ids);
    var f := r.current.facts;
    assert DistinctBy(f.items, ConfirmedIdOf);
    hide AmountsSound;
    MovedBundlesSound(f, i, j, ids);
    hide InReceiptOrder, Remaining;
    var f' := Moved(f, i, j, ids);
    SelectionsCarry(f.bundles, f'.bundles, f.selections);
    AmountsCarry(f, f');
    hide Moved, MovedIds, ItemIdsWellFormed;
    AdvanceSound(r, Confirmed(f'), BundleItemsMoved(from, to, InReceiptOrder(f.items, ids)), a, at.value);
  }

  lemma SelectSound(r: Receipt, v: int, s: Selection, at: Clock)
    requires ReceiptSound(r) && RecordSelection(r, v, s, at).Ok?
    ensures ReceiptSound(RecordSelection(r, v, s, at).value)
  {
    hide RecordSelection, HistorySound, CalendarDay, Nonempty, BundlesSound, AmountsSound;
    if RecordSelection(r, v, s, at).value != r {
      SelectAccepted(r, v, s, at);
      var f, fixed := r.current.facts, s.(selectedAt := at.value);
      var f' := f.(selections := f.selections + [fixed]);
      DistinctSnoc(f.selections, fixed, SelectedIdOf);
      assert Paired(f.bundles, fixed);
      assert SelectionsSound(f.bundles, f'.selections);
      AmountsCarry(f, f');
      hide SelectionsSound;
      AdvanceSound(r, Confirmed(f'), BundleSnapshotSelected, s.actorSubject, at.value);
    }
  }

  lemma CategorySound(r: Receipt, v: int, a: string, o: string, at: Clock, g: string, i: string, c: string,
                      cv: Option<int>, fact: Option<CaseFact>)
    requires ReceiptSound(r) && CorrectItemCategory(r, v, a, o, at, g, i, c, cv, fact).Ok?
    ensures ReceiptSound(CorrectItemCategory(r, v, a, o, at, g, i, c, cv, fact).value)
  {
    hide CorrectItemCategory, HistorySound, CalendarDay, Nonempty, BundlesSound, AmountsSound, SelectionsSound,
         CorrectionCaseCheck;
    if CorrectItemCategory(r, v, a, o, at, g, i, c, cv, fact).value != r {
      var k, b := CategoryAccepted(r, v, a, o, at, g, i, c, cv, fact);
      var f := r.current.facts;
      var f' := f.(items := f.items[k := f.items[k].(categoryId := c)]);
      AmountsCarry(f, f');
      SameIds(f.items, f'.items);
      AdvanceSound(r, Confirmed(f'), ItemCategoryCorrected(i, fact), a, at.value);
    }
  }

  /** A financial candidate of a sound receipt is sound: same bundles and selections over recalculated items. */
  lemma CandidateSound(f: ConfirmedFacts, input: FinancialInput, items: seq<Item>, adjustments: seq<Adjustment>,
                       included: set<string>, e: ReceiptError)
    requires FactsSound(f) && |items| == |f.items| && FinancialCandidate(f, input, items, adjustments, included, e).Ok?
    requires forall k | 0 <= k < |items| :: items[k].id == f.items[k].id
    ensures FactsSound(FinancialCandidate(f, input, items, adjustments, included, e).value.0)
  {
    hide Calculate, FinancialCandidate, CalendarDay, Nonempty, BundlesSound, SelectionsSound, AmountsSound,
         AffectedBundles, CoversAffected, AffectedCheck, InBundleOrder;
    CandidateMeans(f, input, items, adjustments, included, e);
    RecalculatedSound(f, items, adjustments, input.declaredTotal,
                      FinancialCandidate(f, input, items, adjustments, included, e).value.0);
  }

  lemma ItemAmountSound(r: Receipt, v: int, a: string, o: string, at: Clock, reason: string, i: string, n: int,
                        input: FinancialInput)
    requires ReceiptSound(r) && CorrectItemAmount(r, v, a, o, at, reason, i, n, input).Ok?
    ensures ReceiptSound(CorrectItemAmount(r, v, a, o, at, reason, i, n, input).value)
  {
    hide CorrectItemAmount, HistorySound, FactsSound, Nonempty, FinancialCandidate;
    var k := ItemAmountAccepted(r, v, a, o, at, reason, i, n, input);
    var f := r.current.facts;
    CandidateSound(f, input, Inputs(f.items)[k := Item(i, n)], f.adjustments, {i}, ItemAmountNotCorrectable);
    var candidate := FinancialCandidate(f, input, Inputs(f.items)[k := Item(i, n)], f.adjustments, {i},
                                        ItemAmountNotCorrectable).value;
    AdvanceSound(r, Confirmed(candidate.0), FinancialCorrected(ItemAmount(i), o, input.groupId, reason, candidate.1),
                 a, at.value);
  }

  lemma AdjustmentAmountSound(r: Receipt, v: int, a: string, o: string, at: Clock, reason: string, i: int, n: int,
                              input: FinancialInput)
    requires ReceiptSound(r) && CorrectAdjustmentAmount(r, v, a, o, at, reason, i, n, input).Ok?
    ensures ReceiptSound(CorrectAdjustmentAmount(r, v, a, o, at, reason, i, n, input).value)
  {
    hide CorrectAdjustmentAmount, HistorySound, FactsSound, Nonempty, FinancialCandidate;
    AdjustmentAmountAccepted(r, v, a, o, at, reason, i, n, input);
    var f := r.current.facts;
    var adjustments, included := f.adjustments[i := f.adjustments[i].(amount := n)],
      Footprint(f, i, f.adjustments[i].amount == n);
    CandidateSound(f, input, Inputs(f.items), adjustments, included, AdjustmentAmountNotCorrectable);
    var candidate := FinancialCandidate(f, input, Inputs(f.items), adjustments, included,
                                        AdjustmentAmountNotCorrectable).value;
    AdvanceSound(r, Confirmed(candidate.0),
                 FinancialCorrected(AdjustmentAmount(i), o, input.groupId, reason, candidate.1), a, at.value);
  }

  lemma EditSound(r: Receipt, v: int, a: string, at: Clock, day: Option<string>, total: int, items: seq<CandidateItem>,
                  adjustments: seq<Adjustment>)
    requires ReceiptSound(r) && EditDraft(r, v, a, at, day, total, items, adjustments).Ok?
    ensures ReceiptSound(EditDraft(r, v, a, at, day, total, items, adjustments).value)
  {
    hide HistorySound, Nonempty, FactsSound;
    AdvanceSound(r, EditDraft(r, v, a, at, day, total, items, adjustments).value.current, DraftEdited, a, at.value);
  }

  lemma StepSound(r: Receipt, op: Operation)
    requires ReceiptSound(r) && Supplied(op) && Apply(r, op).Ok?
    ensures ReceiptSound(Apply(r, op).value)
  {
    hide ReceiptSound, EditDraft, Confirm, RegisterBundle, MoveBundleItems, RecordSelection, CorrectItemCategory,
         CorrectItemAmount, CorrectAdjustmentAmount, ExpenseGenuine;
    match op
    case OpEditDraft(v, a, at, day, total, items, adjustments) =>
      EditSound(r, v, a, at, day, total, items, adjustments);
    case OpConfirm(v, a, at, day, total, items, adjustments) =>
      ConfirmSound(r, v, a, at, day, total, items, adjustments);
    case OpRegisterBundle(v, a, at, b, ids, e) => RegisterSound(r, v, a, at, b, ids, e);
    case OpMove(v, a, at, from, to, ids) => MoveSound(r, v, a, at, from, to, ids);
    case OpSelect(v, s, at) => SelectSound(r, v, s, at);
    case OpCategory(v, a, o, at, g, i, c, cv, f) => CategorySound(r, v, a, o, at, g, i, c, cv, f);
    case OpItemAmount(v, a, o, at, reason, i, n, input) => ItemAmountSound(r, v, a, o, at, reason, i, n, input);
    case OpAdjustmentAmount(v, a, o, at, reason, i, n, input) =>
      AdjustmentAmountSound(r, v, a, o, at, reason, i, n, input);
  }
}
