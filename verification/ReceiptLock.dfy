/** The permanent lock of a selected bundle and the footprint of a correction, over whole runs of a receipt. */
module ReceiptLock {
  import opened Outcomes
  import opened Sequences
  import opened Text
  import opened ReceiptAdjustments
  import opened GroupExpenses
  import opened ExpenseRoot
  import opened ReceiptRoot
  import opened ReceiptInvariants
  import opened ReceiptSteps

  // ---- runs ----

  /** A rejected operation leaves the receipt as it was. */
  function After(r: Receipt, op: Operation): Receipt {
    if Apply(r, op).Ok? then Apply(r, op).value else r
  }

  ghost predicate Run(rs: seq<Receipt>, ops: seq<Operation>) {
    |rs| == |ops| + 1 && forall k | 0 <= k < |ops| :: Supplied(ops[k]) && rs[k + 1] == After(rs[k], ops[k])
  }

  lemma AfterSound(r: Receipt, op: Operation)
    requires ReceiptSound(r) && Supplied(op)
    ensures ReceiptSound(After(r, op))
  {
    hide ReceiptSound, Supplied, Apply;
    if Apply(r, op).Ok? {
      StepSound(r, op);
    }
  }

  lemma {:induction false} RunSound(rs: seq<Receipt>, ops: seq<Operation>, k: nat)
    requires Run(rs, ops) && k <= |ops| && ReceiptSound(rs[0])
    ensures ReceiptSound(rs[k])
  {
    hide ReceiptSound, Supplied, After;
    if k > 0 {
      RunSound(rs, ops, k - 1);
      AfterSound(rs[k - 1], ops[k - 1]);
    }
  }

  ghost predicate Drafted(r: Receipt) {
    exists d: Draft :: CreateDraft(d) == Ok(r)
  }

  lemma DraftedSound(r: Receipt)
    requires Drafted(r)
    ensures ReceiptSound(r)
  {
    hide Nonempty, FactsSound;
    var d: Draft :| CreateDraft(d) == Ok(r);
  }

  /**
   * Every confirmed receipt a draft can lead to: distinct items, disjoint non-empty bundles of one group drawn from
   * them, different bundle and expense references, allocations of a fresh calculation, the declared total as adjusted
   * sum, and a history that chains, one version per record.
   */
  lemma ReachableSound(rs: seq<Receipt>, ops: seq<Operation>, k: nat)
    requires Run(rs, ops) && k <= |ops| && Drafted(rs[0])
    ensures ReceiptSound(rs[k])
  {
    hide ReceiptSound, Drafted, Supplied, After;
    DraftedSound(rs[0]);
    RunSound(rs, ops, k);
  }

  /** No bundle sum leaves the safe integers. */
  lemma BundleSumSafe(f: ConfirmedFacts, b: Bundle)
    requires FactsSound(f)
    ensures 0 <= BundleAmount(f, b) <= f.declaredTotal <= MAX_SAFE
  {
    hide BundlesSound, SelectionsSound, CalendarDay, Calculate;
    assert forall i | i in f.items :: 0 <= i.adjustedAmount;
    hide FactsSound;
    PartBounded(f.items, b.itemIds);
  }

  lemma {:induction false} PartBounded(items: seq<ConfirmedItem>, ids: seq<string>)
    requires forall i | i in items :: i.adjustedAmount >= 0
    ensures 0 <= Sum(items, Within(ids)) <= Sum(items, ConfirmedAmountOf)
  {
    if items != [] {
      PartBounded(items[1..], ids);
    }
  }

  // ---- what a step does to a bundle ----

  ghost predicate Matches(fact: Option<CaseFact>, b: Bundle) {
    fact.Some? && fact.value.groupId == b.groupId && fact.value.expenseId == b.expenseId &&
      fact.value.lifecycle == "Rejected"
  }

  /** The recorded step names a rejected case of the bundle's expense. */
  ghost predicate CarriesRejectedCase(action: Action, b: Bundle) {
    match action
    case ItemCategoryCorrected(_, fact) => Matches(fact, b)
    case FinancialCorrected(_, _, _, _, affected) =>
      exists entry :: entry in affected && entry.bundleId == b.id && Matches(entry.caseFact, b)
    case _ => false
  }

  /** Item `k` keeps its category, amounts and allocations. */
  ghost predicate SameItem(f: ConfirmedFacts, f': ConfirmedFacts, k: nat) {
    k < |f.items| == |f'.items| && f.items[k] == f'.items[k] &&
    |f.allocations| == |f'.allocations| && forall j | 0 <= j < |f.allocations| ::
    Given(f.allocations, j, k) == Given(f'.allocations, j, k)
  }

  ghost predicate ItemsKept(f: ConfirmedFacts, f': ConfirmedFacts, b: Bundle) {
    |f.items| == |f'.items| && forall k | 0 <= k < |f.items| && f.items[k].id in b.itemIds :: SameItem(f, f', k)
  }

  /** The bundle, and the selection that locks it, stand as before. */
  ghost predicate StillLocked(f: ConfirmedFacts, f': ConfirmedFacts, b: Bundle) {
    && b in f'.bundles && SelectedBundle(f', b.id)
    && forall s | s in f.selections :: s in f'.selections
  }

  lemma AllKept(f: ConfirmedFacts, f': ConfirmedFacts, b: Bundle)
    requires f.items == f'.items && f.allocations == f'.allocations
    ensures ItemsKept(f, f', b)
  {
  }

  /** A bundle outside the affected set keeps every financial value of its items. */
  lemma UntouchedKept(f: ConfirmedFacts, input: FinancialInput, items: seq<Item>, adjustments: seq<Adjustment>,
                      included: set<string>, e: ReceiptError, b: Bundle)
    requires FactsSound(f) && |items| == |f.items| && FinancialCandidate(f, input, items, adjustments, included, e).Ok?
    requires |adjustments| == |f.adjustments| && b in f.bundles && Calculate(items, adjustments).Ok?
    requires b !in AffectedBundles(f, Calculate(items, adjustments).value, included, f.bundles)
    ensures ItemsKept(f, FinancialCandidate(f, input, items, adjustments, included, e).value.0, b)
  {
    hide FinancialCandidate, CoversAffected, AffectedCheck, InBundleOrder;
    CandidateMeans(f, input, items, adjustments, included, e);
    var c := Calculate(items, adjustments).value;
    assert |f.allocations| == |f.adjustments| by { AllocationsFit(f); }
    hide Calculate, FactsSound, AffectedBundles;
    var f' := FinancialCandidate(f, input, items, adjustments, included, e).value.0;
    forall k | 0 <= k < |f.items| && f.items[k].id in b.itemIds ensures SameItem(f, f', k) {
      assert !Touched(f, c, included, k);
    }
  }

  lemma AllocationsFit(f: ConfirmedFacts)
    requires FactsSound(f)
    ensures |f.allocations| == |f.adjustments|
  {
    hide BundlesSound, SelectionsSound;
  }

  lemma {:induction false} CheckedEach(f: ConfirmedFacts, bundles: seq<Bundle>, groupId: string,
                                       cases: seq<AffectedCase>, e: ReceiptError, b: Bundle)
    requires AffectedCheck(f, bundles, groupId, cases, e).Pass? && b in bundles
    ensures FactFor(cases, b.id).Some? && b.groupId == groupId
    ensures var entry := FactFor(cases, b.id).value;
            CorrectionCaseCheck(f, b, entry.expectedCaseVersion, entry.caseFact, e).Pass? &&
              entry in InBundleOrder(bundles, cases)
  {
    hide CorrectionCaseCheck;
    if bundles[0] != b {
      CheckedEach(f, bundles[1..], groupId, cases, e, b);
    }
  }

  lemma LockedNeedsCase(f: ConfirmedFacts, b: Bundle, v: Option<int>, fact: Option<CaseFact>, e: ReceiptError)
    requires SelectedBundle(f, b.id) && CorrectionCaseCheck(f, b, v, fact, e).Pass?
    ensures Matches(fact, b)
  {
    hide CanonicalUuid;
  }

  /** An affected locked bundle is covered by a rejected case in the recorded step. */
  lemma CandidateCarriesCase(f: ConfirmedFacts, input: FinancialInput, items: seq<Item>, adjustments: seq<Adjustment>,
                             included: set<string>, e: ReceiptError, b: Bundle)
    requires |items| == |f.items| && FinancialCandidate(f, input, items, adjustments, included, e).Ok?
    requires Calculate(items, adjustments).Ok? && SelectedBundle(f, b.id)
    requires b in AffectedBundles(f, Calculate(items, adjustments).value, included, f.bundles)
    ensures exists entry :: entry in FinancialCandidate(f, input, items, adjustments, included, e).value.1 &&
                            entry.bundleId == b.id && Matches(entry.caseFact, b)
  {
    hide FinancialCandidate, CoversAffected, AffectedCheck, InBundleOrder, Calculate, AffectedBundles, SelectedBundle,
         CorrectionCaseCheck;
    CandidateMeans(f, input, items, adjustments, included, e);
    var affected := AffectedBundles(f, Calculate(items, adjustments).value, included, f.bundles);
    CheckedEach(f, affected, input.groupId, input.cases, e, b);
    var entry := FactFor(input.cases, b.id).value;
    LockedNeedsCase(f, b, entry.expectedCaseVersion, entry.caseFact, e);
  }

  /** What one accepted step does to a locked bundle. */
  ghost predicate LockRespected(r: Receipt, r': Receipt, b: Bundle)
    requires r.current.Confirmed?
  {
    && r'.current.Confirmed? && StillLocked(r.current.facts, r'.current.facts, b)
    && (ItemsKept(r.current.facts, r'.current.facts, b) ||
        (|r'.changes| > 0 && CarriesRejectedCase(r'.changes[|r'.changes| - 1].action, b)))
  }

  ghost predicate Locked(r: Receipt, b: Bundle) {
    r.current.Confirmed? && b in r.current.facts.bundles && SelectedBundle(r.current.facts, b.id)
  }

  lemma NothingHappened(r: Receipt, b: Bundle)
    requires Locked(r, b)
    ensures LockRespected(r, r, b)
  {
    AllKept(r.current.facts, r.current.facts, b);
  }

  lemma OthersTouched(r: Receipt, r': Receipt, b: Bundle)
    requires Locked(r, b) && r'.current.Confirmed?
    requires r'.current.facts.items == r.current.facts.items &&
             r'.current.facts.allocations == r.current.facts.allocations
    requires b in r'.current.facts.bundles && r.current.facts.selections <= r'.current.facts.selections
    ensures LockRespected(r, r', b)
  {
    AllKept(r.current.facts, r'.current.facts, b);
    var s :| s in r.current.facts.selections && s.bundleId == b.id;
    assert s in r'.current.facts.selections;
  }

  lemma MoveRespectsLock(r: Receipt, v: int, a: string, at: Clock, from: string, to: string, ids: seq<string>,
                         b: Bundle)
    requires MoveBundleItems(r, v, a, at, from, to, ids).Ok? && Locked(r, b)
    ensures LockRespected(r, MoveBundleItems(r, v, a, at, from, to, ids).value, b)
  {
    hide MoveBundleItems, EditableBundle, LockRespected, SelectedBundle;
    var i, j := MoveAccepted(r, v, a, at, from, to, ids);
    EditableMeans(r, v, a, from);
    EditableMeans(r, v, a, to);
    hide InReceiptOrder, ItemIdsWellFormed, FindBundle, Nonempty;
    var k :| 0 <= k < |r.current.facts.bundles| && r.current.facts.bundles[k] == b;
    assert Moved(r.current.facts, i, j, ids).bundles[k] == b;
    OthersTouched(r, MoveBundleItems(r, v, a, at, from, to, ids).value, b);
  }

  lemma RegisterRespectsLock(r: Receipt, v: int, a: string, at: Clock, id: string, ids: seq<string>, e: GroupExpense,
                             b: Bundle)
    requires RegisterBundle(r, v, a, at, id, ids, e).Ok? && Locked(r, b)
    ensures LockRespected(r, RegisterBundle(r, v, a, at, id, ids, e).value, b)
  {
    hide RegisterBundle, LockRespected, SelectedBundle;
    RegisterAccepted(r, v, a, at, id, ids, e);
    hide FindBundle, ItemIdsWellFormed, Assigned, PairedExpense, Nonempty;
    OthersTouched(r, RegisterBundle(r, v, a, at, id, ids, e).value, b);
  }

  lemma SelectRespectsLock(r: Receipt, v: int, s: Selection, at: Clock, b: Bundle)
    requires RecordSelection(r, v, s, at).Ok? && Locked(r, b)
    ensures LockRespected(r, RecordSelection(r, v, s, at).value, b)
  {
    hide RecordSelection, LockRespected, SelectedBundle;
    if RecordSelection(r, v, s, at).value == r {
      NothingHappened(r, b);
    } else {
      SelectAccepted(r, v, s, at);
      OthersTouched(r, RecordSelection(r, v, s, at).value, b);
    }
  }

  lemma HoldsOnce(f: ConfirmedFacts, b: Bundle, b': Bundle, id: string)
    requires FactsSound(f) && b in f.bundles && b' in f.bundles && id in b.itemIds && id in b'.itemIds
    ensures b == b'
  {
    hide AmountsSound, SelectionsSound, BundleSound;
    var k :| 0 <= k < |f.bundles| && f.bundles[k] == b;
    var m :| 0 <= m < |f.bundles| && f.bundles[m] == b';
    if k != m {
      BundlesDisjoint(f, k, m);
    }
  }

  lemma CategoryRespectsLock(r: Receipt, v: int, a: string, o: string, at: Clock, g: string, i: string, c: string,
                             cv: Option<int>, fact: Option<CaseFact>, b: Bundle)
    requires ReceiptSound(r) && CorrectItemCategory(r, v, a, o, at, g, i, c, cv, fact).Ok? && Locked(r, b)
    ensures LockRespected(r, CorrectItemCategory(r, v, a, o, at, g, i, c, cv, fact).value, b)
  {
    hide CorrectItemCategory, SelectedBundle, FactsSound, HistorySound, CorrectionCaseCheck, Given, ItemsKept;
    var r' := CorrectItemCategory(r, v, a, o, at, g, i, c, cv, fact).value;
    if r' == r {
      NothingHappened(r, b);
    } else {
      var k, holder := CategoryAccepted(r, v, a, o, at, g, i, c, cv, fact);
      assert StillLocked(r.current.facts, r'.current.facts,
                         b) by { SelectedCarries(r.current.facts, r'.current.facts, b); }
      if i in b.itemIds {
        HoldsOnce(r.current.facts, b, holder, i);
        LockedNeedsCase(r.current.facts, b, cv, fact, ItemCategoryNotCorrectable);
      } else {
        OneItemChanged(r.current.facts, r'.current.facts, k, b);
      }
    }
  }

  lemma OneItemChanged(f: ConfirmedFacts, f': ConfirmedFacts, k: nat, b: Bundle)
    requires k < |f.items| && f.items[k].id !in b.itemIds && |f'.items| == |f.items| && f'.allocations == f.allocations
    requires forall n | 0 <= n < |f.items| && n != k :: f'.items[n] == f.items[n]
    ensures ItemsKept(f, f', b)
  {
    hide Given;
  }

  lemma SelectedCarries(f: ConfirmedFacts, f': ConfirmedFacts, b: Bundle)
    requires b in f.bundles && SelectedBundle(f, b.id) && f'.bundles == f.bundles && f'.selections == f.selections
    ensures StillLocked(f, f', b)
  {
  }

  lemma CandidateRespectsLock(r: Receipt, input: FinancialInput, items: seq<Item>, adjustments: seq<Adjustment>,
                              included: set<string>, e: ReceiptError, r': Receipt, b: Bundle,
                              correction: Correction, o: string, reason: string, a: string, at: int)
    requires ReceiptSound(r) && Locked(r, b) && |items| == |r.current.facts.items| &&
             |adjustments| == |r.current.facts.adjustments|
    requires var candidate := FinancialCandidate(r.current.facts, input, items, adjustments, included, e);
             && candidate.Ok?
             && r' == Advance(r, Confirmed(candidate.value.0),
                              FinancialCorrected(correction, o, input.groupId, reason, candidate.value.1), a, at)
    ensures LockRespected(r, r', b)
  {
    hide FinancialCandidate, CoversAffected, AffectedCheck, InBundleOrder, Calculate, AffectedBundles, SelectedBundle,
         FactsSound, HistorySound, ItemsKept, Matches, StillLocked;
    var f := r.current.facts;
    CandidateMeans(f, input, items, adjustments, included, e);
    SelectedCarries(f, r'.current.facts, b);
    if b in AffectedBundles(f, Calculate(items, adjustments).value, included, f.bundles) {
      CandidateCarriesCase(f, input, items, adjustments, included, e, b);
    } else {
      UntouchedKept(f, input, items, adjustments, included, e, b);
    }
  }

  lemma ItemAmountRespectsLock(r: Receipt, v: int, a: string, o: string, at: Clock, reason: string, i: string, n: int,
                               input: FinancialInput, b: Bundle)
    requires ReceiptSound(r) && CorrectItemAmount(r, v, a, o, at, reason, i, n, input).Ok? && Locked(r, b)
    ensures LockRespected(r, CorrectItemAmount(r, v, a, o, at, reason, i, n, input).value, b)
  {
    hide CorrectItemAmount, ReceiptSound, FinancialCandidate, LockRespected, Locked, FindItem, Nonempty;
    var k := ItemAmountAccepted(r, v, a, o, at, reason, i, n, input);
    var f := r.current.facts;
    if f.items[k].originalAmount == n {
      NothingHappened(r, b);
    } else {
      CandidateRespectsLock(r, input, Inputs(f.items)[k := Item(i, n)], f.adjustments, {i}, ItemAmountNotCorrectable,
                            CorrectItemAmount(r, v, a, o, at, reason, i, n, input).value, b, ItemAmount(i), o, reason,
                            a, at.value);
    }
  }

  lemma AdjustmentAmountRespectsLock(r: Receipt, v: int, a: string, o: string, at: Clock, reason: string, i: int,
                                     n: int,
                                     input: FinancialInput, b: Bundle)
    requires ReceiptSound(r) && CorrectAdjustmentAmount(r, v, a, o, at, reason, i, n, input).Ok? && Locked(r, b)
    ensures LockRespected(r, CorrectAdjustmentAmount(r, v, a, o, at, reason, i, n, input).value, b)
  {
    hide CorrectAdjustmentAmount, ReceiptSound, FinancialCandidate, LockRespected, Locked, Footprint, Nonempty;
    AdjustmentAmountAccepted(r, v, a, o, at, reason, i, n, input);
    var f := r.current.facts;
    if f.adjustments[i].amount == n {
      NothingHappened(r, b);
    } else {
      CandidateRespectsLock(r, input, Inputs(f.items), f.adjustments[i := f.adjustments[i].(amount := n)],
                            Footprint(f, i, false), AdjustmentAmountNotCorrectable,
                            CorrectAdjustmentAmount(r, v, a, o, at, reason, i, n, input).value, b, AdjustmentAmount(i),
                            o, reason, a, at.value);
    }
  }

  lemma NoMoreDrafting(r: Receipt, op: Operation)
    requires r.current.Confirmed? && (op.OpEditDraft? || op.OpConfirm?)
    ensures Apply(r, op).Err?
  {
    hide Calculate, ReviewedCheck;
  }

  lemma StepRespectsLock(r: Receipt, op: Operation, b: Bundle)
    requires ReceiptSound(r) && Supplied(op) && Locked(r, b)
    ensures LockRespected(r, After(r, op), b)
  {
    hide ReceiptSound, EditDraft, Confirm, RegisterBundle, MoveBundleItems, RecordSelection, CorrectItemCategory,
         CorrectItemAmount, CorrectAdjustmentAmount, LockRespected, Supplied;
    if Apply(r, op).Err? {
      NothingHappened(r, b);
    } else {
      match op
      case OpEditDraft(v, a, at, day, total, items, adjustments) => NoMoreDrafting(r, op);
      case OpConfirm(v, a, at, day, total, items, adjustments) => NoMoreDrafting(r, op);
      case OpRegisterBundle(v, a, at, id, ids, e) => RegisterRespectsLock(r, v, a, at, id, ids, e, b);
      case OpMove(v, a, at, from, to, ids) => MoveRespectsLock(r, v, a, at, from, to, ids, b);
      case OpSelect(v, s, at) => SelectRespectsLock(r, v, s, at, b);
      case OpCategory(v, a, o, at, g, i, c, cv, f) => CategoryRespectsLock(r, v, a, o, at, g, i, c, cv, f, b);
      case OpItemAmount(v, a, o, at, reason, i, n, input) =>
        ItemAmountRespectsLock(r, v, a, o, at, reason, i, n, input, b);
      case OpAdjustmentAmount(v, a, o, at, reason, i, n, input) =>
        AdjustmentAmountRespectsLock(r, v, a, o, at, reason, i, n, input, b);
    }
  }

  /**
   * The permanent lock: from the moment a bundle is selected, in every later state of every run, the bundle has the
   * same items and the same selection, and each step that changes a category, an amount or an allocation of its items
   * carries a rejected case of the bundle's expense.
   */
  lemma {:induction false} PermanentLock(rs: seq<Receipt>, ops: seq<Operation>, k: nat, b: Bundle)
    requires Run(rs, ops) && k <= |ops| && ReceiptSound(rs[0]) && Locked(rs[0], b)
    ensures Locked(rs[k], b)
    ensures forall s | s in rs[0].current.facts.selections :: s in rs[k].current.facts.selections
    ensures k < |ops| ==> LockRespected(rs[k], rs[k + 1], b)
  {
    hide ReceiptSound, Supplied, After, CarriesRejectedCase, ItemsKept, SelectedBundle;
    if k > 0 {
      PermanentLock(rs, ops, k - 1, b);
    }
    if k < |ops| {
      RunSound(rs, ops, k);
      StepRespectsLock(rs[k], ops[k], b);
    }
  }
}
