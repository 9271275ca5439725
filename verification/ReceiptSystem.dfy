/**
 * The receipt and its expenses as one system: every change of the receipt is accepted by exactly the expenses it
 * affects.
 */
module ReceiptSystem {
  import opened Outcomes
  import opened Sequences
  import opened Text
  import opened ReceiptAdjustments
  import opened AdjustmentProperties
  import opened GroupExpenses
  import opened ExpenseRoot
  import opened ReceiptRoot
  import opened ReceiptInvariants
  import opened ReceiptSteps
  import opened ReceiptLock
  import opened ReceiptInStep

  // ---- moving items ----

  /** The expense follows a move with the receipt's facts about its bundle before and after. */
  function FollowMove(e: GroupExpense, r: Receipt, r': Receipt, v: int, a: string, at: Clock,
                      bundleId: string): Result<GroupExpense, ExpenseError> {
    var before, after := BundleEditingFacts(r, v, a, bundleId), BundleEditingFacts(r', v + 1, a, bundleId);
    if before.Ok? && after.Ok? then ReflectMovement(e, e.version, v, before.value, after.value, a, at)
      else Err(BundleFactInvalid)
  }

  lemma MoveFollowed(r: Receipt, v: int, a: string, at: Clock, from: string, to: string, ids: seq<string>, id: string,
                     e: GroupExpense)
    requires ReceiptSound(r) && MoveBundleItems(r, v, a, at, from, to, ids).Ok? && (id == from || id == to)
    requires EditableBundle(r, v, a, id).Ok? &&
             InStepWith(r.current.facts, r.current.facts.bundles[EditableBundle(r, v, a, id).value], e)
    requires SafeInteger(e.version) && SafeInteger(e.version + 1)
    ensures var r' := MoveBundleItems(r, v, a, at, from, to, ids).value;
            var k := EditableBundle(r, v, a, id).value;
            && FollowMove(e, r, r', v, a, at, id).Ok? && r'.current.Confirmed? && k < |r'.current.facts.bundles|
            && InStepWith(r'.current.facts, r'.current.facts.bundles[k], FollowMove(e, r, r', v, a, at, id).value)
  {
    hide MoveBundleItems, EditableBundle, ReceiptSound, CurrentFactCheck, FactShapeCheck, ReflectMovement,
         ExpenseGenuine, BundleAmount, BundleEditingFacts;
    var r' := MoveBundleItems(r, v, a, at, from, to, ids).value;
    MoveSound(r, v, a, at, from, to, ids);
    FactsAfterMove(r, v, a, at, from, to, ids, id);
    EditingFactsAccepted(r, v, a, id, e);
    EditingFactsShape(r', v + 1, a, id);
    var before, after := BundleEditingFacts(r, v, a, id).value, BundleEditingFacts(r', v + 1, a, id).value;
    FactsNameVersions(r, v, a, id);
    FactsNameVersions(r', v + 1, a, id);
    assert at.Some? by { var _, _ := MoveAccepted(r, v, a, at, from, to, ids); }
    assert Followed(e, e.version, v, before, after, a, at);
    hide Followed;
    MovementReflected(e, e.version, v, before, after, a, at);
    MovedInStep(r, v, a, at, from, to, ids, id, e, ReflectMovement(e, e.version, v, before, after, a, at).value);
  }

  lemma FactsNameVersions(r: Receipt, v: int, a: string, id: string)
    requires BundleEditingFacts(r, v, a, id).Ok?
    ensures BundleEditingFacts(r, v, a, id).value.receiptVersion == r.version == v && SafeInteger(v)
  {
    hide EditableBundle, BundleAmount;
    EditableMeans(r, v, a, id);
  }

  lemma MovedInStep(r: Receipt, v: int, a: string, at: Clock, from: string, to: string, ids: seq<string>, id: string,
                    e: GroupExpense, e': GroupExpense)
    requires MoveBundleItems(r, v, a, at, from, to, ids).Ok? && (id == from || id == to)
    requires EditableBundle(r, v, a, id).Ok? &&
             InStepWith(r.current.facts, r.current.facts.bundles[EditableBundle(r, v, a, id).value], e)
    requires var r' := MoveBundleItems(r, v, a, at, from, to, ids).value;
             && BundleEditingFacts(r', v + 1, a, id).Ok? && ExpenseGenuine(e')
             && e'.facts == e.facts.(total := BundleEditingFacts(r', v + 1, a, id).value.adjustedAmount,
                                     allocations := e'.facts.allocations)
             && EditableBundle(r', v + 1, a, id) == EditableBundle(r, v, a, id)
    ensures var r' := MoveBundleItems(r, v, a, at, from, to, ids).value;
            var k := EditableBundle(r, v, a, id).value;
            r'.current.Confirmed? && k < |r'.current.facts.bundles| &&
              InStepWith(r'.current.facts, r'.current.facts.bundles[k], e')
  {
    hide MoveBundleItems, EditableBundle, ExpenseGenuine, BundleAmount, InReceiptOrder, Remaining;
    var i, j := MoveAccepted(r, v, a, at, from, to, ids);
    hide ItemIdsWellFormed;
  }

  // ---- financial corrections ----

  lemma {:induction false} AffectedDistinct(f: ConfirmedFacts, c: Calculation, included: set<string>,
                                            bundles: seq<Bundle>)
    requires |c.items| == |f.items| && DistinctBy(bundles, BundleIdOf)
    ensures DistinctBy(AffectedBundles(f, c, included, bundles), BundleIdOf)
  {
    hide TouchedBundle;
    if bundles != [] {
      forall i, j | 0 <= i < j < |bundles[1..]| ensures BundleIdOf(bundles[1..][i]) != BundleIdOf(bundles[1..][j]) {
        assert BundleIdOf(bundles[i + 1]) != BundleIdOf(bundles[j + 1]);
      }
      AffectedDistinct(f, c, included, bundles[1..]);
      var rest := AffectedBundles(f, c, included, bundles[1..]);
      forall b | b in rest ensures BundleIdOf(bundles[0]) != BundleIdOf(b) {
        var j :| 1 <= j < |bundles| && bundles[j] == b;
      }
      DistinctCons(bundles[0], rest, BundleIdOf);
      assert AffectedBundles(f, c, included, bundles) ==
        (if TouchedBundle(f, c, included, bundles[0]) then [bundles[0]] else []) + rest;
      assert [] + rest == rest;
    }
  }

  /** The recorded case facts hold exactly one entry for an affected bundle and none for another. */
  lemma {:induction false} EntriesOf(f: ConfirmedFacts, bundles: seq<Bundle>, groupId: string,
                                     cases: seq<AffectedCase>, e: ReceiptError, id: string)
    requires DistinctBy(bundles, BundleIdOf) && AffectedCheck(f, bundles, groupId, cases, e).Pass?
    ensures EntriesFor(InBundleOrder(bundles, cases), id)
            == if exists b :: b in bundles && b.id == id then OneEntry(cases, id) else []
  {
    hide CorrectionCaseCheck;
    if bundles != [] {
      forall i, j | 0 <= i < j < |bundles[1..]| ensures BundleIdOf(bundles[1..][i]) != BundleIdOf(bundles[1..][j]) {
        assert BundleIdOf(bundles[i + 1]) != BundleIdOf(bundles[j + 1]);
      }
      EntriesOf(f, bundles[1..], groupId, cases, e, id);
      var entry, rest := FactFor(cases, bundles[0].id).value, InBundleOrder(bundles[1..], cases);
      assert InBundleOrder(bundles, cases) == [entry] + rest;
      assert EntriesFor([entry] + rest, id) == (if entry.bundleId == id then [entry] else []) + EntriesFor(rest, id);
      assert forall b :: b in bundles <==> b == bundles[0] || b in bundles[1..];
      if bundles[0].id == id {
        forall b | b in bundles[1..] ensures b.id != id {
          var j :| 1 <= j < |bundles| && bundles[j] == b;
          assert BundleIdOf(bundles[0]) != BundleIdOf(bundles[j]);
        }
      }
    }
  }

  function OneEntry(cases: seq<AffectedCase>, id: string): seq<AffectedCase> {
    var entry := FactFor(cases, id);
    if entry.Some? then [entry.value] else []
  }

  lemma BundlesDistinct(f: ConfirmedFacts)
    requires FactsSound(f)
    ensures DistinctBy(f.bundles, BundleIdOf)
  {
    hide AmountsSound, SelectionsSound, BundleSound;
    forall i, j | 0 <= i < j < |f.bundles| ensures BundleIdOf(f.bundles[i]) != BundleIdOf(f.bundles[j]) {
      assert Apart(f.bundles[i], f.bundles[j]);
    }
  }

  /** A correction of the receipt, as its expenses see it. */
  ghost predicate Correcting(c: FinancialChange, input: FinancialInput, items: seq<Item>, adjustments: seq<Adjustment>,
                             included: set<string>, error: ReceiptError)
    requires |items| == |c.before.items|
  {
    && FactsSound(c.before) && FactsSound(c.after)
    && FinancialCandidate(c.before, input, items, adjustments, included, error) == Ok((c.after, c.affected))
    && c.groupId == input.groupId && |adjustments| == |c.before.adjustments| && Calculate(items, adjustments).Ok?
    && c.previousVersion >= 1 && c.version == c.previousVersion + 1 && SafeInteger(c.version)
    && Nonempty(c.actorSubject) && Nonempty(c.currentOwnerSubject) && Nonempty(c.reason)
    && (c.actorSubject == c.before.uploaderSubject || c.actorSubject == c.currentOwnerSubject)
    && CorrectionPlausible(c)
  }

  ghost predicate IsAffected(c: FinancialChange, items: seq<Item>, adjustments: seq<Adjustment>, included: set<string>,
                             b: Bundle)
    requires |items| == |c.before.items| && Calculate(items, adjustments).Ok?
  {
    b in AffectedBundles(c.before, Calculate(items, adjustments).value, included, c.before.bundles)
  }

  lemma AffectedEntry(c: FinancialChange, input: FinancialInput, items: seq<Item>, adjustments: seq<Adjustment>,
                      included: set<string>, error: ReceiptError, b: Bundle)
    returns (entry: AffectedCase)
    requires |items| == |c.before.items| && Correcting(c, input, items, adjustments, included, error) &&
             b in c.before.bundles
    requires IsAffected(c, items, adjustments, included, b)
    ensures EntriesFor(c.affected, b.id) == [entry] && b.groupId == c.groupId
    ensures CorrectionCaseCheck(c.before, b, entry.expectedCaseVersion, entry.caseFact, error).Pass?
  {
    hide FactsSound, Calculate, FinancialCandidate, CoversAffected, AffectedCheck, InBundleOrder, CorrectionCaseCheck,
         Nonempty, CorrectionPlausible, AffectedBundles;
    CandidateMeans(c.before, input, items, adjustments, included, error);
    var affected := AffectedBundles(c.before, Calculate(items, adjustments).value, included, c.before.bundles);
    BundlesDistinct(c.before);
    AffectedDistinct(c.before, Calculate(items, adjustments).value, included, c.before.bundles);
    hide DistinctBy;
    CheckedEach(c.before, affected, input.groupId, input.cases, error, b);
    EntriesOf(c.before, affected, input.groupId, input.cases, error, b.id);
    entry := FactFor(input.cases, b.id).value;
  }

  lemma NoEntry(c: FinancialChange, input: FinancialInput, items: seq<Item>, adjustments: seq<Adjustment>,
                included: set<string>, error: ReceiptError, b: Bundle)
    requires |items| == |c.before.items| && Correcting(c, input, items, adjustments, included, error) &&
             b in c.before.bundles
    requires !IsAffected(c, items, adjustments, included, b)
    ensures EntriesFor(c.affected, b.id) == []
  {
    hide Calculate, FinancialCandidate, CoversAffected, AffectedCheck, InBundleOrder, CorrectionCaseCheck, Nonempty,
         CorrectionPlausible, AffectedBundles, FactsSound;
    CandidateMeans(c.before, input, items, adjustments, included, error);
    var affected := AffectedBundles(c.before, Calculate(items, adjustments).value, included, c.before.bundles);
    BundlesDistinct(c.before);
    AffectedDistinct(c.before, Calculate(items, adjustments).value, included, c.before.bundles);
    hide DistinctBy;
    EntriesOf(c.before, affected, input.groupId, input.cases, error, b.id);
    forall b' | b' in affected ensures b'.id != b.id {
      FirstBundle(c.before, b);
      FirstBundle(c.before, b');
    }
  }

  lemma CaseEntryAccepted(f: ConfirmedFacts, b: Bundle, e: GroupExpense, entry: AffectedCase, error: ReceiptError)
    requires CorrectionCaseCheck(f, b, entry.expectedCaseVersion, entry.caseFact, error).Pass?
    requires e.facts.id == b.expenseId && e.facts.groupId == b.groupId
    ensures CaseEntryCheck(e, SelectedBundle(f, b.id), entry).Pass?
  {
    hide CanonicalUuid, SelectedBundle;
  }

  /** What the correction keeps of the receipt. */
  lemma CorrectionKeeps(c: FinancialChange, input: FinancialInput, items: seq<Item>, adjustments: seq<Adjustment>,
                        included: set<string>, error: ReceiptError)
    requires |items| == |c.before.items| && Correcting(c, input, items, adjustments, included, error)
    ensures c.after.bundles == c.before.bundles && c.after.id == c.before.id &&
            c.after.uploaderSubject == c.before.uploaderSubject
    ensures c.after.occurredOn == c.before.occurredOn && c.after.selections == c.before.selections
    ensures |c.after.items| == |c.before.items| && forall k | 0 <= k < |c.before.items| ::
            c.after.items[k].id == c.before.items[k].id
  {
    hide FactsSound, Calculate, FinancialCandidate, CoversAffected, AffectedCheck, InBundleOrder, Nonempty,
         CorrectionPlausible, AffectedBundles;
    CandidateMeans(c.before, input, items, adjustments, included, error);
  }

  /** Every check of an affected expense passes. */
  lemma FinancialPasses(c: FinancialChange, input: FinancialInput, items: seq<Item>, adjustments: seq<Adjustment>,
                        included: set<string>, error: ReceiptError, b: Bundle, e: GroupExpense)
    returns (entry: AffectedCase)
    requires |items| == |c.before.items| && Correcting(c, input, items, adjustments, included, error) &&
             b in c.before.bundles
    requires InStepWith(c.before, b, e) && SafeInteger(e.version) && SafeInteger(e.version + 1)
    requires IsAffected(c, items, adjustments, included, b)
    ensures FinancialCheck(e, e.version, c.previousVersion, c) == Ok((b, BundleAmount(c.after, b), entry))
  {
    hide FactsSound, Calculate, FinancialCandidate, Nonempty, CorrectionPlausible, IsAffected, BundleAmount,
         CorrectionCaseCheck, EntriesFor, CaseEntryCheck, SelectedBundle, PairAmount, ExpenseGenuine, PairOf;
    CorrectionKeeps(c, input, items, adjustments, included, error);
    entry := AffectedEntry(c, input, items, adjustments, included, error, b);
    CaseEntryAccepted(c.before, b, e, entry, error);
    FirstPair(c.before, b);
    PairAmountIs(c.before, b);
    PairAmountIs(c.after, b);
  }

  /** An affected expense follows the correction and is in step with its bundle again. */
  lemma FinancialFollowed(c: FinancialChange, input: FinancialInput, items: seq<Item>, adjustments: seq<Adjustment>,
                          included: set<string>, error: ReceiptError, b: Bundle, e: GroupExpense)
    requires |items| == |c.before.items| && Correcting(c, input, items, adjustments, included, error) &&
             b in c.before.bundles
    requires InStepWith(c.before, b, e) && SafeInteger(e.version) && SafeInteger(e.version + 1)
    requires IsAffected(c, items, adjustments, included, b)
    ensures ReflectFinancial(e, e.version, c.previousVersion, c).Ok?
    ensures InStepWith(c.after, b, ReflectFinancial(e, e.version, c.previousVersion, c).value)
  {
    hide FactsSound, Calculate, FinancialCandidate, Nonempty, CorrectionPlausible, IsAffected, BundleAmount,
         FinancialCheck, Register;
    var entry := FinancialPasses(c, input, items, adjustments, included, error, b, e);
    CorrectionKeeps(c, input, items, adjustments, included, error);
    BundleSumSafe(c.after, b);
    Recomputed(e.facts, BundleAmount(c.after, b));
  }

  /** An expense outside the affected set refuses the correction, and is in step without it. */
  lemma FinancialRefused(c: FinancialChange, input: FinancialInput, items: seq<Item>, adjustments: seq<Adjustment>,
                         included: set<string>, error: ReceiptError, b: Bundle, e: GroupExpense)
    requires |items| == |c.before.items| && Correcting(c, input, items, adjustments, included, error) &&
             b in c.before.bundles
    requires InStepWith(c.before, b, e) && !IsAffected(c, items, adjustments, included, b)
    ensures ReflectFinancial(e, e.version, c.previousVersion, c).Err?
    ensures InStepWith(c.after, b, e)
  {
    hide FactsSound, Calculate, FinancialCandidate, Nonempty, CorrectionPlausible, PairAmount, ExpenseGenuine, PairOf,
         EntriesFor, CaseEntryCheck, SelectedBundle, BundleAmount, InStepWith, FinancialActorCheck, SamePair, Register;
    NoEntry(c, input, items, adjustments, included, error, b);
    CorrectionKeeps(c, input, items, adjustments, included, error);
    FirstPair(c.before, b);
    assert e.facts.id == b.expenseId by { StepNames(c.before, b, e); }
    UntouchedKept(c.before, input, items, adjustments, included, error, b);
    hide FinancialCheck, ReflectFinancial, Correcting, IsAffected;
    KeptAmount(c.before, c.after, b);
    StaysInStep(c.before, c.after, b, e);
  }

  lemma StepNames(f: ConfirmedFacts, b: Bundle, e: GroupExpense)
    requires InStepWith(f, b, e)
    ensures e.facts.id == b.expenseId
  {
  }

  lemma StaysInStep(f: ConfirmedFacts, f': ConfirmedFacts, b: Bundle, e: GroupExpense)
    requires InStepWith(f, b, e) && BundleAmount(f', b) == BundleAmount(f, b)
    requires f'.uploaderSubject == f.uploaderSubject && f'.occurredOn == f.occurredOn
    ensures InStepWith(f', b, e)
  {
    hide BundleAmount, ExpenseGenuine;
  }

  lemma KeptAmount(f: ConfirmedFacts, f': ConfirmedFacts, b: Bundle)
    requires ItemsKept(f, f', b) && |f'.items| == |f.items| && forall k | 0 <= k < |f.items| ::
             f'.items[k].id == f.items[k].id
    ensures BundleAmount(f', b) == BundleAmount(f, b)
  {
    hide Given;
    forall k | 0 <= k < |f.items| ensures Within(b.itemIds)(f.items[k]) == Within(b.itemIds)(f'.items[k]) {
      assert f.items[k].id in b.itemIds ==> SameItem(f, f', k);
    }
    SumsAlike(f.items, f'.items, Within(b.itemIds), Within(b.itemIds));
  }

  // ---- the corrections the receipt records ----

  /** The recorded change as its expenses receive it. */
  function FinancialChangeOf(c: Change): FinancialChange
    requires c.action.FinancialCorrected? && c.before.Confirmed? && c.after.Confirmed?
  {
    FinancialChange(c.action.correction, c.actorSubject, c.action.currentOwnerSubject, c.action.groupId, c.at,
                    c.action.reason,
                    c.previousVersion, c.version, c.action.affected, c.before.facts, c.after.facts)
  }

  /** `r'` is `r` one financial correction later. */
  ghost predicate Corrected(r: Receipt, r': Receipt) {
    && r.current.Confirmed? && |r'.changes| == |r.changes| + 1
    && var last := r'.changes[|r.changes|];
       && last.action.FinancialCorrected? && last.before == r.current && last.after == r'.current &&
          r'.current.Confirmed?
       && last.previousVersion == r.version && last.version == r.version + 1 == r'.version
  }

  function LastCorrection(r: Receipt, r': Receipt): FinancialChange
    requires Corrected(r, r')
  {
    FinancialChangeOf(r'.changes[|r.changes|])
  }

  lemma {:induction false} OriginalFound(items: seq<ConfirmedItem>, id: string)
    requires FindItem(items, id).Some?
    ensures OriginalById(items, id) == Some(items[FindItem(items, id).value].originalAmount)
  {
    if items[0].id != id {
      OriginalFound(items[1..], id);
    }
  }

  lemma {:induction false} SameFound(xs: seq<ConfirmedItem>, ys: seq<ConfirmedItem>, id: string)
    requires |xs| == |ys| && forall k | 0 <= k < |xs| :: xs[k].id == ys[k].id
    ensures FindItem(xs, id) == FindItem(ys, id)
  {
    if xs != [] {
      SameFound(xs[1..], ys[1..], id);
    }
  }

  lemma ItemAmountCorrecting(r: Receipt, v: int, a: string, o: string, at: Clock, reason: string, i: string, n: int,
                             input: FinancialInput)
    requires ReceiptSound(r) && CorrectItemAmount(r, v, a, o, at, reason, i, n, input).Ok?
    requires CorrectItemAmount(r, v, a, o, at, reason, i, n, input).value != r
    ensures var r' := CorrectItemAmount(r, v, a, o, at, reason, i, n, input).value;
            && Corrected(r, r') && FindItem(r.current.facts.items, i).Some?
            && var f := r.current.facts;
               Correcting(LastCorrection(r, r'), input, Inputs(f.items)[FindItem(f.items, i).value := Item(i, n)],
                          f.adjustments,
                          {i}, ItemAmountNotCorrectable)
  {
    hide CorrectItemAmount, FinancialCandidate, Nonempty, HistorySound, FactsSound, FindItem, OriginalById, Calculate;
    ItemAmountSound(r, v, a, o, at, reason, i, n, input);
    var k := ItemAmountAccepted(r, v, a, o, at, reason, i, n, input);
    var f := r.current.facts;
    var items := Inputs(f.items)[k := Item(i, n)];
    CandidateMeans(f, input, items, f.adjustments, {i}, ItemAmountNotCorrectable);
    var r' := CorrectItemAmount(r, v, a, o, at, reason, i, n, input).value;
    assert r.version >= 1 by { VersionPositive(r); }
    ItemAmountDiffers(f, items, f.adjustments, r'.current.facts, i, k, n);
    hide AffectedBundles, CoversAffected, AffectedCheck, InBundleOrder;
    assert CorrectionPlausible(LastCorrection(r, r'));
  }

  lemma VersionPositive(r: Receipt)
    requires ReceiptSound(r)
    ensures r.version >= 1
  {
    hide FactsSound, Nonempty;
  }

  lemma ItemAmountDiffers(f: ConfirmedFacts, items: seq<Item>, adjustments: seq<Adjustment>, f': ConfirmedFacts,
                          i: string, k: nat, n: int)
    requires FindItem(f.items, i) == Some(k) && k < |f.items| && items == Inputs(f.items)[k := Item(i, n)]
    requires Calculate(items, adjustments).Ok? &&
             f'.items == Recalculated(f.items, Calculate(items, adjustments).value.items)
    requires f.items[k].originalAmount != n
    ensures OriginalById(f.items, i).Some? && OriginalById(f'.items, i).Some? &&
            OriginalById(f.items, i) != OriginalById(f'.items, i)
  {
    CalculationConserves(items, adjustments);
    hide Calculate;
    SameFound(f.items, f'.items, i);
    OriginalFound(f.items, i);
    OriginalFound(f'.items, i);
  }

  lemma AdjustmentAmountCorrecting(r: Receipt, v: int, a: string, o: string, at: Clock, reason: string, i: int, n: int,
                                   input: FinancialInput)
    requires ReceiptSound(r) && CorrectAdjustmentAmount(r, v, a, o, at, reason, i, n, input).Ok?
    requires CorrectAdjustmentAmount(r, v, a, o, at, reason, i, n, input).value != r
    ensures var r' := CorrectAdjustmentAmount(r, v, a, o, at, reason, i, n, input).value;
            && Corrected(r, r') && 0 <= i < |r.current.facts.adjustments|
            && var f := r.current.facts;
               Correcting(LastCorrection(r, r'), input, Inputs(f.items),
                          f.adjustments[i := f.adjustments[i].(amount := n)],
                          Footprint(f, i, false), AdjustmentAmountNotCorrectable)
  {
    hide CorrectAdjustmentAmount, FinancialCandidate, Nonempty, HistorySound, FactsSound, Calculate, Footprint;
    AdjustmentAmountSound(r, v, a, o, at, reason, i, n, input);
    AdjustmentAmountAccepted(r, v, a, o, at, reason, i, n, input);
    var f := r.current.facts;
    var adjustments := f.adjustments[i := f.adjustments[i].(amount := n)];
    CandidateMeans(f, input, Inputs(f.items), adjustments, Footprint(f, i, false), AdjustmentAmountNotCorrectable);
    var r' := CorrectAdjustmentAmount(r, v, a, o, at, reason, i, n, input).value;
    assert r.version >= 1 by { VersionPositive(r); }
    OriginalsKept(f, adjustments, r'.current.facts);
    hide AffectedBundles, CoversAffected, AffectedCheck, InBundleOrder;
    assert CorrectionPlausible(LastCorrection(r, r'));
  }

  lemma OriginalsKept(f: ConfirmedFacts, adjustments: seq<Adjustment>, f': ConfirmedFacts)
    requires Calculate(Inputs(f.items), adjustments).Ok? &&
             f'.items == Recalculated(f.items, Calculate(Inputs(f.items), adjustments).value.items)
    ensures SameOriginals(f.items, f'.items)
  {
    CalculationConserves(Inputs(f.items), adjustments);
    hide Calculate;
  }
}
