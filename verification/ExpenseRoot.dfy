/** The expense as a root with versions and histories, and how it follows the receipt bundle it is paired with. */
module ExpenseRoot {
  import opened Outcomes
  import opened Sequences
  import opened Text
  import opened ReceiptAdjustments
  import opened GroupExpenses

  type Clock = Option<int>

  // ---- what a receipt tells its expenses ----

  datatype ConfirmedItem = ConfirmedItem(id: string, name: string, categoryId: string, originalAmount: int,
                                         adjustedAmount: int)

  datatype Bundle = Bundle(id: string, itemIds: seq<string>, expenseId: string, groupId: string)

  datatype Selection = Selection(
    bundleId: string, expenseId: string, groupId: string, caseId: string, snapshotId: string, actorSubject: string,
    selectedAt: int)

  datatype ConfirmedFacts = ConfirmedFacts(
    id: string, uploaderSubject: string, occurredOn: string, declaredTotal: int, items: seq<ConfirmedItem>,
    adjustments: seq<Adjustment>, allocations: seq<Spread>, bundles: seq<Bundle>, selections: seq<Selection>)

  datatype CaseFact = CaseFact(caseId: string, groupId: string, expenseId: string, version: int, lifecycle: string)

  datatype AffectedCase = AffectedCase(bundleId: string, expectedCaseVersion: Option<int>, caseFact: Option<CaseFact>)

  datatype Correction = ItemAmount(itemId: string) | AdjustmentAmount(index: int)

  datatype BundleFact = BundleFact(
    receiptId: string, bundleId: string, expenseId: string, groupId: string, receiptVersion: int,
    uploaderSubject: string,
    occurredOn: string, adjustedAmount: int)

  /** A correction of a receipt's amounts, as its history records it. */
  datatype FinancialChange = FinancialChange(
    correction: Correction, actorSubject: string, currentOwnerSubject: string, groupId: string, at: int, reason: string,
    previousVersion: int, version: int, affected: seq<AffectedCase>, before: ConfirmedFacts, after: ConfirmedFacts)

  // ---- the expense ----

  datatype AmountCorrection = AmountCorrection(actorSubject: string, at: int, reason: string, previousVersion: int,
                                               version: int)

  datatype SplitChange = SplitChange(
    actorSubject: string, at: int, previousVersion: int, version: int, bundleFact: BundleFact, before: ExpenseFacts,
    after: ExpenseFacts)

  datatype Movement = Movement(
    actorSubject: string, at: int, previousVersion: int, version: int, beforeFact: BundleFact, afterFact: BundleFact,
    before: ExpenseFacts, after: ExpenseFacts)

  datatype FinancialRecord = FinancialRecord(
    correction: Correction, actorSubject: string, at: int, reason: string, receiptId: string, bundleId: string,
    previousReceiptVersion: int, receiptVersion: int, previousVersion: int, version: int, caseFact: Option<CaseFact>,
    before: ExpenseFacts, after: ExpenseFacts)

  datatype GroupExpense = GroupExpense(
    facts: ExpenseFacts, initial: ExpenseFacts, version: int, corrections: seq<AmountCorrection>,
    splits: seq<SplitChange>, movements: seq<Movement>, itemCorrections: seq<FinancialRecord>,
    adjustmentCorrections: seq<FinancialRecord>)

  /** The registration that would fix these facts. */
  function RegistrationOf(facts: ExpenseFacts): Registration {
    Registration(facts.id, facts.groupId, facts.sourceOwnerSubject, facts.occurredOn, facts.total,
                 facts.payerParticipantId, Map(facts.allocations, ParticipantOf))
  }

  // ---- checks on what the receipt tells ----

  function FactShapeCheck(fact: BundleFact): Check<ExpenseError> {
    Require(Nonempty(fact.receiptId) && Nonempty(fact.bundleId) && Nonempty(fact.expenseId) && Nonempty(fact.groupId) &&
            Nonempty(fact.uploaderSubject) && SafeInteger(fact.adjustedAmount) &&
            fact.adjustedAmount >= 0, BundleFactInvalid)
  }

  function CurrentFactCheck(e: GroupExpense, fact: BundleFact, expectedReceiptVersion: int,
                            actorSubject: string): Check<ExpenseError> {
    if FactShapeCheck(fact).Fail? then FactShapeCheck(fact)
    else if !(SafeInteger(fact.receiptVersion) && fact.receiptVersion > 0 &&
              expectedReceiptVersion == fact.receiptVersion)
      then Fail(ReceiptVersionConflict)
    else if !(fact.expenseId == e.facts.id && fact.groupId == e.facts.groupId &&
              fact.uploaderSubject == e.facts.sourceOwnerSubject && fact.occurredOn == e.facts.occurredOn &&
              fact.adjustedAmount == e.facts.total)
      then Fail(BundleFactMismatch)
    else if !Nonempty(actorSubject) then Fail(IdentifierEmpty)
    else Require(actorSubject == fact.uploaderSubject, ActorNotUploader)
  }

  function ExpenseVersionCheck(e: GroupExpense, expectedVersion: int): Check<ExpenseError> {
    Require(SafeInteger(expectedVersion) && expectedVersion == e.version, ExpenseVersionConflict)
  }

  function ExpenseInstant(at: Clock): Result<int, ExpenseError> {
    match at
    case Some(t) => Ok(t)
    case None => Err(ExpenseInstantInvalid)
  }

  // ---- changing the split ----

  datatype Split = Split(participantId: string, percentage: int)

  /** The percentage of a participant; the last mention counts. */
  function PercentageFor(splits: seq<Split>, id: string): int {
    if splits == [] then 0
    else if splits[|splits| - 1].participantId == id then splits[|splits| - 1].percentage
    else PercentageFor(splits[..|splits| - 1], id)
  }

  predicate SameSet(splits: seq<Split>, allocations: seq<Allocation>) {
    && |splits| == |allocations|
    && (forall i, j | 0 <= i < j < |splits| :: splits[i].participantId != splits[j].participantId)
    && forall a | a in allocations :: exists i :: 0 <= i < |splits| && splits[i].participantId == a.participantId
  }

  function Resplit(splits: seq<Split>): Allocation -> Participant {
    (a: Allocation) => Participant(a.participantId, a.joinOrder, PercentageFor(splits, a.participantId))
  }

  predicate SamePercentages(xs: seq<Allocation>, ys: seq<Allocation>) {
    |xs| == |ys| && forall k | 0 <= k < |xs| :: xs[k].percentage == ys[k].percentage
  }

  function ChangeBundleSplit(e: GroupExpense, expectedVersion: int, expectedReceiptVersion: int, fact: BundleFact,
                             actorSubject: string, changedAt: Clock, payer: string, splits: seq<Split>)
    : Result<GroupExpense, ExpenseError>
  {
    var check := ExpenseVersionCheck(e, expectedVersion);
    :- check;
    :- CurrentFactCheck(e, fact, expectedReceiptVersion, actorSubject);
    var at :- ExpenseInstant(changedAt);
    :- Require(SameSet(splits, e.facts.allocations), ParticipantSetMismatch);
    var calculated :- Register(RegistrationOf(e.facts).(payerParticipantId := payer,
                                                        participants := Map(e.facts.allocations, Resplit(splits))));
    if calculated.payerParticipantId == e.facts.payerParticipantId &&
      SamePercentages(calculated.allocations, e.facts.allocations)
    then Ok(e)
    else
      :- Require(SafeInteger(e.version + 1), ExpenseVersionOverflow);
      var after := e.facts.(payerParticipantId := calculated.payerParticipantId, allocations := calculated.allocations);
      Ok(e.(facts := after, version := e.version + 1,
            splits := e.splits + [SplitChange(actorSubject, at, e.version, e.version + 1, fact, e.facts, after)]))
  }

  // ---- following the receipt ----

  function ReflectMovement(e: GroupExpense, expectedVersion: int, expectedReceiptVersion: int, beforeFact: BundleFact,
                           afterFact: BundleFact, actorSubject: string,
                           changedAt: Clock): Result<GroupExpense, ExpenseError>
  {
    var check := ExpenseVersionCheck(e, expectedVersion);
    :- check;
    :- CurrentFactCheck(e, beforeFact, expectedReceiptVersion, actorSubject);
    :- FactShapeCheck(afterFact);
    :- Require(SafeInteger(afterFact.receiptVersion) && afterFact.receiptVersion == beforeFact.receiptVersion + 1,
               ReceiptVersionConflict);
    :- Require(afterFact.receiptId == beforeFact.receiptId && afterFact.bundleId == beforeFact.bundleId &&
               afterFact.expenseId == beforeFact.expenseId && afterFact.groupId == beforeFact.groupId &&
               afterFact.uploaderSubject == beforeFact.uploaderSubject && afterFact.occurredOn == beforeFact.occurredOn,
               BundleFactMismatch);
    var at :- ExpenseInstant(changedAt);
    :- Require(SafeInteger(e.version + 1), ExpenseVersionOverflow);
    var calculated :- Register(RegistrationOf(e.facts).(amount := afterFact.adjustedAmount));
    var after := e.facts.(total := calculated.total, allocations := calculated.allocations);
    Ok(e.(facts := after, version := e.version + 1,
          movements := e.movements + [Movement(actorSubject, at, e.version, e.version + 1, beforeFact, afterFact,
                                               e.facts, after)]))
  }

  function PairedWith(expenseId: string): Bundle -> bool {
    (b: Bundle) => b.expenseId == expenseId
  }

  function PairOf(bundles: seq<Bundle>, expenseId: string): (r: Option<nat>)
    ensures r.Some? ==> r.value < |bundles| && bundles[r.value].expenseId == expenseId
    ensures r.None? ==> forall b | b in bundles :: b.expenseId != expenseId
  {
    FirstWhere(bundles, PairedWith(expenseId))
  }

  function Among(ids: seq<string>): ConfirmedItem -> bool {
    (i: ConfirmedItem) => i.id in ids
  }

  /** What an item adds to a bundle with these item references. */
  function Within(ids: seq<string>): ConfirmedItem -> int {
    (i: ConfirmedItem) => if i.id in ids then i.adjustedAmount else 0
  }

  /** The adjusted amount of a bundle, summed in receipt order. */
  function BundleAmount(facts: ConfirmedFacts, b: Bundle): int {
    Sum(facts.items, Within(b.itemIds))
  }

  function OriginalById(items: seq<ConfirmedItem>, id: string): Option<int> {
    if items == [] then None
    else if items[0].id == id then Some(items[0].originalAmount)
    else OriginalById(items[1..], id)
  }

  function AdjustedById(items: seq<ConfirmedItem>, id: string): Option<int> {
    if items == [] then None
    else if items[0].id == id then Some(items[0].adjustedAmount)
    else AdjustedById(items[1..], id)
  }

  function AmountOfItem(items: seq<ConfirmedItem>): string -> int {
    (id: string) => if AdjustedById(items, id).Some? then AdjustedById(items, id).value else 0
  }

  predicate ItemAmountFound(items: seq<ConfirmedItem>, id: string) {
    var found := AdjustedById(items, id);
    found.Some? && 0 <= found.value <= MAX_SAFE
  }

  /** The sum an expense recomputes from the receipt's items, one reference after the other. */
  function PairAmount(facts: ConfirmedFacts, itemIds: seq<string>): Result<int, ExpenseError> {
    var check := Require(forall id | id in itemIds :: ItemAmountFound(facts.items, id), BundleFactInvalid);
    :- check;
    var amount := Sum(itemIds, AmountOfItem(facts.items));
    :- Require(amount <= MAX_SAFE, AmountInvalid);
    Ok(amount)
  }

  /** Same kind and target, and another amount exactly at the corrected position. */
  predicate OnlyCorrected(before: seq<Adjustment>, after: seq<Adjustment>, index: int) {
    && 0 <= index < |before| && |before| == |after|
    && forall n | 0 <= n < |before| ::
         && before[n].kind == after[n].kind && before[n].target == after[n].target
         && (n == index <==> before[n].amount != after[n].amount)
  }

  predicate SameOriginals(before: seq<ConfirmedItem>, after: seq<ConfirmedItem>) {
    && |before| == |after|
    && forall n | 0 <= n < |before| ::
         && before[n].id == after[n].id && before[n].originalAmount == after[n].originalAmount
         && before[n].name == after[n].name && before[n].categoryId == after[n].categoryId
  }

  predicate CorrectionPlausible(c: FinancialChange) {
    match c.correction
    case ItemAmount(itemId) =>
      var old', new' := OriginalById(c.before.items, itemId), OriginalById(c.after.items, itemId);
      old'.Some? && new'.Some? && old' != new'
    case AdjustmentAmount(index) =>
      OnlyCorrected(c.before.adjustments, c.after.adjustments, index) && SameOriginals(c.before.items, c.after.items)
  }

  function EntriesFor(cases: seq<AffectedCase>, bundleId: string): seq<AffectedCase> {
    if cases == [] then []
    else (if cases[0].bundleId == bundleId then [cases[0]] else []) + EntriesFor(cases[1..], bundleId)
  }

  predicate SelectedBundle(facts: ConfirmedFacts, bundleId: string) {
    exists s :: s in facts.selections && s.bundleId == bundleId
  }

  function CaseEntryCheck(e: GroupExpense, selected: bool, entry: AffectedCase): Check<ExpenseError> {
    if !selected then Require(entry.caseFact.None? && entry.expectedCaseVersion.None?, CaseFactMismatch)
    else match entry.caseFact
      case None => Fail(CaseFactMismatch)
      case Some(fact) =>
        if !(fact.expenseId == e.facts.id && fact.groupId == e.facts.groupId) then Fail(CaseFactMismatch)
        else if !CanonicalUuid(fact.caseId) then Fail(CaseReferenceInvalid)
        else if !(SafeInteger(fact.version) && fact.version > 0 && entry.expectedCaseVersion == Some(fact.version))
          then Fail(ExpenseCaseVersionConflict)
        else Require(fact.lifecycle == "Rejected", ExpenseNotCorrectable)
  }

  predicate SamePair(e: GroupExpense, c: FinancialChange, b: Bundle, b': Bundle) {
    && c.before.id == c.after.id
    && c.before.uploaderSubject == e.facts.sourceOwnerSubject && c.after.uploaderSubject == e.facts.sourceOwnerSubject
    && c.groupId == e.facts.groupId && b.groupId == c.groupId && b'.groupId == c.groupId
    && b.id == b'.id && b.itemIds == b'.itemIds
    && c.before.occurredOn == e.facts.occurredOn && c.after.occurredOn == e.facts.occurredOn
  }

  function FinancialActorCheck(e: GroupExpense, c: FinancialChange): Check<ExpenseError> {
    if !(Nonempty(c.actorSubject) && Nonempty(c.currentOwnerSubject)) then Fail(IdentifierEmpty)
    else if !(c.actorSubject == e.facts.sourceOwnerSubject || c.actorSubject == c.currentOwnerSubject)
      then Fail(ActorNotSourceOwnerOrOwner)
    else Require(Nonempty(c.reason), CorrectionReasonEmpty)
  }

  /** The new amount of the pair and the affected case of its bundle, when the change concerns this expense. */
  function FinancialCheck(e: GroupExpense, expectedVersion: int, expectedReceiptVersion: int, c: FinancialChange)
    : Result<(Bundle, int, AffectedCase), ExpenseError>
  {
    var check := ExpenseVersionCheck(e, expectedVersion);
    :- check;
    :- Require(SafeInteger(c.previousVersion) && c.previousVersion > 0 && expectedReceiptVersion == c.previousVersion &&
               SafeInteger(c.version) && c.version == c.previousVersion + 1, ReceiptVersionConflict);
    :- Require(PairOf(c.before.bundles, e.facts.id).Some? && PairOf(c.after.bundles, e.facts.id).Some?,
               BundleFactMismatch);
    var b, b' := c.before.bundles[PairOf(c.before.bundles, e.facts.id).value],
      c.after.bundles[PairOf(c.after.bundles, e.facts.id).value];
    :- Require(SamePair(e, c, b, b'), BundleFactMismatch);
    var beforeAmount :- PairAmount(c.before, b.itemIds);
    var afterAmount :- PairAmount(c.after, b'.itemIds);
    :- Require(beforeAmount == e.facts.total, BundleFactMismatch);
    :- FinancialActorCheck(e, c);
    :- Require(CorrectionPlausible(c), BundleFactMismatch);
    var entries := EntriesFor(c.affected, b.id);
    :- Require(|entries| == 1, BundleFactMismatch);
    :- CaseEntryCheck(e, SelectedBundle(c.before, b.id), entries[0]);
    :- Require(SafeInteger(e.version + 1), ExpenseVersionOverflow);
    Ok((b, afterAmount, entries[0]))
  }

  function ReflectFinancial(e: GroupExpense, expectedVersion: int, expectedReceiptVersion: int, c: FinancialChange)
    : Result<GroupExpense, ExpenseError>
  {
    var (b, afterAmount, entry) :- FinancialCheck(e, expectedVersion, expectedReceiptVersion, c);
    var calculated :- Register(RegistrationOf(e.facts).(amount := afterAmount));
    var after := e.facts.(total := calculated.total, allocations := calculated.allocations);
    var record := FinancialRecord(c.correction, c.actorSubject, c.at, c.reason, c.before.id, b.id, c.previousVersion,
                                  c.version,
                                  e.version, e.version + 1, entry.caseFact, e.facts, after);
    var next := e.(facts := after, version := e.version + 1);
    Ok(if c.correction.ItemAmount? then next.(itemCorrections := e.itemCorrections + [record])
       else next.(adjustmentCorrections := e.adjustmentCorrections + [record]))
  }
}
