/** The receipt: confirmed items and adjustments, bundles over the items, the permanent lock, and corrections. */
module ReceiptRoot {
  import opened Outcomes
  import opened Sequences
  import opened Text
  import opened ReceiptAdjustments
  import opened GroupExpenses
  import opened ExpenseRoot

  datatype CandidateItem = CandidateItem(id: string, name: string, amount: int, categoryId: string)

  datatype Draft = Draft(
    id: string, uploaderSubject: string, occurredOn: Option<string>, declaredTotal: int,
    items: seq<CandidateItem>, adjustments: seq<Adjustment>)

  datatype Snapshot = Unconfirmed(draft: Draft) | Confirmed(facts: ConfirmedFacts)

  datatype Action =
    | DraftEdited
    | Confirmation
    | BundleRegistered
    | BundleSnapshotSelected
    | BundleItemsMoved(fromBundleId: string, toBundleId: string, itemIds: seq<string>)
    | ItemCategoryCorrected(itemId: string, caseFact: Option<CaseFact>)
    | FinancialCorrected(correction: Correction, currentOwnerSubject: string, groupId: string, reason: string,
                         affected: seq<AffectedCase>)

  datatype Change = Change(
    action: Action, actorSubject: string, at: int, previousVersion: int, version: int, before: Snapshot,
    after: Snapshot)

  datatype Receipt = Receipt(current: Snapshot, version: int, changes: seq<Change>)

  datatype ReceiptError =
    | ReceiptIdInvalid | ActorReferenceInvalid | ReceiptNotDraft | ReceiptNotConfirmed | VersionConflict
    | ReceiptActorNotUploader | VersionOverflow | UtcInstantInvalid | ReceiptOccurredOnInvalid | TotalInvalid
    | ItemFactInvalid | CategoryReferenceInvalid | AdjustmentInvalid | ReceiptTotalMismatch | BundleIdInvalid
    | BundleAlreadyRegistered | BundleItemsInvalid | ItemAlreadyAssigned | BundleExpenseNotInitial
    | ExpenseAlreadyPaired | BundleExpenseMismatch | BundleGroupMismatch | ActorNotUploaderOrOwner
    | GroupReferenceInvalid | ItemNotFound | ItemNotBundled | ReceiptCorrectionReasonEmpty | AdjustmentIndexInvalid
    | AdjustmentNotBundled | AffectedCaseFactsMismatch | CaseFactUnexpected | CaseFactRequired
    | ReceiptCaseFactMismatch | ReceiptCaseReferenceInvalid | CaseVersionConflict | ItemCategoryNotCorrectable
    | ItemAmountNotCorrectable | AdjustmentAmountNotCorrectable | BundleMoveTargetInvalid | BundleWouldBeEmpty
    | BundleSnapshotReferenceInvalid | BundleNotFound | BundleSnapshotPairMismatch | BundleAlreadySelected
    | BundleEditingLocked

  function Instant(at: Clock): Result<int, ReceiptError> {
    match at
    case Some(t) => Ok(t)
    case None => Err(UtcInstantInvalid)
  }

  function UploaderOf(s: Snapshot): string {
    if s.Unconfirmed? then s.draft.uploaderSubject else s.facts.uploaderSubject
  }

  function VersionCheck(r: Receipt, expectedVersion: int): Check<ReceiptError> {
    Require(SafeInteger(expectedVersion) && expectedVersion == r.version, VersionConflict)
  }

  function UploaderCheck(r: Receipt, actorSubject: string): Check<ReceiptError> {
    if !Nonempty(actorSubject) then Fail(ActorReferenceInvalid)
    else Require(actorSubject == UploaderOf(r.current), ReceiptActorNotUploader)
  }

  function UploaderVersionCheck(r: Receipt, expectedVersion: int, actorSubject: string): Check<ReceiptError> {
    if VersionCheck(r, expectedVersion).Fail? then VersionCheck(r, expectedVersion)
    else if UploaderCheck(r, actorSubject).Fail? then UploaderCheck(r, actorSubject)
    else Require(SafeInteger(r.version + 1), VersionOverflow)
  }

  /** The next version of the receipt, with the step recorded. */
  function Advance(r: Receipt, after: Snapshot, action: Action, actorSubject: string, at: int): Receipt {
    Receipt(after, r.version + 1, r.changes + [Change(action, actorSubject, at, r.version, r.version + 1, r.current,
                                                      after)])
  }

  // ---- drafts ----

  function CreateDraft(d: Draft): Result<Receipt, ReceiptError> {
    var check := Require(Nonempty(d.id), ReceiptIdInvalid);
    :- check;
    :- Require(Nonempty(d.uploaderSubject), ActorReferenceInvalid);
    Ok(Receipt(Unconfirmed(d), 1, []))
  }

  function EditDraft(r: Receipt, expectedVersion: int, actorSubject: string, editedAt: Clock,
                     occurredOn: Option<string>,
                     declaredTotal: int, items: seq<CandidateItem>,
                     adjustments: seq<Adjustment>): Result<Receipt, ReceiptError>
  {
    var check := Require(r.current.Unconfirmed?, ReceiptNotDraft);
    :- check;
    :- VersionCheck(r, expectedVersion);
    :- UploaderCheck(r, actorSubject);
    var at :- Instant(editedAt);
    var after := Unconfirmed(r.current.draft.(occurredOn := occurredOn, declaredTotal := declaredTotal, items := items,
                                              adjustments := adjustments));
    if after == r.current then Ok(r)
    else
      :- Require(SafeInteger(r.version + 1), VersionOverflow);
      Ok(Advance(r, after, DraftEdited, actorSubject, at))
  }

  function ReviewedCheck(items: seq<CandidateItem>): Check<ReceiptError> {
    if items == [] then Pass
    else if !Nonempty(items[0].id) then Fail(ItemFactInvalid)
    else if !Nonempty(items[0].categoryId) then Fail(CategoryReferenceInvalid)
    else ReviewedCheck(items[1..])
  }

  function ReviewedInput(i: CandidateItem): Item {
    Item(i.id, i.amount)
  }

  function ConfirmedItems(items: seq<CandidateItem>, adjusted: seq<AdjustedItem>): (r: seq<ConfirmedItem>)
    requires |items| == |adjusted|
    ensures |r| == |items|
  {
    seq(|items|, k requires 0 <= k < |items| =>
      ConfirmedItem(items[k].id, items[k].name, items[k].categoryId, adjusted[k].originalAmount,
                    adjusted[k].adjustedAmount))
  }

  function Confirm(r: Receipt, expectedVersion: int, actorSubject: string, confirmedAt: Clock, occurredOn: string,
                   declaredTotal: int, items: seq<CandidateItem>,
                   adjustments: seq<Adjustment>): Result<Receipt, ReceiptError>
  {
    var check := Require(r.current.Unconfirmed?, ReceiptNotDraft);
    :- check;
    :- UploaderVersionCheck(r, expectedVersion, actorSubject);
    var at :- Instant(confirmedAt);
    :- Require(CalendarDay(occurredOn), ReceiptOccurredOnInvalid);
    :- Require(SafeInteger(declaredTotal) && declaredTotal >= 0, TotalInvalid);
    :- ReviewedCheck(items);
    match Calculate(Map(items, ReviewedInput), adjustments)
    case Err(_) => Err(AdjustmentInvalid)
    case Ok(calculation) =>
      :- Require(Sum(calculation.items, AdjustedAmountOf) == declaredTotal, ReceiptTotalMismatch);
      var after := ConfirmedFacts(r.current.draft.id, r.current.draft.uploaderSubject, occurredOn, declaredTotal,
                                  ConfirmedItems(items, calculation.items), adjustments, calculation.allocations, [],
                                  []);
      Ok(Advance(r, Confirmed(after), Confirmation, actorSubject, at))
  }

  // ---- bundles ----

  function BundleNamed(id: string): Bundle -> bool {
    (b: Bundle) => b.id == id
  }

  function FindBundle(bundles: seq<Bundle>, id: string): (r: Option<nat>)
    ensures r.Some? ==> r.value < |bundles| && bundles[r.value].id == id
    ensures r.None? ==> forall b | b in bundles :: b.id != id
  {
    FirstWhere(bundles, BundleNamed(id))
  }

  function BundleIdOf(b: Bundle): string { b.id }
  function ConfirmedIdOf(i: ConfirmedItem): string { i.id }
  function ConfirmedAmountOf(i: ConfirmedItem): int { i.adjustedAmount }

  /** A list of item references as the source accepts it: at least one, no blank, no repetition. */
  predicate ItemIdsWellFormed(ids: seq<string>) {
    ids != [] && (forall id | id in ids :: Nonempty(id)) && forall i, j | 0 <= i < j < |ids| :: ids[i] != ids[j]
  }

  predicate Assigned(bundles: seq<Bundle>, ids: seq<string>) {
    exists b :: b in bundles && exists id :: id in b.itemIds && id in ids
  }

  predicate PairedExpense(bundles: seq<Bundle>, expenseId: string) {
    exists b :: b in bundles && b.expenseId == expenseId
  }

  function RegisterBundle(r: Receipt, expectedVersion: int, actorSubject: string, registeredAt: Clock, bundleId: string,
                          itemIds: seq<string>, expense: GroupExpense): Result<Receipt, ReceiptError>
  {
    var check := Require(r.current.Confirmed?, ReceiptNotConfirmed);
    :- check;
    var before := r.current.facts;
    :- UploaderVersionCheck(r, expectedVersion, actorSubject);
    var at :- Instant(registeredAt);
    :- Require(Nonempty(bundleId), BundleIdInvalid);
    :- Require(FindBundle(before.bundles, bundleId).None?, BundleAlreadyRegistered);
    :- Require(ItemIdsWellFormed(itemIds), BundleItemsInvalid);
    :- Require(|Filter(before.items, Among(itemIds))| == |itemIds|, BundleItemsInvalid);
    :- Require(!Assigned(before.bundles, itemIds), ItemAlreadyAssigned);
    :- Require(expense.version == 1 && expense.corrections == [], BundleExpenseNotInitial);
    :- Require(!PairedExpense(before.bundles, expense.facts.id), ExpenseAlreadyPaired);
    :- Require(expense.facts.sourceOwnerSubject == before.uploaderSubject &&
               expense.facts.occurredOn == before.occurredOn &&
               expense.facts.total == Sum(Filter(before.items, Among(itemIds)), ConfirmedAmountOf),
               BundleExpenseMismatch);
    :- Require(before.bundles == [] || before.bundles[0].groupId == expense.facts.groupId, BundleGroupMismatch);
    var bundle := Bundle(bundleId, itemIds, expense.facts.id, expense.facts.groupId);
    Ok(Advance(r, Confirmed(before.(bundles := before.bundles + [bundle])), BundleRegistered, actorSubject, at))
  }

  /** The bundle of a confirmed receipt that its uploader may still edit. */
  function EditableBundle(r: Receipt, expectedVersion: int, actorSubject: string,
                          bundleId: string): (result: Result<nat, ReceiptError>)
    ensures result.Ok? ==> r.current.Confirmed? && result.value < |r.current.facts.bundles| &&
                           r.current.facts.bundles[result.value].id == bundleId
  {
    var check := Require(r.current.Confirmed?, ReceiptNotConfirmed);
    :- check;
    :- VersionCheck(r, expectedVersion);
    :- UploaderCheck(r, actorSubject);
    :- Require(Nonempty(bundleId), BundleIdInvalid);
    match FindBundle(r.current.facts.bundles, bundleId)
    case None => Err(BundleNotFound)
    case Some(k) =>
      :- Require(!SelectedBundle(r.current.facts, bundleId), BundleEditingLocked);
      Ok(k)
  }

  function BundleEditingFacts(r: Receipt, expectedVersion: int, actorSubject: string,
                              bundleId: string): Result<BundleFact, ReceiptError> {
    var k :- EditableBundle(r, expectedVersion, actorSubject, bundleId);
    var facts := r.current.facts;
    Ok(BundleFact(facts.id, bundleId, facts.bundles[k].expenseId, facts.bundles[k].groupId, r.version,
                  facts.uploaderSubject,
                  facts.occurredOn, BundleAmount(facts, facts.bundles[k])))
  }

  /** The listed items, in receipt order. */
  function InReceiptOrder(items: seq<ConfirmedItem>, ids: seq<string>): seq<string> {
    Map(Filter(items, Among(ids)), ConfirmedIdOf)
  }

  function Remaining(ids: seq<string>, moved: seq<string>): (r: seq<string>)
    ensures forall id :: id in r <==> id in ids && id !in moved
  {
    if ids == [] then [] else (if ids[0] in moved then [] else [ids[0]]) + Remaining(ids[1..], moved)
  }

  function Moved(facts: ConfirmedFacts, i: nat, j: nat, itemIds: seq<string>): ConfirmedFacts
    requires i < |facts.bundles| && j < |facts.bundles|
  {
    var from, to := facts.bundles[i], facts.bundles[j];
    facts.(bundles := facts.bundles[i := from.(itemIds := InReceiptOrder(facts.items,
      Remaining(from.itemIds, itemIds)))]
                                   [j := to.(itemIds := InReceiptOrder(facts.items, to.itemIds + itemIds))])
  }

  function MoveBundleItems(r: Receipt, expectedVersion: int, actorSubject: string, movedAt: Clock, fromBundleId: string,
                           toBundleId: string, itemIds: seq<string>): Result<Receipt, ReceiptError>
  {
    var i :- EditableBundle(r, expectedVersion, actorSubject, fromBundleId);
    var j :- EditableBundle(r, expectedVersion, actorSubject, toBundleId);
    var facts := r.current.facts;
    :- Require(fromBundleId != toBundleId, BundleMoveTargetInvalid);
    :- Require(SafeInteger(r.version + 1), VersionOverflow);
    var at :- Instant(movedAt);
    :- Require(ItemIdsWellFormed(itemIds), BundleItemsInvalid);
    :- Require(forall id | id in itemIds :: id in facts.bundles[i].itemIds, BundleItemsInvalid);
    :- Require(|itemIds| < |facts.bundles[i].itemIds|, BundleWouldBeEmpty);
    Ok(Advance(r, Confirmed(Moved(facts, i, j, itemIds)),
               BundleItemsMoved(fromBundleId, toBundleId, InReceiptOrder(facts.items, itemIds)), actorSubject, at))
  }

  function Selecting(bundleId: string): Selection -> bool {
    (x: Selection) => x.bundleId == bundleId
  }

  function SelectionOf(selections: seq<Selection>, bundleId: string): (r: Option<Selection>)
    ensures r.Some? ==> r.value in selections && r.value.bundleId == bundleId
    ensures r.None? ==> forall s | s in selections :: s.bundleId != bundleId
  {
    Find(selections, Selecting(bundleId))
  }

  function RecordSelection(r: Receipt, expectedVersion: int, selection: Selection,
                           selectedAt: Clock): Result<Receipt, ReceiptError> {
    var check := Require(r.current.Confirmed?, ReceiptNotConfirmed);
    :- check;
    :- VersionCheck(r, expectedVersion);
    :- Require(Nonempty(selection.bundleId), BundleIdInvalid);
    :- Require(Nonempty(selection.groupId) && CanonicalUuid(selection.caseId) && CanonicalUuid(selection.snapshotId) &&
               Nonempty(selection.expenseId), BundleSnapshotReferenceInvalid);
    :- Require(Nonempty(selection.actorSubject), ActorReferenceInvalid);
    var at :- Instant(selectedAt);
    var facts, fixed := r.current.facts, selection.(selectedAt := at);
    match FindBundle(facts.bundles, selection.bundleId)
    case None => Err(BundleNotFound)
    case Some(k) =>
      :- Require(facts.bundles[k].expenseId == selection.expenseId && facts.bundles[k].groupId == selection.groupId,
                 BundleSnapshotPairMismatch);
      var first := SelectionOf(facts.selections, selection.bundleId);
      if first.Some? then if first.value == fixed then Ok(r) else Err(BundleAlreadySelected)
      else
        :- Require(SafeInteger(r.version + 1), VersionOverflow);
        Ok(Advance(r, Confirmed(facts.(selections := facts.selections + [fixed])), BundleSnapshotSelected,
                   selection.actorSubject, at))
  }

  // ---- corrections ----

  function CorrectionActorCheck(facts: ConfirmedFacts, actorSubject: string,
                                currentOwnerSubject: string): Check<ReceiptError> {
    if !(Nonempty(actorSubject) && Nonempty(currentOwnerSubject)) then Fail(ActorReferenceInvalid)
    else Require(actorSubject == facts.uploaderSubject || actorSubject == currentOwnerSubject, ActorNotUploaderOrOwner)
  }

  /** An unselected bundle needs no case; a selected one needs the matching rejected case at the expected version. */
  function CorrectionCaseCheck(facts: ConfirmedFacts, b: Bundle, expectedCaseVersion: Option<int>,
                               fact: Option<CaseFact>,
                               notCorrectable: ReceiptError): Check<ReceiptError>
  {
    if !SelectedBundle(facts, b.id) then Require(fact.None? && expectedCaseVersion.None?, CaseFactUnexpected)
    else match fact
      case None => Fail(CaseFactRequired)
      case Some(f) =>
        if !(f.groupId == b.groupId && f.expenseId == b.expenseId) then Fail(ReceiptCaseFactMismatch)
        else if !CanonicalUuid(f.caseId) then Fail(ReceiptCaseReferenceInvalid)
        else if !(SafeInteger(f.version) && f.version > 0 && expectedCaseVersion == Some(f.version))
          then Fail(CaseVersionConflict)
        else Require(f.lifecycle == "Rejected", notCorrectable)
  }

  function FindItem(items: seq<ConfirmedItem>, id: string): (r: Option<nat>)
    ensures r.Some? ==> r.value < |items| && items[r.value].id == id
    ensures r.None? ==> forall i | i in items :: i.id != id
  {
    FirstWhere(items, Among([id]))
  }

  function Holding(itemId: string): Bundle -> bool {
    (b: Bundle) => itemId in b.itemIds
  }

  function BundleHolding(bundles: seq<Bundle>, itemId: string): (r: Option<nat>)
    ensures r.Some? ==> r.value < |bundles| && itemId in bundles[r.value].itemIds
    ensures r.None? ==> forall b | b in bundles :: itemId !in b.itemIds
  {
    FirstWhere(bundles, Holding(itemId))
  }

  function CorrectItemCategory(r: Receipt, expectedVersion: int, actorSubject: string, currentOwnerSubject: string,
                               correctedAt: Clock, groupId: string, itemId: string, categoryId: string,
                               expectedCaseVersion: Option<int>,
                               caseFact: Option<CaseFact>): Result<Receipt, ReceiptError>
  {
    var check := Require(r.current.Confirmed?, ReceiptNotConfirmed);
    :- check;
    var facts := r.current.facts;
    :- VersionCheck(r, expectedVersion);
    :- CorrectionActorCheck(facts, actorSubject, currentOwnerSubject);
    var at :- Instant(correctedAt);
    :- Require(Nonempty(groupId), GroupReferenceInvalid);
    :- Require(Nonempty(itemId), ItemFactInvalid);
    :- Require(FindItem(facts.items, itemId).Some?, ItemNotFound);
    var k := FindItem(facts.items, itemId).value;
    :- Require(BundleHolding(facts.bundles, itemId).Some?, ItemNotBundled);
    var b := facts.bundles[BundleHolding(facts.bundles, itemId).value];
    :- Require(groupId == b.groupId, BundleGroupMismatch);
    :- Require(Nonempty(categoryId), CategoryReferenceInvalid);
    :- CorrectionCaseCheck(facts, b, expectedCaseVersion, caseFact, ItemCategoryNotCorrectable);
    if facts.items[k].categoryId == categoryId then Ok(r)
    else
      :- Require(SafeInteger(r.version + 1), VersionOverflow);
      Ok(Advance(r, Confirmed(facts.(items := facts.items[k := facts.items[k].(categoryId := categoryId)])),
                 ItemCategoryCorrected(itemId, caseFact), actorSubject, at))
  }

  function OriginalInput(i: ConfirmedItem): Item {
    Item(i.id, i.originalAmount)
  }

  function Inputs(items: seq<ConfirmedItem>): (r: seq<Item>)
    ensures |r| == |items|
  {
    Map(items, OriginalInput)
  }

  /** The items with the amounts of a new calculation. */
  function Recalculated(items: seq<ConfirmedItem>, adjusted: seq<AdjustedItem>): (r: seq<ConfirmedItem>)
    requires |items| == |adjusted|
    ensures |r| == |items|
    ensures forall k | 0 <= k < |r| ::
            r[k] == items[k].(originalAmount := adjusted[k].originalAmount,
                              adjustedAmount := adjusted[k].adjustedAmount)
  {
    seq(|items|, k requires 0 <= k < |items| =>
      items[k].(originalAmount := adjusted[k].originalAmount, adjustedAmount := adjusted[k].adjustedAmount))
  }

  /** What adjustment `j` gives item `k`. */
  function Given(allocations: seq<Spread>, j: nat, k: nat): int {
    if j < |allocations| then AddedTo(k)(allocations[j]) else 0
  }

  /** Some financial fact of item `k` differs in the new calculation, or the item is included anyway. */
  predicate Touched(facts: ConfirmedFacts, calculation: Calculation, included: set<string>, k: nat)
    requires |calculation.items| == |facts.items| && k < |facts.items|
  {
    || facts.items[k].id in included
    || facts.items[k].originalAmount != calculation.items[k].originalAmount
    || facts.items[k].adjustedAmount != calculation.items[k].adjustedAmount
    || exists j ::
       0 <= j < |facts.allocations| && Given(facts.allocations, j, k) != Given(calculation.allocations, j, k)
  }

  predicate TouchedBundle(facts: ConfirmedFacts, calculation: Calculation, included: set<string>, b: Bundle)
    requires |calculation.items| == |facts.items|
  {
    exists k :: 0 <= k < |facts.items| && facts.items[k].id in b.itemIds && Touched(facts, calculation, included, k)
  }

  function AffectedBundles(facts: ConfirmedFacts, calculation: Calculation, included: set<string>,
                           bundles: seq<Bundle>): (r: seq<Bundle>)
    requires |calculation.items| == |facts.items|
    ensures forall b :: b in r <==> b in bundles && TouchedBundle(facts, calculation, included, b)
  {
    if bundles == [] then []
    else (if TouchedBundle(facts, calculation, included, bundles[0]) then [bundles[0]] else [])
         + AffectedBundles(facts, calculation, included, bundles[1..])
  }

  function CaseOf(bundleId: string): AffectedCase -> bool {
    (x: AffectedCase) => x.bundleId == bundleId
  }

  function FactFor(cases: seq<AffectedCase>, bundleId: string): (r: Option<AffectedCase>)
    ensures r.Some? ==> r.value in cases && r.value.bundleId == bundleId
    ensures r.None? ==> forall f | f in cases :: f.bundleId != bundleId
  {
    Find(cases, CaseOf(bundleId))
  }

  /** Exactly the affected bundles are named, each once. */
  predicate CoversAffected(cases: seq<AffectedCase>, bundles: seq<Bundle>) {
    && |cases| == |bundles|
    && (forall f | f in cases :: exists b :: b in bundles && b.id == f.bundleId)
    && forall i, j | 0 <= i < j < |cases| :: cases[i].bundleId != cases[j].bundleId
  }

  function AffectedCheck(facts: ConfirmedFacts, bundles: seq<Bundle>, groupId: string, cases: seq<AffectedCase>,
                         notCorrectable: ReceiptError): Check<ReceiptError>
  {
    if bundles == [] then Pass
    else if bundles[0].groupId != groupId then Fail(BundleGroupMismatch)
    else match FactFor(cases, bundles[0].id)
      case None => Fail(AffectedCaseFactsMismatch)
      case Some(f) =>
        var check := CorrectionCaseCheck(facts, bundles[0], f.expectedCaseVersion, f.caseFact, notCorrectable);
        if check.Fail? then check else AffectedCheck(facts, bundles[1..], groupId, cases, notCorrectable)
  }

  /** The case facts in the order of the bundles. */
  function InBundleOrder(bundles: seq<Bundle>, cases: seq<AffectedCase>): seq<AffectedCase> {
    if bundles == [] then []
    else (match FactFor(cases, bundles[0].id) case Some(f) => [f] case None => []) + InBundleOrder(bundles[1..], cases)
  }

  datatype FinancialInput = FinancialInput(declaredTotal: int, groupId: string, cases: seq<AffectedCase>)

  function FinancialCandidate(facts: ConfirmedFacts, input: FinancialInput, items: seq<Item>,
                              adjustments: seq<Adjustment>,
                              included: set<string>, notCorrectable: ReceiptError)
    : Result<(ConfirmedFacts, seq<AffectedCase>), ReceiptError>
    requires |items| == |facts.items|
  {
    var check := Require(SafeInteger(input.declaredTotal) && input.declaredTotal >= 0, TotalInvalid);
    :- check;
    match Calculate(items, adjustments)
    case Err(_) => Err(AdjustmentInvalid)
    case Ok(calculation) =>
      :- Require(Sum(calculation.items, AdjustedAmountOf) == input.declaredTotal, ReceiptTotalMismatch);
      var affected := AffectedBundles(facts, calculation, included, facts.bundles);
      :- Require(affected != [], AdjustmentNotBundled);
      :- Require(CoversAffected(input.cases, affected), AffectedCaseFactsMismatch);
      :- AffectedCheck(facts, affected, input.groupId, input.cases, notCorrectable);
      Ok((facts.(declaredTotal := input.declaredTotal, adjustments := adjustments,
                 items := Recalculated(facts.items, calculation.items), allocations := calculation.allocations),
          InBundleOrder(affected, input.cases)))
  }

  function CorrectItemAmount(r: Receipt, expectedVersion: int, actorSubject: string, currentOwnerSubject: string,
                             correctedAt: Clock, reason: string, itemId: string, amount: int, input: FinancialInput)
    : Result<Receipt, ReceiptError>
  {
    var check := Require(r.current.Confirmed?, ReceiptNotConfirmed);
    :- check;
    var facts := r.current.facts;
    :- VersionCheck(r, expectedVersion);
    :- CorrectionActorCheck(facts, actorSubject, currentOwnerSubject);
    var at :- Instant(correctedAt);
    :- Require(Nonempty(reason), ReceiptCorrectionReasonEmpty);
    :- Require(Nonempty(input.groupId), GroupReferenceInvalid);
    :- Require(Nonempty(itemId), ItemFactInvalid);
    :- Require(FindItem(facts.items, itemId).Some?, ItemNotFound);
    var k := FindItem(facts.items, itemId).value;
    :- Require(BundleHolding(facts.bundles, itemId).Some?, ItemNotBundled);
    :- Require(facts.bundles[BundleHolding(facts.bundles, itemId).value].groupId == input.groupId, BundleGroupMismatch);
    var candidate :- FinancialCandidate(facts, input, Inputs(facts.items)[k := Item(itemId, amount)], facts.adjustments,
                                        {itemId}, ItemAmountNotCorrectable);
    if facts.items[k].originalAmount == amount then Ok(r)
    else
      :- Require(SafeInteger(r.version + 1), VersionOverflow);
      Ok(Advance(r, Confirmed(candidate.0),
                 FinancialCorrected(ItemAmount(itemId), currentOwnerSubject, input.groupId, reason, candidate.1),
                 actorSubject, at))
  }

  /** The items that carry something of an adjustment whose amount stays the same. */
  function Footprint(facts: ConfirmedFacts, index: nat, same: bool): set<string> {
    set k | 0 <= k < |facts.items| && same && Given(facts.allocations, index, k) != 0 :: facts.items[k].id
  }

  function CorrectAdjustmentAmount(r: Receipt, expectedVersion: int, actorSubject: string, currentOwnerSubject: string,
                                   correctedAt: Clock, reason: string, index: int, amount: int, input: FinancialInput)
    : Result<Receipt, ReceiptError>
  {
    var check := Require(r.current.Confirmed?, ReceiptNotConfirmed);
    :- check;
    var facts := r.current.facts;
    :- VersionCheck(r, expectedVersion);
    :- CorrectionActorCheck(facts, actorSubject, currentOwnerSubject);
    var at :- Instant(correctedAt);
    :- Require(Nonempty(reason), ReceiptCorrectionReasonEmpty);
    :- Require(Nonempty(input.groupId), GroupReferenceInvalid);
    :- Require(0 <= index < |facts.adjustments|, AdjustmentIndexInvalid);
    var same := facts.adjustments[index].amount == amount;
    var candidate :- FinancialCandidate(facts, input, Inputs(facts.items),
                                        facts.adjustments[index := facts.adjustments[index].(amount := amount)],
                                        Footprint(facts, index, same), AdjustmentAmountNotCorrectable);
    if same then Ok(r)
    else
      :- Require(SafeInteger(r.version + 1), VersionOverflow);
      Ok(Advance(r, Confirmed(candidate.0),
                 FinancialCorrected(AdjustmentAmount(index), currentOwnerSubject, input.groupId, reason, candidate.1),
                 actorSubject, at))
  }

  predicate HasCompleteBundleRegistration(r: Receipt) {
    r.current.Confirmed? && r.current.facts.bundles != [] &&
    forall i | i in r.current.facts.items :: exists b :: b in r.current.facts.bundles && i.id in b.itemIds
  }

  // ---- all operations ----

  datatype Operation =
    | OpEditDraft(expectedVersion: int, actorSubject: string, at: Clock, candidateDay: Option<string>,
                  declaredTotal: int,
                  items: seq<CandidateItem>, adjustments: seq<Adjustment>)
    | OpConfirm(expectedVersion: int, actorSubject: string, at: Clock, occurredOn: string, declaredTotal: int,
                items: seq<CandidateItem>, adjustments: seq<Adjustment>)
    | OpRegisterBundle(expectedVersion: int, actorSubject: string, at: Clock, bundleId: string, itemIds: seq<string>,
                       expense: GroupExpense)
    | OpMove(expectedVersion: int, actorSubject: string, at: Clock, fromBundleId: string, toBundleId: string,
             itemIds: seq<string>)
    | OpSelect(expectedVersion: int, selection: Selection, at: Clock)
    | OpCategory(expectedVersion: int, actorSubject: string, owner: string, at: Clock, groupId: string, itemId: string,
                 categoryId: string, expectedCaseVersion: Option<int>, caseFact: Option<CaseFact>)
    | OpItemAmount(expectedVersion: int, actorSubject: string, owner: string, at: Clock, reason: string, itemId: string,
                   amount: int, input: FinancialInput)
    | OpAdjustmentAmount(expectedVersion: int, actorSubject: string, owner: string, at: Clock, reason: string,
                         index: int,
                         amount: int, input: FinancialInput)

  function Apply(r: Receipt, op: Operation): Result<Receipt, ReceiptError> {
    match op
    case OpEditDraft(v, a, at, day, total, items, adjustments) => EditDraft(r, v, a, at, day, total, items, adjustments)
    case OpConfirm(v, a, at, day, total, items, adjustments) => Confirm(r, v, a, at, day, total, items, adjustments)
    case OpRegisterBundle(v, a, at, b, ids, e) => RegisterBundle(r, v, a, at, b, ids, e)
    case OpMove(v, a, at, from, to, ids) => MoveBundleItems(r, v, a, at, from, to, ids)
    case OpSelect(v, s, at) => RecordSelection(r, v, s, at)
    case OpCategory(v, a, o, at, g, i, c, cv, f) => CorrectItemCategory(r, v, a, o, at, g, i, c, cv, f)
    case OpItemAmount(v, a, o, at, reason, i, n, input) => CorrectItemAmount(r, v, a, o, at, reason, i, n, input)
    case OpAdjustmentAmount(v, a, o, at, reason, i, n, input) =>
      CorrectAdjustmentAmount(r, v, a, o, at, reason, i, n, input)
  }
}
