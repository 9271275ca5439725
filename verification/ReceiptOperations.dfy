/** Every operation on a receipt: when it is accepted, and the one receipt that follows. */
module ReceiptOperations {
  import opened ReceiptAdjustments
  import opened ExpenseRoot
  import opened ReceiptRoot
  import opened ReceiptInvariants
  import opened ReceiptOutcomes
  import opened ReceiptCorrections

  /** When an operation on the receipt is accepted. */
  ghost predicate May(r: Receipt, op: Operation) {
    match op
    case OpEditDraft(v, a, at, day, total, items, adjustments) =>
      && r.current.Unconfirmed? && Addressed(r, v, a) && at.Some?
      && (Redrafted(r.current.draft, day, total, items, adjustments) == r.current.draft || MoreVersions(r))
    case OpConfirm(v, a, at, day, total, items, adjustments) => MayConfirm(r, v, a, at, day, total, items, adjustments)
    case OpRegisterBundle(v, a, at, b, ids, e) =>
      && r.current.Confirmed? && Addressed(r, v, a) && MoreVersions(r) && at.Some?
      && MayBundle(r.current.facts, b, ids, e)
    case OpMove(v, a, at, from, to, ids) =>
      && r.current.Confirmed? && Addressed(r, v, a) && MoreVersions(r) && at.Some?
      && MayMoveItems(r.current.facts, from, to, ids)
    case OpSelect(v, s, at) => MaySelect(r, v, s, at)
    case OpCategory(v, a, o, at, g, i, category, expected, fact) =>
      MayRevise(r, v, a, o) && at.Some? && exists item, b ::
        MayRecategorise(r.current.facts, g, i, category, expected, fact, item, b) &&
        (item.categoryId == category || MoreVersions(r))
    case OpItemAmount(v, a, o, at, reason, i, n, input) =>
      MayRevise(r, v, a, o) && at.Some? && exists item, b, items, c ::
        MayRevalueItem(r.current.facts, reason, i, n, input, item, b, items, c) &&
        (item.originalAmount == n || MoreVersions(r))
    case OpAdjustmentAmount(v, a, o, at, reason, i, n, input) =>
      MayRevise(r, v, a, o) && at.Some? && exists items, adjustments, included, c ::
        MayRevalueAdjustment(r.current.facts, reason, i, n, input, items, adjustments, included, c) &&
        (AlreadyAt(r.current.facts, i, n) || MoreVersions(r))
  }

  /** The receipt an accepted operation leads to. */
  ghost predicate Becomes(r: Receipt, op: Operation, r': Receipt) {
    match op
    case OpEditDraft(_, a, at, day, total, items, adjustments) =>
      r.current.Unconfirmed? &&
      var draft := Redrafted(r.current.draft, day, total, items, adjustments);
      if draft == r.current.draft then r' == r else Noted(r, DraftEdited, a, at, Unconfirmed(draft), r')
    case OpConfirm(_, a, at, day, total, items, adjustments) =>
      && r.current.Unconfirmed? && r'.current.Confirmed?
      && ConfirmedAs(r.current.draft, day, total, items, adjustments, r'.current.facts)
      && Noted(r, Confirmation, a, at, r'.current, r')
    case OpRegisterBundle(_, a, at, b, ids, e) =>
      && r.current.Confirmed?
      && Noted(r, BundleRegistered, a, at, Confirmed(Bundled(r.current.facts, b, ids, e)), r')
    case OpMove(_, a, at, from, to, ids) =>
      && r.current.Confirmed? && r'.current.Confirmed?
      && ItemsMoved(r.current.facts, from, to, ids, r'.current.facts)
      && exists names :: InOrderOf(r.current.facts.items, ids, names) &&
                         Noted(r, BundleItemsMoved(from, to, names), a, at, r'.current, r')
    case OpSelect(_, s, at) =>
      && r.current.Confirmed? && at.Some?
      && var f, fixed := r.current.facts, s.(selectedAt := at.value);
         if fixed in f.selections then r' == r
         else Noted(r, BundleSnapshotSelected, s.actorSubject, at,
                    Confirmed(f.(selections := f.selections + [fixed])), r')
    case OpCategory(_, a, _, at, _, i, category, _, fact) =>
      && r.current.Confirmed?
      && forall item, b | InBundle(r.current.facts, i, item, b) ::
           if item.categoryId == category then r' == r
           else
             && r'.current.Confirmed? && Recategorised(r.current.facts, i, category, r'.current.facts)
             && Noted(r, ItemCategoryCorrected(i, fact), a, at, r'.current, r')
    case OpItemAmount(_, a, o, at, reason, i, n, input) =>
      && r.current.Confirmed?
      && forall item, b, items, c | MayRevalueItem(r.current.facts, reason, i, n, input, item, b, items, c) ::
           if item.originalAmount == n then r' == r
           else Corrected(r, ItemAmount(i), a, o, at, reason, r.current.facts.adjustments, input, c, r')
    case OpAdjustmentAmount(_, a, o, at, reason, i, n, input) =>
      && r.current.Confirmed?
      && forall items, adjustments, included, c |
           MayRevalueAdjustment(r.current.facts, reason, i, n, input, items, adjustments, included, c) ::
           if AlreadyAt(r.current.facts, i, n) then r' == r
           else Corrected(r, AdjustmentAmount(i), a, o, at, reason, adjustments, input, c, r')
  }

  lemma EditingExact(r: Receipt, op: Operation)
    requires op.OpEditDraft?
    ensures Apply(r, op).Ok? <==> May(r, op)
    ensures Apply(r, op).Ok? ==> Becomes(r, op, Apply(r, op).value)
  {
    EditExact(r, op.expectedVersion, op.actorSubject, op.at, op.candidateDay, op.declaredTotal, op.items,
              op.adjustments);
    hide EditDraft, Addressed, Noted, Redrafted;
  }

  lemma ConfirmingExact(r: Receipt, op: Operation)
    requires op.OpConfirm?
    ensures Apply(r, op).Ok? <==> May(r, op)
    ensures Apply(r, op).Ok? ==> Becomes(r, op, Apply(r, op).value)
  {
    ConfirmExact(r, op.expectedVersion, op.actorSubject, op.at, op.occurredOn, op.declaredTotal, op.items,
                 op.adjustments);
    ConfirmsDraft(r, op.expectedVersion, op.actorSubject, op.at, op.occurredOn, op.declaredTotal, op.items,
                  op.adjustments);
    hide Confirm, MayConfirm, ConfirmedAs, Noted;
  }

  lemma ConfirmsDraft(r: Receipt, v: int, a: string, at: Clock, day: string, total: int, items: seq<CandidateItem>,
                      adjustments: seq<Adjustment>)
    ensures MayConfirm(r, v, a, at, day, total, items, adjustments) ==> r.current.Unconfirmed?
  {
  }

  lemma RegisterExact(r: Receipt, op: Operation)
    requires ReceiptSound(r) && op.OpRegisterBundle?
    ensures Apply(r, op).Ok? <==> May(r, op)
    ensures Apply(r, op).Ok? ==> Becomes(r, op, Apply(r, op).value)
  {
    BundleExact(r, op.expectedVersion, op.actorSubject, op.at, op.bundleId, op.itemIds, op.expense);
    hide RegisterBundle, Addressed, MayBundle, Noted, ReceiptSound, Bundled;
  }

  lemma MovingExact(r: Receipt, op: Operation)
    requires ReceiptSound(r) && op.OpMove?
    ensures Apply(r, op).Ok? <==> May(r, op)
    ensures Apply(r, op).Ok? ==> Becomes(r, op, Apply(r, op).value)
  {
    MoveExact(r, op.expectedVersion, op.actorSubject, op.at, op.fromBundleId, op.toBundleId, op.itemIds);
    hide MoveBundleItems, Addressed, MayMoveItems, ItemsMoved, InOrderOf, Noted, ReceiptSound;
  }

  lemma SelectingExact(r: Receipt, op: Operation)
    requires ReceiptSound(r) && op.OpSelect?
    ensures Apply(r, op).Ok? <==> May(r, op)
    ensures Apply(r, op).Ok? ==> Becomes(r, op, Apply(r, op).value)
  {
    SelectExact(r, op.expectedVersion, op.selection, op.at);
    SelectsConfirmed(r, op.expectedVersion, op.selection, op.at);
    hide RecordSelection, MaySelect, Noted, ReceiptSound;
  }

  lemma SelectsConfirmed(r: Receipt, v: int, s: Selection, at: Clock)
    ensures MaySelect(r, v, s, at) ==> r.current.Confirmed? && at.Some?
  {
    hide Selects;
  }

  lemma RevisionsConfirmed(r: Receipt, v: int, a: string, o: string)
    ensures MayRevise(r, v, a, o) ==> r.current.Confirmed?
  {
  }

  lemma RecategorisingExact(r: Receipt, op: Operation)
    requires ReceiptSound(r) && op.OpCategory?
    ensures Apply(r, op).Ok? <==> May(r, op)
    ensures Apply(r, op).Ok? ==> Becomes(r, op, Apply(r, op).value)
  {
    RevisionsConfirmed(r, op.expectedVersion, op.actorSubject, op.owner);
    CategoryExact(r, op.expectedVersion, op.actorSubject, op.owner, op.at, op.groupId, op.itemId, op.categoryId,
                  op.expectedCaseVersion, op.caseFact);
    hide CorrectItemCategory, MayRevise, MayRecategorise, InBundle, Recategorised, Noted, ReceiptSound;
  }

  lemma ItemRevaluingExact(r: Receipt, op: Operation)
    requires ReceiptSound(r) && op.OpItemAmount?
    ensures Apply(r, op).Ok? <==> May(r, op)
    ensures Apply(r, op).Ok? ==> Becomes(r, op, Apply(r, op).value)
  {
    RevisionsConfirmed(r, op.expectedVersion, op.actorSubject, op.owner);
    ItemAmountExact(r, op.expectedVersion, op.actorSubject, op.owner, op.at, op.reason, op.itemId, op.amount, op.input);
    hide CorrectItemAmount, MayRevise, MayRevalueItem, Corrected, ReceiptSound;
  }

  lemma AdjustmentRevaluingExact(r: Receipt, op: Operation)
    requires ReceiptSound(r) && op.OpAdjustmentAmount?
    ensures Apply(r, op).Ok? <==> May(r, op)
    ensures Apply(r, op).Ok? ==> Becomes(r, op, Apply(r, op).value)
  {
    RevisionsConfirmed(r, op.expectedVersion, op.actorSubject, op.owner);
    AdjustmentAmountExact(r, op.expectedVersion, op.actorSubject, op.owner, op.at, op.reason, op.index, op.amount,
                          op.input);
    hide CorrectAdjustmentAmount, MayRevise, MayRevalueAdjustment, Corrected, AlreadyAt, ReceiptSound;
  }

  /** An operation on a sound receipt is accepted exactly when it may be done, and does exactly what it says. */
  lemma OperationExact(r: Receipt, op: Operation)
    requires ReceiptSound(r)
    ensures Apply(r, op).Ok? <==> May(r, op)
    ensures Apply(r, op).Ok? ==> Becomes(r, op, Apply(r, op).value)
  {
    hide *;
    match op
    case OpEditDraft(_, _, _, _, _, _, _) => EditingExact(r, op);
    case OpConfirm(_, _, _, _, _, _, _) => ConfirmingExact(r, op);
    case OpRegisterBundle(_, _, _, _, _, _) => RegisterExact(r, op);
    case OpMove(_, _, _, _, _, _) => MovingExact(r, op);
    case OpSelect(_, _, _) => SelectingExact(r, op);
    case OpCategory(_, _, _, _, _, _, _, _, _) => RecategorisingExact(r, op);
    case OpItemAmount(_, _, _, _, _, _, _, _) => ItemRevaluingExact(r, op);
    case OpAdjustmentAmount(_, _, _, _, _, _, _, _) => AdjustmentRevaluingExact(r, op);
  }
}
