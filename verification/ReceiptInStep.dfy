/** The receipt and its expenses stay in step: each bundle's expense carries the adjusted sum of the bundle's items. */
module ReceiptInStep {
  import opened Outcomes
  import opened Sequences
  import opened Text
  import opened ReceiptAdjustments
  import opened GroupExpenses
  import EP = ExpenseProperties
  import opened ExpenseRoot
  import opened ReceiptRoot
  import opened ReceiptInvariants
  import opened ReceiptSteps
  import opened ReceiptLock

  // ---- registering again ----

  /** Registering what an expense fixed gives the same expense. */
  lemma RegisteredGenuine(r: Registration)
    requires Register(r).Ok?
    ensures Register(RegistrationOf(Register(r).value)) == Register(r)
  {
    hide Register;
    EP.RegisteredParts(r);
    var e := Register(r).value;
    assert e.sourceOwnerSubject == r.sourceOwnerSubject && e.occurredOn == r.occurredOn by { CopiedFacts(r); }
    EP.RegisterForgetsOrder(r, Map(e.allocations, ParticipantOf));
    assert RegistrationOf(e) == r.(participants := Map(e.allocations, ParticipantOf));
  }

  lemma CopiedFacts(r: Registration)
    requires Register(r).Ok?
    ensures var e := Register(r).value;
            && e.sourceOwnerSubject == r.sourceOwnerSubject && e.occurredOn == r.occurredOn && e.total == r.amount
            && e.id == r.id && e.groupId == r.groupId && e.payerParticipantId == r.payerParticipantId
  {
    hide RegistrationCheck, Allocations;
  }

  /** A genuine expense can be recomputed for any amount, and only its total and burdens change. */
  lemma Recomputed(facts: ExpenseFacts, amount: int)
    requires Register(RegistrationOf(facts)) == Ok(facts) && 0 <= amount <= MAX_SAFE
    ensures Register(RegistrationOf(facts).(amount := amount)).Ok?
    ensures var calculated := Register(RegistrationOf(facts).(amount := amount)).value;
            var after := facts.(total := calculated.total, allocations := calculated.allocations);
            after == calculated && after.total == amount && Register(RegistrationOf(after)) == Ok(after)
  {
    hide Register;
    var r := RegistrationOf(facts);
    RegisterAccepts(r);
    hide CalendarDay, ParticipantsValid;
    RegisterAccepts(r.(amount := amount));
    assert Register(r.(amount := amount)).Ok?;
    hide Registrable;
    CopiedFacts(r.(amount := amount));
    RegisteredGenuine(r.(amount := amount));
  }

  // ---- the amount of a bundle ----

  lemma {:induction false} FilteredAmount(items: seq<ConfirmedItem>, ids: seq<string>)
    ensures Sum(Filter(items, Among(ids)), ConfirmedAmountOf) == Sum(items, Within(ids))
  {
    if items != [] {
      FilteredAmount(items[1..], ids);
      var rest := Filter(items[1..], Among(ids));
      if items[0].id in ids {
        assert Filter(items, Among(ids)) == [items[0]] + rest;
      } else {
        assert Filter(items, Among(ids)) == rest;
      }
    }
  }

  lemma {:induction false} AmountOfOne(items: seq<ConfirmedItem>, id: string)
    requires DistinctBy(items, ConfirmedIdOf)
    ensures Sum(items, Keyed(ConfirmedIdOf, ConfirmedAmountOf, id)) == AmountOfItem(items)(id)
    ensures AdjustedById(items, id).Some? <==> id in ItemIds(items)
    ensures AdjustedById(items, id).Some? ==>
            exists i :: i in items && i.id == id && i.adjustedAmount == AdjustedById(items, id).value
  {
    if items != [] {
      AmountOfOne(items[1..], id);
      assert ConfirmedIdOf(items[0]) == items[0].id && ConfirmedAmountOf(items[0]) == items[0].adjustedAmount;
      assert forall i :: i in items <==> i == items[0] || i in items[1..];
      if items[0].id == id {
        forall i | i in items[1..] ensures ConfirmedIdOf(i) != id {
          var k :| 1 <= k < |items| && items[k] == i;
          assert ConfirmedIdOf(items[0]) != ConfirmedIdOf(items[k]);
        }
        KeyedAbsent(items[1..], ConfirmedIdOf, ConfirmedAmountOf, id);
      }
    }
  }

  /** Summing reference by reference or in receipt order gives the same amount. */
  lemma {:induction false} AmountByReference(items: seq<ConfirmedItem>, ids: seq<string>)
    requires DistinctBy(items, ConfirmedIdOf) && DistinctBy(ids, Itself)
    ensures Sum(ids, AmountOfItem(items)) == Sum(items, Within(ids))
  {
    if ids == [] {
      WithinNothing(items);
    } else {
      forall i, j | 0 <= i < j < |ids[1..]| ensures Itself(ids[1..][i]) != Itself(ids[1..][j]) {
        assert Itself(ids[i + 1]) != Itself(ids[j + 1]);
      }
      AmountByReference(items, ids[1..]);
      AmountOfOne(items, ids[0]);
      assert ids[0] !in ids[1..] by {
        forall j | 1 <= j < |ids| ensures ids[j] != ids[0] {
          assert Itself(ids[0]) != Itself(ids[j]);
        }
      }
      forall i | i in items
        ensures Within(ids)(i) == Within(ids[1..])(i) + 1 * Keyed(ConfirmedIdOf, ConfirmedAmountOf, ids[0])(i) {
        assert i.id in ids <==> i.id == ids[0] || i.id in ids[1..];
      }
      SumPlus(items, Within(ids[1..]), Keyed(ConfirmedIdOf, ConfirmedAmountOf, ids[0]), Within(ids), 1);
    }
  }

  lemma {:induction false} WithinNothing(items: seq<ConfirmedItem>)
    ensures Sum(items, Within([])) == 0
  {
    if items != [] {
      WithinNothing(items[1..]);
    }
  }

  lemma BundleOf(f: ConfirmedFacts, b: Bundle)
    requires FactsSound(f) && b in f.bundles
    ensures BundleSound(ItemIds(f.items), b) && DistinctBy(f.items, ConfirmedIdOf)
    ensures forall i | i in f.items :: 0 <= i.adjustedAmount <= MAX_SAFE
  {
    hide SelectionsSound, Calculate;
  }

  /** The expense's own sum over the receipt is the bundle's amount. */
  lemma PairAmountIs(f: ConfirmedFacts, b: Bundle)
    requires FactsSound(f) && b in f.bundles
    ensures PairAmount(f, b.itemIds) == Ok(BundleAmount(f, b))
  {
    BundleOf(f, b);
    BundleSumSafe(f, b);
    hide FactsSound;
    AmountByReference(f.items, b.itemIds);
    forall id | id in b.itemIds ensures ItemAmountFound(f.items, id) {
      AmountOfOne(f.items, id);
    }
  }

  // ---- being in step ----

  ghost predicate InStepWith(f: ConfirmedFacts, b: Bundle, e: GroupExpense) {
    && ExpenseGenuine(e) && e.facts.id == b.expenseId && e.facts.groupId == b.groupId
    && e.facts.sourceOwnerSubject == f.uploaderSubject && e.facts.occurredOn == f.occurredOn
    && e.facts.total == BundleAmount(f, b)
  }

  ghost predicate InStep(f: ConfirmedFacts, es: map<string, GroupExpense>) {
    forall b | b in f.bundles :: b.expenseId in es && InStepWith(f, b, es[b.expenseId])
  }

  /** A bundle reference, and an expense reference, belongs to one bundle. */
  lemma SamePlace(ids: set<string>, bundles: seq<Bundle>, k: nat, m: nat)
    requires BundlesSound(ids, bundles) && k < |bundles| && m < |bundles|
    requires bundles[k].id == bundles[m].id || bundles[k].expenseId == bundles[m].expenseId
    ensures k == m
  {
    hide BundleSound;
    assert k < m ==> Apart(bundles[k], bundles[m]);
    assert m < k ==> Apart(bundles[m], bundles[k]);
  }

  lemma FirstPair(f: ConfirmedFacts, b: Bundle)
    requires FactsSound(f) && b in f.bundles
    ensures PairOf(f.bundles, b.expenseId).Some? && f.bundles[PairOf(f.bundles, b.expenseId).value] == b
  {
    hide AmountsSound, SelectionsSound, BundleSound;
    var k :| 0 <= k < |f.bundles| && f.bundles[k] == b;
    SamePlace(ItemIds(f.items), f.bundles, k, PairOf(f.bundles, b.expenseId).value);
  }

  lemma FirstBundle(f: ConfirmedFacts, b: Bundle)
    requires FactsSound(f) && b in f.bundles
    ensures FindBundle(f.bundles, b.id).Some? && f.bundles[FindBundle(f.bundles, b.id).value] == b
  {
    hide AmountsSound, SelectionsSound, BundleSound;
    var k :| 0 <= k < |f.bundles| && f.bundles[k] == b;
    SamePlace(ItemIds(f.items), f.bundles, k, FindBundle(f.bundles, b.id).value);
  }

  // ---- registration ----

  /** A newly registered bundle is in step with the expense it was registered with; the others stay in step. */
  lemma RegisterInStep(r: Receipt, v: int, a: string, at: Clock, b: string, ids: seq<string>, e: GroupExpense,
                       es: map<string, GroupExpense>)
    requires ReceiptSound(r) && ExpenseGenuine(e) && RegisterBundle(r, v, a, at, b, ids, e).Ok?
    requires r.current.Confirmed? && InStep(r.current.facts, es)
    ensures RegisterBundle(r, v, a, at, b, ids, e).value.current.Confirmed?
    ensures InStep(RegisterBundle(r, v, a, at, b, ids, e).value.current.facts, es[e.facts.id := e])
  {
    hide RegisterBundle, ReceiptSound, ExpenseGenuine;
    RegisterAccepted(r, v, a, at, b, ids, e);
    hide FindBundle, ItemIdsWellFormed, Assigned, Nonempty;
    FilteredAmount(r.current.facts.items, ids);
  }

  // ---- changing the split ----

  /** The facts a sound receipt hands out about an editable bundle are well formed. */
  lemma EditingFactsShape(r: Receipt, v: int, actor: string, bundleId: string)
    requires ReceiptSound(r) && BundleEditingFacts(r, v, actor, bundleId).Ok?
    ensures FactShapeCheck(BundleEditingFacts(r, v, actor, bundleId).value).Pass? && r.version >= 1
  {
    hide EditableBundle, BundleAmount;
    EditableMeans(r, v, actor, bundleId);
    var f := r.current.facts;
    var b := f.bundles[EditableBundle(r, v, actor, bundleId).value];
    assert r.version >= 1;
    hide HistorySound;
    BundleOf(f, b);
    BundleSumSafe(f, b);
    assert Nonempty(f.id) && Nonempty(f.uploaderSubject);
    hide FactsSound, Nonempty, SelectedBundle, FindBundle, DistinctBy;
  }

  /** They are accepted by the expense that is in step with the bundle. */
  lemma EditingFactsAccepted(r: Receipt, v: int, actor: string, bundleId: string, e: GroupExpense)
    requires ReceiptSound(r) && BundleEditingFacts(r, v, actor, bundleId).Ok?
    requires var f := r.current.facts; InStepWith(f, f.bundles[EditableBundle(r, v, actor, bundleId).value], e)
    ensures CurrentFactCheck(e, BundleEditingFacts(r, v, actor, bundleId).value, v, actor).Pass?
  {
    hide EditableBundle, ExpenseGenuine, BundleAmount, ReceiptSound, FactShapeCheck;
    EditingFactsShape(r, v, actor, bundleId);
    EditableMeans(r, v, actor, bundleId);
    hide Nonempty, SelectedBundle, FindBundle;
  }

  lemma SplitAccepted(e: GroupExpense, ev: int, v: int, fact: BundleFact, actor: string, at: Clock, payer: string,
                      splits: seq<Split>)
    requires ChangeBundleSplit(e, ev, v, fact, actor, at, payer, splits).Ok?
    requires ChangeBundleSplit(e, ev, v, fact, actor, at, payer, splits).value != e
    ensures var request := RegistrationOf(e.facts).(payerParticipantId := payer,
                                                    participants := Map(e.facts.allocations, Resplit(splits)));
            && SameSet(splits, e.facts.allocations) && Register(request).Ok? && at.Some?
            && var calculated := Register(request).value;
               var e' := ChangeBundleSplit(e, ev, v, fact, actor, at, payer, splits).value;
            && e'.facts == e.facts.(payerParticipantId := calculated.payerParticipantId,
                                    allocations := calculated.allocations)
            && e'.version == e.version + 1 && e'.initial == e.initial
            && e'.splits == e.splits + [SplitChange(actor, at.value, e.version, e.version + 1, fact, e.facts, e'.facts)]
  {
    hide Register, CurrentFactCheck, SameSet;
  }

  /** Changing payer and percentages keeps the expense's total, so it stays in step with its bundle. */
  lemma SplitInStep(f: ConfirmedFacts, b: Bundle, e: GroupExpense, ev: int, v: int, fact: BundleFact, actor: string,
                    at: Clock,
                    payer: string, splits: seq<Split>)
    requires InStepWith(f, b, e) && ChangeBundleSplit(e, ev, v, fact, actor, at, payer, splits).Ok?
    ensures InStepWith(f, b, ChangeBundleSplit(e, ev, v, fact, actor, at, payer, splits).value)
  {
    hide ChangeBundleSplit, Register, BundleAmount, SameSet;
    if ChangeBundleSplit(e, ev, v, fact, actor, at, payer, splits).value != e {
      SplitAccepted(e, ev, v, fact, actor, at, payer, splits);
      var request := RegistrationOf(e.facts).(payerParticipantId := payer,
                                              participants := Map(e.facts.allocations, Resplit(splits)));
      CopiedFacts(request);
      RegisteredGenuine(request);
    }
  }

  // ---- moving items ----

  /** The receipt's facts about one bundle, before and after a move. */
  ghost predicate Followed(e: GroupExpense, ev: int, v: int, before: BundleFact, after: BundleFact, actor: string,
                           at: Clock) {
    && ev == e.version && SafeInteger(e.version) && SafeInteger(e.version + 1) && at.Some?
    && CurrentFactCheck(e, before, v, actor).Pass? && FactShapeCheck(after).Pass?
    && SafeInteger(after.receiptVersion)
    && after == before.(receiptVersion := before.receiptVersion + 1, adjustedAmount := after.adjustedAmount)
  }

  lemma MovementReflected(e: GroupExpense, ev: int, v: int, before: BundleFact, after: BundleFact, actor: string,
                          at: Clock)
    requires ExpenseGenuine(e) && Followed(e, ev, v, before, after, actor, at)
    ensures ReflectMovement(e, ev, v, before, after, actor, at).Ok?
    ensures var e' := ReflectMovement(e, ev, v, before, after, actor, at).value;
            && ExpenseGenuine(e') && e'.facts ==
               e.facts.(total := after.adjustedAmount, allocations := e'.facts.allocations)
            && e'.version == e.version + 1 && e'.initial == e.initial
  {
    assert 0 <= after.adjustedAmount <= MAX_SAFE by { ShapeSafe(after); }
    hide Register, CurrentFactCheck, FactShapeCheck;
    Recomputed(e.facts, after.adjustedAmount);
  }

  lemma ShapeSafe(fact: BundleFact)
    requires FactShapeCheck(fact).Pass?
    ensures 0 <= fact.adjustedAmount <= MAX_SAFE
  {
    hide Nonempty;
  }

  /** After a move the receipt hands out facts about the same bundle, one version later, with its new amount. */
  lemma FactsAfterMove(r: Receipt, v: int, a: string, at: Clock, from: string, to: string, ids: seq<string>, id: string)
    requires ReceiptSound(r) && MoveBundleItems(r, v, a, at, from, to, ids).Ok? && (id == from || id == to)
    ensures BundleEditingFacts(r, v, a, id).Ok?
    ensures var r' := MoveBundleItems(r, v, a, at, from, to, ids).value;
            && BundleEditingFacts(r', v + 1, a, id).Ok? && SafeInteger(r.version + 1) && r.version == v
            && EditableBundle(r', v + 1, a, id) == EditableBundle(r, v, a, id)
            && var before, after := BundleEditingFacts(r, v, a, id).value, BundleEditingFacts(r', v + 1, a, id).value;
               after == before.(receiptVersion := before.receiptVersion + 1, adjustedAmount := after.adjustedAmount)
  {
    hide *;
    MoveSound(r, v, a, at, from, to, ids);
    var i, j := MoveAccepted(r, v, a, at, from, to, ids);
    EditableMeans(r, v, a, from);
    EditableMeans(r, v, a, to);
    var k, r' := if id == from then i else j, MoveBundleItems(r, v, a, at, from, to, ids).value;
    MoveAdvances(r, v, a, at, from, to, ids, i, j);
    MovedEditable(r, v, a, from, to, ids, i, j, k, r');
    FactsAre(r, v, a, id, k);
    FactsAre(r', v + 1, a, id, k);
    MovedNames(r.current.facts, i, j, ids, k);
  }

  lemma MoveAdvances(r: Receipt, v: int, a: string, at: Clock, from: string, to: string, ids: seq<string>, i: nat,
                     j: nat)
    requires MoveBundleItems(r, v, a, at, from, to, ids).Ok? && r.current.Confirmed? && at.Some?
    requires i < |r.current.facts.bundles| && j < |r.current.facts.bundles|
    requires MoveBundleItems(r, v, a, at, from, to, ids).value ==
             Advance(r, Confirmed(Moved(r.current.facts, i, j, ids)),
                     BundleItemsMoved(from, to, InReceiptOrder(r.current.facts.items, ids)), a, at.value)
    ensures var r' := MoveBundleItems(r, v, a, at, from, to, ids).value;
            r'.current == Confirmed(Moved(r.current.facts, i, j, ids)) && r'.version == r.version + 1
  {
    hide MoveBundleItems, Moved, InReceiptOrder;
  }

  lemma FactsAre(r: Receipt, v: int, a: string, id: string, k: nat)
    requires r.current.Confirmed? && k < |r.current.facts.bundles| && EditableBundle(r, v, a, id) == Ok(k)
    ensures var f, b := r.current.facts, r.current.facts.bundles[k];
            BundleEditingFacts(r, v, a, id) ==
            Ok(BundleFact(f.id, id, b.expenseId, b.groupId, r.version, f.uploaderSubject, f.occurredOn,
                          BundleAmount(f, b)))
  {
    hide EditableBundle, BundleAmount;
  }

  /** A move keeps what the facts about a bundle name. */
  lemma MovedNames(f: ConfirmedFacts, i: nat, j: nat, ids: seq<string>, k: nat)
    requires i < |f.bundles| && j < |f.bundles| && k < |f.bundles|
    ensures var f' := Moved(f, i, j, ids);
            && |f'.bundles| == |f.bundles| && f'.id == f.id && f'.uploaderSubject == f.uploaderSubject
            && f'.occurredOn == f.occurredOn && f'.bundles[k].expenseId == f.bundles[k].expenseId
            && f'.bundles[k].groupId == f.bundles[k].groupId
  {
    hide InReceiptOrder, Remaining;
  }

  lemma MovedEditable(r: Receipt, v: int, a: string, from: string, to: string, ids: seq<string>, i: nat, j: nat,
                      k: nat, r': Receipt)
    requires r.current.Confirmed? && i < |r.current.facts.bundles| && j < |r.current.facts.bundles| &&
             (k == i || k == j)
    requires v == r.version && SafeInteger(r.version + 1) && a == r.current.facts.uploaderSubject && Nonempty(a)
    requires var b := r.current.facts.bundles[k]; Nonempty(b.id) && !SelectedBundle(r.current.facts, b.id)
    requires r'.current == Confirmed(Moved(r.current.facts, i, j, ids)) && r'.version == r.version + 1 &&
             ReceiptSound(r')
    ensures EditableBundle(r', v + 1, a, r.current.facts.bundles[k].id) == Ok(k)
  {
    hide *;
    MovedKeeps(r.current.facts, i, j, ids, k);
    SamePosition(r', k);
    EditableWhen(r', v + 1, a, r.current.facts.bundles[k].id, k);
  }

  /** A move keeps identifiers, uploader and selections. */
  lemma MovedKeeps(f: ConfirmedFacts, i: nat, j: nat, ids: seq<string>, k: nat)
    requires i < |f.bundles| && j < |f.bundles| && k < |f.bundles|
    ensures var f' := Moved(f, i, j, ids);
            && |f'.bundles| == |f.bundles| && f'.bundles[k].id == f.bundles[k].id
            && f'.uploaderSubject == f.uploaderSubject
            && SelectedBundle(f', f.bundles[k].id) == SelectedBundle(f, f.bundles[k].id)
  {
    hide InReceiptOrder, Remaining;
  }

  lemma EditableWhen(r: Receipt, v: int, a: string, id: string, k: nat)
    requires r.current.Confirmed? && v == r.version && SafeInteger(v) && a == r.current.facts.uploaderSubject
    requires Nonempty(a) && Nonempty(id) && !SelectedBundle(r.current.facts, id)
    requires FindBundle(r.current.facts.bundles, id) == Some(k)
    ensures EditableBundle(r, v, a, id) == Ok(k)
  {
    hide Nonempty, SelectedBundle, FindBundle;
  }

  lemma SamePosition(r: Receipt, k: nat)
    requires ReceiptSound(r) && r.current.Confirmed? && k < |r.current.facts.bundles|
    ensures FindBundle(r.current.facts.bundles, r.current.facts.bundles[k].id) == Some(k)
  {
    hide AmountsSound, SelectionsSound, BundleSound, HistorySound;
    var f := r.current.facts;
    SamePlace(ItemIds(f.items), f.bundles, k, FindBundle(f.bundles, f.bundles[k].id).value);
  }
}
