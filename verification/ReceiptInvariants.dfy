/** What every reachable receipt satisfies. */
module ReceiptInvariants {
  import opened Sequences
  import opened Text
  import opened ReceiptAdjustments
  import opened AdjustmentProperties
  import opened GroupExpenses
  import opened ExpenseRoot
  import opened ReceiptRoot

  function ItemIds(items: seq<ConfirmedItem>): set<string> {
    set i | i in items :: i.id
  }

  // ---- the parts of a sound receipt ----

  /** The stored amounts are those of a fresh calculation, and the declared total is their sum. */
  ghost predicate AmountsSound(f: ConfirmedFacts) {
    && Calculate(Inputs(f.items), f.adjustments).Ok?
    && (var c := Calculate(Inputs(f.items), f.adjustments).value;
        && f.allocations == c.allocations
        && (forall k | 0 <= k < |f.items| :: f.items[k].adjustedAmount == c.items[k].adjustedAmount))
    && f.declaredTotal == Sum(f.items, ConfirmedAmountOf) && 0 <= f.declaredTotal <= MAX_SAFE
    && DistinctBy(f.items, ConfirmedIdOf)
    && forall i | i in f.items :: 0 <= i.adjustedAmount <= MAX_SAFE
  }

  ghost predicate BundleSound(ids: set<string>, b: Bundle) {
    && Nonempty(b.id) && Nonempty(b.expenseId) && Nonempty(b.groupId)
    && b.itemIds != [] && DistinctBy(b.itemIds, Itself) && forall id | id in b.itemIds :: id in ids
  }

  ghost predicate Apart(b: Bundle, b': Bundle) {
    b.id != b'.id && b.expenseId != b'.expenseId && b.groupId == b'.groupId && forall id | id in b.itemIds ::
      id !in b'.itemIds
  }

  /** Bundles are non-empty, disjoint, drawn from the items, of one group, and differ in bundle and expense. */
  ghost predicate BundlesSound(ids: set<string>, bundles: seq<Bundle>) {
    && (forall b | b in bundles :: BundleSound(ids, b))
    && forall i, j | 0 <= i < j < |bundles| :: Apart(bundles[i], bundles[j])
  }

  ghost predicate Paired(bundles: seq<Bundle>, s: Selection) {
    exists b :: b in bundles && b.id == s.bundleId && b.expenseId == s.expenseId && b.groupId == s.groupId
  }

  function SelectedIdOf(s: Selection): string { s.bundleId }

  ghost predicate SelectionsSound(bundles: seq<Bundle>, selections: seq<Selection>) {
    (forall s | s in selections :: Paired(bundles, s)) && DistinctBy(selections, SelectedIdOf)
  }

  ghost predicate FactsSound(f: ConfirmedFacts) {
    && Nonempty(f.id) && Nonempty(f.uploaderSubject) && CalendarDay(f.occurredOn)
    && AmountsSound(f) && BundlesSound(ItemIds(f.items), f.bundles) && SelectionsSound(f.bundles, f.selections)
  }

  function SnapshotAfter(r: Receipt, k: nat): Snapshot
    requires k < |r.changes|
  {
    if k + 1 < |r.changes| then r.changes[k + 1].before else r.current
  }

  /** Every change starts where the previous one ended and raises the version by one. */
  ghost predicate HistorySound(r: Receipt) {
    && r.version == |r.changes| + 1
    && forall k | 0 <= k < |r.changes| ::
         && r.changes[k].previousVersion == k + 1 && r.changes[k].version == k + 2
         && r.changes[k].after == SnapshotAfter(r, k)
  }

  ghost predicate ReceiptSound(r: Receipt) {
    && HistorySound(r)
    && match r.current
       case Unconfirmed(d) => Nonempty(d.id) && Nonempty(d.uploaderSubject)
       case Confirmed(f) => FactsSound(f)
  }

  lemma AdvanceSound(r: Receipt, after: Snapshot, action: Action, actor: string, at: int)
    requires HistorySound(r)
    ensures HistorySound(Advance(r, after, action, actor, at))
  {
    var r' := Advance(r, after, action, actor, at);
    forall k | 0 <= k < |r'.changes|
      ensures r'.changes[k].previousVersion == k + 1 && r'.changes[k].version == k + 2 &&
              r'.changes[k].after == SnapshotAfter(r', k)
    {
      if k < |r.changes| {
        assert r.changes[k].after == SnapshotAfter(r, k);
      }
    }
  }

  // ---- amounts ----

  lemma AmountsFromCalculation(f: ConfirmedFacts)
    requires Calculate(Inputs(f.items), f.adjustments).Ok?
    requires var c := Calculate(Inputs(f.items), f.adjustments).value;
             && f.allocations == c.allocations && f.declaredTotal == Sum(c.items, AdjustedAmountOf)
             && (forall k | 0 <= k < |f.items| :: f.items[k].adjustedAmount == c.items[k].adjustedAmount)
    requires 0 <= f.declaredTotal <= MAX_SAFE
    ensures AmountsSound(f)
  {
    CalculationConserves(Inputs(f.items), f.adjustments);
    ItemsAccepted(Inputs(f.items));
    var c := Calculate(Inputs(f.items), f.adjustments).value;
    assert ItemsCheck(Inputs(f.items), 0).Pass?;
    hide Calculate, ItemsCheck;
    forall k | 0 <= k < |f.items| ensures ConfirmedAmountOf(f.items[k]) == AdjustedAmountOf(c.items[k]) {
    }
    SumsAlike(f.items, c.items, ConfirmedAmountOf, AdjustedAmountOf);
    forall i, j | 0 <= i < j < |f.items| ensures ConfirmedIdOf(f.items[i]) != ConfirmedIdOf(f.items[j]) {
      assert ItemIdOf(Inputs(f.items)[i]) != ItemIdOf(Inputs(f.items)[j]);
    }
  }

  /** Applying a calculation to items with the same inputs gives sound amounts. */
  lemma RecalculatedSound(f: ConfirmedFacts, items: seq<Item>, adjustments: seq<Adjustment>, total: int,
                          f': ConfirmedFacts)
    requires |items| == |f.items| && forall k | 0 <= k < |items| :: items[k].id == f.items[k].id
    requires Calculate(items, adjustments).Ok?
    requires var c := Calculate(items, adjustments).value;
             && Sum(c.items, AdjustedAmountOf) == total && 0 <= total <= MAX_SAFE
             && f'.items == Recalculated(f.items, c.items) && f'.allocations == c.allocations
    requires f'.adjustments == adjustments && f'.declaredTotal == total
    ensures AmountsSound(f') && ItemIds(f'.items) == ItemIds(f.items)
  {
    CalculationConserves(items, adjustments);
    hide Calculate, AmountsSound;
    assert Inputs(f'.items) == items;
    SameIds(f.items, f'.items);
    AmountsFromCalculation(f');
  }

  lemma SameIds(xs: seq<ConfirmedItem>, ys: seq<ConfirmedItem>)
    requires |xs| == |ys| && forall k | 0 <= k < |xs| :: xs[k].id == ys[k].id
    ensures ItemIds(xs) == ItemIds(ys)
  {
    forall id ensures id in ItemIds(xs) <==> id in ItemIds(ys) {
      if id in ItemIds(xs) {
        var k :| 0 <= k < |xs| && xs[k].id == id;
        assert ys[k] in ys;
      }
      if id in ItemIds(ys) {
        var k :| 0 <= k < |ys| && ys[k].id == id;
        assert xs[k] in xs;
      }
    }
  }

  lemma ConfirmedSound(items: seq<CandidateItem>, adjustments: seq<Adjustment>, f: ConfirmedFacts)
    requires Calculate(Map(items, ReviewedInput), adjustments).Ok?
    requires var c := Calculate(Map(items, ReviewedInput), adjustments).value;
             && f.items == ConfirmedItems(items, c.items) && f.adjustments == adjustments &&
                f.allocations == c.allocations
             && f.declaredTotal == Sum(c.items, AdjustedAmountOf)
    requires 0 <= f.declaredTotal <= MAX_SAFE
    ensures AmountsSound(f)
  {
    CalculationConserves(Map(items, ReviewedInput), adjustments);
    hide Calculate, AmountsSound;
    assert Inputs(f.items) == Map(items, ReviewedInput);
    AmountsFromCalculation(f);
  }

  // ---- bundles ----

  lemma BundleAdded(ids: set<string>, bundles: seq<Bundle>, b: Bundle)
    requires BundlesSound(ids, bundles) && BundleSound(ids, b)
    requires forall x | x in bundles :: x.id != b.id && x.expenseId != b.expenseId
    requires !Assigned(bundles, b.itemIds) && (bundles == [] || bundles[0].groupId == b.groupId)
    ensures BundlesSound(ids, bundles + [b])
  {
    hide BundleSound;
    var bs := bundles + [b];
    forall i, j | 0 <= i < j < |bs| ensures Apart(bs[i], bs[j]) {
      if j < |bundles| {
        assert Apart(bundles[i], bundles[j]);
      } else {
        assert bundles[i] in bundles;
        assert 0 < i ==> Apart(bundles[0], bundles[i]);
        forall id | id in bundles[i].itemIds ensures id !in b.itemIds {
          assert id in b.itemIds ==> Assigned(bundles, b.itemIds);
        }
      }
    }
  }

  /** As many items are found as references are given: all references name items. */
  lemma AllFound(items: seq<ConfirmedItem>, ids: seq<string>)
    requires DistinctBy(items, ConfirmedIdOf) && ItemIdsWellFormed(ids) && |Filter(items, Among(ids))| == |ids|
    ensures forall id | id in ids :: id in ItemIds(items)
  {
    var found := Filter(items, Among(ids));
    FilterDistinctBy(items, Among(ids), ConfirmedIdOf);
    var names := Map(found, ConfirmedIdOf);
    forall i, j | 0 <= i < j < |names| ensures names[i] != names[j] {
      assert ConfirmedIdOf(found[i]) != ConfirmedIdOf(found[j]);
    }
    DistinctElements(names);
    DistinctElements(ids);
    forall id | id in Elements(names) ensures id in Elements(ids) && id in ItemIds(items) {
      var i :| 0 <= i < |names| && names[i] == id;
      assert found[i] in items && Among(ids)(found[i]);
    }
    SubsetSmaller(Elements(names), Elements(ids));
    forall id | id in ids ensures id in ItemIds(items) {
      assert id in Elements(ids);
    }
  }

  /** Putting references in receipt order keeps exactly those that name items, once each. */
  lemma OrderedIds(items: seq<ConfirmedItem>, ids: seq<string>)
    requires DistinctBy(items, ConfirmedIdOf)
    ensures DistinctBy(InReceiptOrder(items, ids), Itself)
    ensures forall id :: id in InReceiptOrder(items, ids) <==> id in ids && id in ItemIds(items)
  {
    var found := Filter(items, Among(ids));
    FilterDistinctBy(items, Among(ids), ConfirmedIdOf);
    var names := InReceiptOrder(items, ids);
    forall i, j | 0 <= i < j < |names| ensures Itself(names[i]) != Itself(names[j]) {
      assert ConfirmedIdOf(found[i]) != ConfirmedIdOf(found[j]);
    }
    forall id ensures id in names <==> id in ids && id in ItemIds(items) {
      if id in names {
        var i :| 0 <= i < |names| && names[i] == id;
        assert found[i] in items && Among(ids)(found[i]);
      }
      if id in ids && id in ItemIds(items) {
        var i :| i in items && i.id == id;
        assert Among(ids)(i) && i in found;
        var k :| 0 <= k < |found| && found[k] == i;
        assert names[k] == id;
      }
    }
  }

  lemma SomethingStays(ids: seq<string>, moved: seq<string>)
    requires DistinctBy(ids, Itself) && |moved| < |ids|
    ensures exists id :: id in ids && id !in moved
  {
    forall i, j | 0 <= i < j < |ids| ensures ids[i] != ids[j] {
      assert Itself(ids[i]) != Itself(ids[j]);
    }
    DistinctElements(ids);
    DistinctElements(moved);
    if forall id | id in ids :: id in moved {
      SubsetSmaller(Elements(ids), Elements(moved));
    }
  }

  /** Each of the two bundles stays well formed, and holds what the move says. */
  lemma MovedEnds(f: ConfirmedFacts, i: nat, j: nat, moved: seq<string>)
    requires DistinctBy(f.items, ConfirmedIdOf) && i < |f.bundles| && j < |f.bundles| && i != j && moved != []
    requires BundleSound(ItemIds(f.items), f.bundles[i]) && BundleSound(ItemIds(f.items), f.bundles[j])
    requires (forall id | id in moved :: id in f.bundles[i].itemIds) && |moved| < |f.bundles[i].itemIds|
    ensures var bs := Moved(f, i, j, moved).bundles;
            BundleSound(ItemIds(f.items), bs[i]) && BundleSound(ItemIds(f.items), bs[j])
    ensures MovedIds(f, i, j, moved)
  {
    hide *;
    var from, to := f.bundles[i], f.bundles[j];
    var left, joined := InReceiptOrder(f.items, Remaining(from.itemIds, moved)),
                        InReceiptOrder(f.items, to.itemIds + moved);
    StayingIds(f.items, from, moved);
    JoinedIds(f.items, to, moved, from);
    MovedAre(f, i, j, moved, left, joined);
  }

  /** The items that stay still make a bundle. */
  lemma StayingIds(items: seq<ConfirmedItem>, from: Bundle, moved: seq<string>)
    requires DistinctBy(items, ConfirmedIdOf) && BundleSound(ItemIds(items), from) && |moved| < |from.itemIds|
    ensures var left := InReceiptOrder(items, Remaining(from.itemIds, moved));
            && BundleSound(ItemIds(items), from.(itemIds := left))
            && forall id :: id in left <==> id in from.itemIds && id !in moved
  {
    hide *;
    BundleParts(ItemIds(items), from);
    SomethingStays(from.itemIds, moved);
    OrderedIds(items, Remaining(from.itemIds, moved));
    BundleWith(ItemIds(items), from, InReceiptOrder(items, Remaining(from.itemIds, moved)));
  }

  lemma BundleParts(ids: set<string>, b: Bundle)
    requires BundleSound(ids, b)
    ensures b.itemIds != [] && DistinctBy(b.itemIds, Itself) && forall id | id in b.itemIds :: id in ids
  {
    hide Nonempty, DistinctBy;
  }

  lemma BundleWith(ids: set<string>, b: Bundle, itemIds: seq<string>)
    requires BundleSound(ids, b) && DistinctBy(itemIds, Itself)
    requires (exists id :: id in itemIds) && forall id | id in itemIds :: id in ids
    ensures BundleSound(ids, b.(itemIds := itemIds))
  {
    hide Nonempty, DistinctBy;
  }

  lemma JoinedIds(items: seq<ConfirmedItem>, to: Bundle, moved: seq<string>, from: Bundle)
    requires DistinctBy(items, ConfirmedIdOf) && BundleSound(ItemIds(items), to) && BundleSound(ItemIds(items), from)
    requires moved != [] && forall id | id in moved :: id in from.itemIds
    ensures var joined := InReceiptOrder(items, to.itemIds + moved);
            && BundleSound(ItemIds(items), to.(itemIds := joined))
            && forall id :: id in joined <==> id in to.itemIds || id in moved
  {
    hide *;
    BundleParts(ItemIds(items), to);
    BundleParts(ItemIds(items), from);
    OrderedIds(items, to.itemIds + moved);
    assert moved[0] in InReceiptOrder(items, to.itemIds + moved);
    BundleWith(ItemIds(items), to, InReceiptOrder(items, to.itemIds + moved));
  }

  lemma MovedAre(f: ConfirmedFacts, i: nat, j: nat, moved: seq<string>, left: seq<string>, joined: seq<string>)
    requires i < |f.bundles| && j < |f.bundles| && i != j
    requires left == InReceiptOrder(f.items, Remaining(f.bundles[i].itemIds, moved))
    requires joined == InReceiptOrder(f.items, f.bundles[j].itemIds + moved)
    requires forall id :: id in left <==> id in f.bundles[i].itemIds && id !in moved
    requires forall id :: id in joined <==> id in f.bundles[j].itemIds || id in moved
    ensures var bs := Moved(f, i, j, moved).bundles;
            && |bs| == |f.bundles| && bs[i] == f.bundles[i].(itemIds := left)
            && bs[j] == f.bundles[j].(itemIds := joined) && MovedIds(f, i, j, moved)
  {
    hide InReceiptOrder, Remaining;
  }

  /** Moving items between two bundles keeps them disjoint, non-empty and drawn from the items. */
  lemma MovedBundlesSound(f: ConfirmedFacts, i: nat, j: nat, moved: seq<string>)
    requires DistinctBy(f.items, ConfirmedIdOf) && BundlesSound(ItemIds(f.items), f.bundles)
    requires i < |f.bundles| && j < |f.bundles| && i != j && moved != []
    requires (forall id | id in moved :: id in f.bundles[i].itemIds) && |moved| < |f.bundles[i].itemIds|
    ensures BundlesSound(ItemIds(f.items), Moved(f, i, j, moved).bundles)
    ensures MovedIds(f, i, j, moved)
  {
    hide BundleSound, Apart, InReceiptOrder, Remaining, DistinctBy;
    assert f.bundles[i] in f.bundles && f.bundles[j] in f.bundles;
    MovedEnds(f, i, j, moved);
    var bs := Moved(f, i, j, moved).bundles;
    forall b | b in bs ensures BundleSound(ItemIds(f.items), b) {
      var k :| 0 <= k < |bs| && bs[k] == b;
      assert f.bundles[k] in f.bundles;
    }
    MovedApart(f, i, j, moved);
  }

  /** What the two bundles hold after the move; every other bundle is as before. */
  ghost predicate MovedIds(f: ConfirmedFacts, i: nat, j: nat, moved: seq<string>)
    requires i < |f.bundles| && j < |f.bundles|
  {
    var bs := Moved(f, i, j, moved).bundles;
    && |bs| == |f.bundles|
    && (forall id :: id in bs[i].itemIds <==> id in f.bundles[i].itemIds && id !in moved)
    && (forall id :: id in bs[j].itemIds <==> id in f.bundles[j].itemIds || id in moved)
    && forall k | 0 <= k < |bs| ::
         && bs[k].id == f.bundles[k].id && bs[k].expenseId == f.bundles[k].expenseId &&
            bs[k].groupId == f.bundles[k].groupId
         && (k != i && k != j ==> bs[k] == f.bundles[k])
  }

  lemma BundlesDisjoint(f: ConfirmedFacts, k: nat, m: nat)
    requires BundlesSound(ItemIds(f.items), f.bundles) && k < |f.bundles| && m < |f.bundles| && k != m
    ensures forall id | id in f.bundles[k].itemIds :: id !in f.bundles[m].itemIds
  {
    hide BundleSound;
    assert if k < m then Apart(f.bundles[k], f.bundles[m]) else Apart(f.bundles[m], f.bundles[k]);
  }

  lemma MovedApart(f: ConfirmedFacts, i: nat, j: nat, moved: seq<string>)
    requires BundlesSound(ItemIds(f.items), f.bundles)
    requires i < |f.bundles| && j < |f.bundles| && i != j && forall id | id in moved :: id in f.bundles[i].itemIds
    requires MovedIds(f, i, j, moved)
    ensures forall k, m | 0 <= k < m < |f.bundles| ::
            Apart(Moved(f, i, j, moved).bundles[k], Moved(f, i, j, moved).bundles[m])
  {
    hide BundleSound, Moved;
    var bs := Moved(f, i, j, moved).bundles;
    forall k, m | 0 <= k < m < |f.bundles| ensures Apart(bs[k], bs[m]) {
      assert Apart(f.bundles[k], f.bundles[m]);
      BundlesDisjoint(f, k, m);
      if i != m { BundlesDisjoint(f, i, m); }
      if i != k { BundlesDisjoint(f, i, k); }
    }
  }

  lemma SelectionsCarry(bundles: seq<Bundle>, bundles': seq<Bundle>, selections: seq<Selection>)
    requires SelectionsSound(bundles, selections) && |bundles| <= |bundles'|
    requires forall k | 0 <= k < |bundles| ::
               bundles[k].id == bundles'[k].id && bundles[k].expenseId == bundles'[k].expenseId &&
                 bundles[k].groupId == bundles'[k].groupId
    ensures SelectionsSound(bundles', selections)
  {
    forall s | s in selections ensures Paired(bundles', s) {
      var b :| b in bundles && b.id == s.bundleId && b.expenseId == s.expenseId && b.groupId == s.groupId;
      var k :| 0 <= k < |bundles| && bundles[k] == b;
      assert bundles'[k] in bundles';
    }
  }
}
