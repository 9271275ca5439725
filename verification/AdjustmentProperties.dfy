/** What every accepted receipt calculation satisfies, and which inputs are accepted. */
module AdjustmentProperties {
  import opened Outcomes
  import opened Sequences
  import opened Text
  import opened Apportionment
  import opened ReceiptAdjustments

  // ---- accepted items ----

  lemma {:induction false} ItemsPass(items: seq<Item>, k: nat)
    requires k <= |items|
    requires DistinctBy(items[..k], ItemIdOf) && forall i | i in items[..k] :: ItemValid(i)
    ensures ItemsCheck(items, k).Pass? <==> DistinctBy(items, ItemIdOf) && forall i | i in items :: ItemValid(i)
    decreases |items| - k
  {
    if k < |items| {
      assert items[..k + 1] == items[..k] + [items[k]];
      DistinctSnoc(items[..k], items[k], ItemIdOf);
      if items[k].id in Ids(items[..k]) {
        var j :| 0 <= j < k && items[j].id == items[k].id;
        assert ItemIdOf(items[j]) == ItemIdOf(items[k]);
      }
      assert items[k] in items;
      if ItemValid(items[k]) && items[k].id !in Ids(items[..k]) {
        forall y | y in items[..k] ensures ItemIdOf(y) != ItemIdOf(items[k]) {
          assert y.id in Ids(items[..k]);
        }
        ItemsPass(items, k + 1);
      }
    } else {
      assert items[..k] == items;
    }
  }

  lemma ItemsAccepted(items: seq<Item>)
    ensures ItemsCheck(items, 0).Pass? <==> DistinctBy(items, ItemIdOf) && forall i | i in items :: ItemValid(i)
  {
    ItemsPass(items, 0);
  }

  lemma OriginalTotal(items: seq<Item>)
    requires ItemsCheck(items, 0).Pass?
    ensures Sum(Weights(items), AsIs) == Sum(items, ItemAmountOf) >= 0
  {
    ItemsAccepted(items);
    SumMap(items, ItemAmountOf, AsIs, ItemAmountOf);
    SumNonNegative(items, ItemAmountOf);
  }

  // ---- one spread ----

  lemma {:induction false} SignedSum(amount: int, shares: seq<int>)
    ensures Sum(Signed(amount, shares), AsIs) == if amount < 0 then -Sum(shares, AsIs) else Sum(shares, AsIs)
  {
    if shares != [] {
      assert Signed(amount, shares)[1..] == Signed(amount, shares[1..]);
      SignedSum(amount, shares[1..]);
    }
  }

  lemma {:induction false} PortionSum(ps: seq<Portion>, shares: seq<int>)
    requires |ps| == |shares| && forall k | 0 <= k < |ps| :: ps[k].share == shares[k]
    ensures Sum(ps, ShareOf) == Sum(shares, AsIs)
  {
    if ps != [] {
      PortionSum(ps[1..], shares[1..]);
    }
  }

  lemma {:induction false} ZerosSum(n: nat)
    ensures Sum(Zeros(n), AsIs) == 0
  {
    if n > 0 {
      assert Zeros(n)[1..] == Zeros(n - 1);
      ZerosSum(n - 1);
    }
  }

  /** Every adjustment is spread exactly, item by item, on the receipt's items. */
  lemma SpreadExact(items: seq<Item>, a: Adjustment)
    requires ItemsCheck(items, 0).Pass? && SpreadOf(items, a).Ok?
    ensures |SpreadOf(items, a).value| == |items| && Sum(SpreadOf(items, a).value, AsIs) == a.amount
  {
    match a.target
    case OneItem(id) =>
      var k := IndexOf(items, id).value;
      ZerosSum(|items|);
      SumUpdate(Zeros(|items|), k, a.amount, AsIs);
    case WholeReceipt =>
      var ws := Weights(items);
      var shares := Shares(Magnitude(a.amount), ws);
      SharesApportion(Magnitude(a.amount), ws);
      PortionSum(Portions(ws, shares), shares);
      SignedSum(a.amount, shares);
  }

  /**
   * The share of an item in a whole-receipt adjustment differs from the exact quota `amount * original / total`
   * by less than one yen, is exact when the quota is a whole number, so is zero for an item of zero yen,
   * and never has the opposite sign.
   */
  lemma ShareNearQuota(items: seq<Item>, a: Adjustment, k: nat)
    requires ItemsCheck(items, 0).Pass? && SpreadOf(items, a).Ok? && a.target == WholeReceipt && k < |items|
    ensures |SpreadOf(items, a).value| == |items|
    ensures var total, share := Sum(items, ItemAmountOf), SpreadOf(items, a).value[k];
            && -total < share * total - a.amount * items[k].amount < total
            && (items[k].amount == 0 ==> share == 0)
            && (Magnitude(a.amount) * items[k].amount % total == 0 ==> share * total == a.amount * items[k].amount)
            && (if a.amount < 0 then share <= 0 else share >= 0)
  {
    hide ItemsCheck, Shares, Nonempty;
    OriginalTotal(items);
    var ws := Weights(items);
    assert ItemValid(items[k]) by { ItemsAccepted(items); }
    SharesNearQuota(Magnitude(a.amount), ws, k);
    SignedQuota(a.amount, items[k].amount, Shares(Magnitude(a.amount), ws)[k], Sum(ws, AsIs));
  }

  lemma SharesNearQuota(n: nat, ws: seq<int>, k: nat)
    requires Sum(ws, AsIs) > 0 && k < |ws| && ws[k] >= 0
    ensures |Shares(n, ws)| == |ws| && Shares(n, ws)[k] >= 0
    ensures var total, share := Sum(ws, AsIs), Shares(n, ws)[k];
            && -total < share * total - n * ws[k] < total
            && (ws[k] == 0 ==> share == 0)
            && (n * ws[k] % total == 0 ==> share * total == n * ws[k])
  {
    hide Shares;
    var total, shares := Sum(ws, AsIs), Shares(n, ws);
    SharesApportion(n, ws);
    var ps := Portions(ws, shares);
    assert ps[k] in ps;
    FloorOrCeiling(n, total, ps, ps[k]);
    assert shares[k] == Floor(n, total, ws[k]) || shares[k] == Floor(n, total, ws[k]) + 1;
    hide Apportioned, Floor;
    WholeQuota(n, total, ws[k], shares[k]);
  }

  lemma WholeQuota(n: nat, total: int, w: int, share: int)
    requires total > 0 && w >= 0 && -total < share * total - n * w
    requires n * w % total == 0 ==> share * total == n * w
    ensures share >= 0 && (w == 0 ==> share == 0)
  {
    assert n * w >= 0;
    assert share < 0 ==> share * total <= (-1) * total;
    assert w == 0 ==> n * w == 0;
    assert share > 0 ==> share * total >= total;
  }

  lemma SignedQuota(amount: int, w: int, share: int, total: int)
    ensures (-share) * total - amount * w == -(share * total - (-amount) * w)
  {
  }

  /**
   * Between two items of equal remainder the extra yen goes to the earlier one, and otherwise to the larger remainder.
   */
  lemma ExtraYenRanked(items: seq<Item>, amount: nat, i: nat, j: nat)
    requires ItemsCheck(items, 0).Pass? && Sum(items, ItemAmountOf) > 0 && i < |items| && j < |items|
    ensures Sum(Weights(items), AsIs) > 0 && |Shares(amount, Weights(items))| == |items|
    ensures var total, shares := Sum(items, ItemAmountOf), Shares(amount, Weights(items));
            shares[i] > Floor(amount, total, items[i].amount) && shares[j] == Floor(amount, total, items[j].amount) ==>
            var l, r := amount * items[i].amount % total, amount * items[j].amount % total;
            l > r || (l == r && i < j)
  {
    OriginalTotal(items);
    hide ItemsCheck, Shares;
    ExtraYenAmong(amount, Weights(items), i, j);
  }

  lemma ExtraYenAmong(amount: nat, ws: seq<int>, i: nat, j: nat)
    requires Sum(ws, AsIs) > 0 && i < |ws| && j < |ws|
    ensures |Shares(amount, ws)| == |ws|
    ensures var total, shares := Sum(ws, AsIs), Shares(amount, ws);
            shares[i] > Floor(amount, total, ws[i]) && shares[j] == Floor(amount, total, ws[j]) ==>
            var l, r := amount * ws[i] % total, amount * ws[j] % total;
            l > r || (l == r && i < j)
  {
    hide *;
    SharesApportion(amount, ws);
    var total, ps := Sum(ws, AsIs), Portions(ws, Shares(amount, ws));
    assert ps[i] in ps && ps[j] in ps;
    ExtraBeats(amount, total, ps, ps[i], ps[j]);
  }

  lemma ExtraBeats(amount: int, total: int, ps: seq<Portion>, p: Portion, q: Portion)
    requires total > 0 && Apportioned(amount, total, ps) && p in ps && q in ps
    ensures p.share > Floor(amount, total, p.weight) && q.share == Floor(amount, total, q.weight) ==>
            var l, r := amount * p.weight % total, amount * q.weight % total;
            l > r || (l == r && p.place < q.place)
  {
    hide Floor, Sum;
  }

  // ---- the whole calculation ----

  lemma {:induction false} SpreadsExact(items: seq<Item>, adjustments: seq<Adjustment>, n: nat, k: nat)
    requires ItemsCheck(items, 0).Pass? && n <= |adjustments| && Spreads(items, adjustments, n).Ok? && k < n
    ensures var s := Spreads(items, adjustments, n).value[k];
            && s.kind == adjustments[k].kind && s.amount == adjustments[k].amount
            && SpreadOf(items, adjustments[k]) == Ok(s.amounts)
            && |s.amounts| == |items| && Sum(s.amounts, AsIs) == s.amount
  {
    hide *;
    LastSpread(items, adjustments, n);
    if k < n - 1 {
      SpreadsExact(items, adjustments, n - 1, k);
    } else {
      SpreadExact(items, adjustments[k]);
    }
  }

  lemma LastSpread(items: seq<Item>, adjustments: seq<Adjustment>, n: nat)
    requires ItemsCheck(items, 0).Pass? && 1 <= n <= |adjustments| && Spreads(items, adjustments, n).Ok?
    ensures Spreads(items, adjustments, n - 1).Ok? && SpreadOf(items, adjustments[n - 1]).Ok?
    ensures var a := adjustments[n - 1];
            Spreads(items, adjustments, n).value ==
            Spreads(items, adjustments, n - 1).value + [Spread(a.kind, a.amount, SpreadOf(items, a).value)]
  {
    hide SpreadOf, ItemsCheck;
  }

  lemma {:induction false} AdjustedTotal(items: seq<Item>, spreads: seq<Spread>, n: nat)
    requires n <= |items| && forall s | s in spreads :: |s.amounts| == |items|
    ensures Sum(Adjusted(items, spreads)[..n], AdjustedAmountOf)
            == Sum(items[..n], ItemAmountOf) + Sum(spreads, FirstAmounts(n))
  {
    if n > 0 {
      AdjustedTotal(items, spreads, n - 1);
      SumSnoc(Adjusted(items, spreads), n - 1, AdjustedAmountOf);
      SumSnoc(items, n - 1, ItemAmountOf);
      AmountsSnoc(items, spreads, n);
      AdjustedOne(items, spreads, n - 1);
      hide *;
    } else {
      NoAmounts(items, spreads);
    }
  }

  lemma AmountsSnoc(items: seq<Item>, spreads: seq<Spread>, n: nat)
    requires 1 <= n <= |items| && forall s | s in spreads :: |s.amounts| == |items|
    ensures Sum(spreads, FirstAmounts(n)) == Sum(spreads, FirstAmounts(n - 1)) + Sum(spreads, AddedTo(n - 1))
  {
    hide Sum;
    forall s | s in spreads ensures FirstAmounts(n)(s) == FirstAmounts(n - 1)(s) + 1 * AddedTo(n - 1)(s) {
      SumSnoc(s.amounts, n - 1, AsIs);
    }
    SumPlus(spreads, FirstAmounts(n - 1), AddedTo(n - 1), FirstAmounts(n), 1);
  }

  lemma AdjustedOne(items: seq<Item>, spreads: seq<Spread>, k: nat)
    requires k < |items|
    ensures AdjustedAmountOf(Adjusted(items, spreads)[k]) == ItemAmountOf(items[k]) + Sum(spreads, AddedTo(k))
  {
  }

  lemma NoAmounts(items: seq<Item>, spreads: seq<Spread>)
    ensures Sum(Adjusted(items, spreads)[..0], AdjustedAmountOf)
            == Sum(items[..0], ItemAmountOf) + Sum(spreads, FirstAmounts(0))
  {
    forall s | s in spreads ensures FirstAmounts(0)(s) == Nothing(s) {
    }
    SumEqual(spreads, FirstAmounts(0), Nothing);
    NothingAddsUp(spreads);
  }

  function Nothing(s: Spread): int { 0 }

  lemma {:induction false} NothingAddsUp(spreads: seq<Spread>)
    ensures Sum(spreads, Nothing) == 0
  {
    if spreads != [] {
      NothingAddsUp(spreads[1..]);
    }
  }

  function FirstAmounts(n: nat): Spread -> int {
    (s: Spread) => if n <= |s.amounts| then Sum(s.amounts[..n], AsIs) else 0
  }

  function SpreadAmountOf(s: Spread): int { s.amount }

  lemma {:induction false} SpreadAmounts(spreads: seq<Spread>, adjustments: seq<Adjustment>)
    requires |spreads| == |adjustments| && forall k | 0 <= k < |spreads| :: spreads[k].amount == adjustments[k].amount
    ensures Sum(spreads, SpreadAmountOf) == Sum(adjustments, AdjustmentAmountOf)
  {
    if spreads != [] {
      SpreadAmounts(spreads[1..], adjustments[1..]);
    }
  }

  lemma RangePasses(adjusted: seq<AdjustedItem>)
    ensures RangeCheck(adjusted).Pass? <==> forall i | i in adjusted :: 0 <= i.adjustedAmount <= MAX_SAFE
  {
    if adjusted != [] {
      RangePasses(adjusted[1..]);
    }
  }

  /**
   * The adjusted total is the original total plus every adjustment, to the yen; no adjusted item leaves the safe range.
   */
  lemma CalculationConserves(items: seq<Item>, adjustments: seq<Adjustment>)
    requires Calculate(items, adjustments).Ok?
    ensures var c := Calculate(items, adjustments).value;
            && |c.items| == |items| && |c.allocations| == |adjustments|
            && Sum(c.items, AdjustedAmountOf) == Sum(items, ItemAmountOf) + Sum(adjustments, AdjustmentAmountOf)
            && (forall k | 0 <= k < |items| ::
                  && c.items[k].id == items[k].id && c.items[k].originalAmount == items[k].amount
                  && 0 <= c.items[k].adjustedAmount <= MAX_SAFE)
            && (forall s | s in c.allocations :: |s.amounts| == |items| && Sum(s.amounts, AsIs) == s.amount)
  {
    hide SpreadOf, ItemsCheck;
    var c := Calculate(items, adjustments).value;
    forall k | 0 <= k < |adjustments|
      ensures var s := c.allocations[k];
              |s.amounts| == |items| && Sum(s.amounts, AsIs) == s.amount && s.amount == adjustments[k].amount
    {
      SpreadsExact(items, adjustments, |adjustments|, k);
    }
    hide Spreads;
    AdjustedTotal(items, c.allocations, |items|);
    assert c.items[..|items|] == c.items && items[..|items|] == items;
    forall s | s in c.allocations ensures FirstAmounts(|items|)(s) == SpreadAmountOf(s) {
      assert s.amounts[..|items|] == s.amounts;
    }
    SumEqual(c.allocations, FirstAmounts(|items|), SpreadAmountOf);
    SpreadAmounts(c.allocations, adjustments);
    RangePasses(c.items);
    forall k | 0 <= k < |items| ensures 0 <= c.items[k].adjustedAmount <= MAX_SAFE {
      assert c.items[k] in c.items;
    }
  }

  /** Correcting one adjustment changes the adjusted total by exactly the change of its amount. */
  lemma CorrectionMovesTotal(items: seq<Item>, adjustments: seq<Adjustment>, k: nat, amount: int)
    requires k < |adjustments| && Calculate(items, adjustments).Ok?
    requires Calculate(items, adjustments[k := adjustments[k].(amount := amount)]).Ok?
    ensures Sum(Calculate(items, adjustments[k := adjustments[k].(amount := amount)]).value.items, AdjustedAmountOf)
            == Sum(Calculate(items, adjustments).value.items, AdjustedAmountOf) + amount - adjustments[k].amount
  {
    hide Calculate;
    var corrected := adjustments[k := adjustments[k].(amount := amount)];
    CalculationConserves(items, adjustments);
    CalculationConserves(items, corrected);
    SumUpdate(adjustments, k, adjustments[k].(amount := amount), AdjustmentAmountOf);
  }

  // ---- which inputs are accepted ----

  ghost predicate AdjustmentValid(items: seq<Item>, a: Adjustment) {
    && a.amount != 0 && SafeInteger(a.amount) && SignValid(a)
    && match a.target
       case OneItem(id) => exists i :: i in items && i.id == id
       case WholeReceipt => exists i :: i in items && i.amount > 0
  }

  lemma {:induction false} SomethingWeighs(items: seq<Item>)
    requires forall i | i in items :: i.amount >= 0
    ensures Sum(items, ItemAmountOf) > 0 <==> exists i :: i in items && i.amount > 0
  {
    if items != [] {
      forall i | i in items[1..] ensures ItemAmountOf(i) >= 0 {
        assert i in items;
      }
      SomethingWeighs(items[1..]);
      SumNonNegative(items[1..], ItemAmountOf);
      assert forall i :: i in items <==> i == items[0] || i in items[1..];
    }
  }

  lemma SpreadAccepts(items: seq<Item>, a: Adjustment)
    requires ItemsCheck(items, 0).Pass?
    ensures SpreadOf(items, a).Ok? <==> AdjustmentValid(items, a)
  {
    ItemsAccepted(items);
    OriginalTotal(items);
    SomethingWeighs(items);
    match a.target
    case OneItem(id) =>
      if i :| i in items && i.id == id {
        assert ItemValid(i);
      }
      if IndexOf(items, id).Some? {
        assert items[IndexOf(items, id).value] in items;
      }
    case WholeReceipt =>
  }

  lemma {:induction false} SpreadsAccept(items: seq<Item>, adjustments: seq<Adjustment>, n: nat)
    requires ItemsCheck(items, 0).Pass? && n <= |adjustments|
    ensures Spreads(items, adjustments, n).Ok? <==> forall k | 0 <= k < n :: AdjustmentValid(items, adjustments[k])
  {
    hide SpreadOf, AdjustmentValid, ItemsCheck;
    if n > 0 {
      SpreadsAccept(items, adjustments, n - 1);
      SpreadAccepts(items, adjustments[n - 1]);
    }
  }

  /**
   * A calculation is accepted exactly when the items are well formed and differently named, every adjustment has the
   * sign of its kind and something to rest on, and no adjusted amount leaves the safe range.
   */
  lemma CalculateAccepts(items: seq<Item>, adjustments: seq<Adjustment>)
    ensures Calculate(items, adjustments).Ok? <==>
            && DistinctBy(items, ItemIdOf) && (forall i | i in items :: ItemValid(i))
            && (forall k | 0 <= k < |adjustments| :: AdjustmentValid(items, adjustments[k]))
            && (ItemsCheck(items, 0).Pass? && Spreads(items, adjustments, |adjustments|).Ok? ==>
                  forall k | 0 <= k < |items| ::
                    0 <= AdjustedAmount(items, Spreads(items, adjustments, |adjustments|).value, k) <= MAX_SAFE)
  {
    hide SpreadOf, AdjustmentValid, AdjustedAmount;
    ItemsAccepted(items);
    if ItemsCheck(items, 0).Pass? {
      SpreadsAccept(items, adjustments, |adjustments|);
      if Spreads(items, adjustments, |adjustments|).Ok? {
        var adjusted := Adjusted(items, Spreads(items, adjustments, |adjustments|).value);
        RangePasses(adjusted);
        forall k | 0 <= k < |items| ensures adjusted[k] in adjusted {
        }
      }
    }
  }
}
