/** When a receipt's adjustments can be calculated, and the one calculation that follows, said item by item. */
module AdjustmentOutcomes {
  import opened Outcomes
  import opened Sequences
  import opened Text
  import opened TextRules
  import opened Apportionment
  import opened ReceiptAdjustments
  import opened AdjustmentProperties

  // ---- what may be calculated ----

  /** Named, differently, and with amounts that are not negative. */
  ghost predicate ItemsFine(items: seq<Item>) {
    && (forall i | i in items :: Written(i.id) && 0 <= i.amount <= MAX_SAFE)
    && forall i, j | 0 <= i < j < |items| :: items[i].id != items[j].id
  }

  /**
   * Taxes and shipping add, discounts and points take away; an item's adjustment must have its item, a receipt's some
   * amount to rest on.
   */
  ghost predicate AdjustmentFine(items: seq<Item>, a: Adjustment) {
    && (a.kind == Tax || a.kind == Shipping ==> 1 <= a.amount <= MAX_SAFE)
    && (a.kind == Discount || a.kind == Point ==> -MAX_SAFE <= a.amount <= -1)
    && match a.target
       case OneItem(id) => exists i :: i in items && i.id == id
       case WholeReceipt => exists i :: i in items && i.amount > 0
  }

  // ---- one spread ----

  function Original(i: Item): int { i.amount }
  function Yen(n: int): int { n }

  function Size(n: int): int {
    if n < 0 then -n else n
  }

  /** The floor of the item's quota of the amount, its sign aside. */
  function Quota(items: seq<Item>, amount: int, k: int): int
    requires 0 <= k < |items| && Sum(items, Original) > 0
  {
    Size(amount) * items[k].amount / Sum(items, Original)
  }

  function LeftOver(items: seq<Item>, amount: int, k: int): int
    requires 0 <= k < |items| && Sum(items, Original) > 0
  {
    Size(amount) * items[k].amount % Sum(items, Original)
  }

  /**
   * The amount is given out in the proportion of the items' amounts: everyone gets the floor or one yen more, and the
   * extra yen go to the larger remainders, among equals to the earlier items.
   */
  ghost predicate FairlySpread(items: seq<Item>, amount: int, xs: seq<int>) {
    && |xs| == |items| && Sum(items, Original) > 0 && Sum(xs, Yen) == amount
    && (forall k | 0 <= k < |xs| :: if amount < 0 then xs[k] <= 0 else xs[k] >= 0)
    && (forall k | 0 <= k < |xs| :: Quota(items, amount, k) <= Size(xs[k]) <= Quota(items, amount, k) + 1)
    && forall i, j | 0 <= i < |xs| && 0 <= j < |xs| && Size(xs[i]) == Quota(items, amount, i) + 1 &&
                     Size(xs[j]) == Quota(items, amount, j) ::
         || LeftOver(items, amount, i) > LeftOver(items, amount, j)
         || (LeftOver(items, amount, i) == LeftOver(items, amount, j) && i < j)
  }

  /** An item's adjustment rests on that item alone, a receipt's is fairly spread. */
  ghost predicate RestsOn(items: seq<Item>, a: Adjustment, xs: seq<int>) {
    match a.target
    case OneItem(id) =>
      |xs| == |items| && forall k | 0 <= k < |items| :: xs[k] == if items[k].id == id then a.amount else 0
    case WholeReceipt => FairlySpread(items, a.amount, xs)
  }

  lemma OriginalSum(items: seq<Item>)
    ensures Sum(Weights(items), AsIs) == Sum(items, Original)
  {
    SumMap(items, ItemAmountOf, AsIs, Original);
  }

  lemma YenSum(xs: seq<int>)
    ensures Sum(xs, AsIs) == Sum(xs, Yen)
  {
    SumsAlike(xs, xs, AsIs, Yen);
  }

  lemma SharesFair(items: seq<Item>, amount: int)
    requires Sum(items, Original) > 0 && Sum(Weights(items), AsIs) == Sum(items, Original)
    requires forall i | i in items :: i.amount >= 0
    ensures |Shares(Magnitude(amount), Weights(items))| == |items|
    ensures FairlySpread(items, amount, Signed(amount, Shares(Magnitude(amount), Weights(items))))
  {
    hide *;
    var n, ws := Magnitude(amount), Weights(items);
    var shares := Shares(n, ws);
    SharesApportion(n, ws);
    ApportionedSays(n, ws, shares);
    MagnitudeIs(amount);
    WeightsAre(items);
    PortionSum(Portions(ws, shares), shares);
    SignedSum(amount, shares);
    YenSum(Signed(amount, shares));
    ApportionedTotal(n, ws, shares);
    FairWhen(items, amount, ws, shares);
  }

  lemma MagnitudeIs(amount: int)
    ensures Magnitude(amount) == Size(amount) == (if amount < 0 then -amount else amount)
  {
  }

  lemma WeightsAre(items: seq<Item>)
    ensures forall k | 0 <= k < |items| :: Weights(items)[k] == items[k].amount
  {
  }

  lemma ApportionedTotal(n: nat, ws: seq<int>, shares: seq<int>)
    requires |shares| == |ws| && Sum(ws, AsIs) > 0
    requires Apportioned(n, Sum(ws, AsIs), Portions(ws, shares))
    ensures Sum(Portions(ws, shares), ShareOf) == n
  {
    hide Floor, Sum, Beats;
  }

  /** The largest-remainder rule for the shares of a receipt's items, place by place. */
  lemma ApportionedSays(n: nat, ws: seq<int>, shares: seq<int>)
    requires |shares| == |ws| && Sum(ws, AsIs) > 0
    requires Apportioned(n, Sum(ws, AsIs), Portions(ws, shares))
    ensures forall k | 0 <= k < |ws| ::
              n * ws[k] / Sum(ws, AsIs) <= shares[k] <= n * ws[k] / Sum(ws, AsIs) + 1
    ensures forall i, j | 0 <= i < |ws| && 0 <= j < |ws| && shares[i] == n * ws[i] / Sum(ws, AsIs) + 1 &&
                          shares[j] == n * ws[j] / Sum(ws, AsIs) ::
              n * ws[i] % Sum(ws, AsIs) > n * ws[j] % Sum(ws, AsIs) ||
              (n * ws[i] % Sum(ws, AsIs) == n * ws[j] % Sum(ws, AsIs) && i < j)
  {
    var total, ps := Sum(ws, AsIs), Portions(ws, shares);
    hide Sum;
    forall k | 0 <= k < |ws| ensures n * ws[k] / total <= shares[k] <= n * ws[k] / total + 1 {
      ShareBounds(n, total, ps, ps[k]);
    }
    forall i, j | 0 <= i < |ws| && 0 <= j < |ws| && shares[i] == n * ws[i] / total + 1 &&
                  shares[j] == n * ws[j] / total
      ensures n * ws[i] % total > n * ws[j] % total || (n * ws[i] % total == n * ws[j] % total && i < j)
    {
      hide Apportioned;
      ShareBounds(n, total, ps, ps[i]);
      ExtraBeats(n, total, ps, ps[i], ps[j]);
      FloorSays(n, total, ws[i]);
      FloorSays(n, total, ws[j]);
    }
  }

  lemma FloorSays(n: int, total: int, w: int)
    requires total > 0
    ensures Floor(n, total, w) == n * w / total
  {
  }

  lemma ShareBounds(n: int, total: int, ps: seq<Portion>, p: Portion)
    requires total > 0 && Apportioned(n, total, ps) && p in ps
    ensures n * p.weight / total <= p.share <= n * p.weight / total + 1
  {
    FloorSays(n, total, p.weight);
    hide Floor, Sum, Beats;
  }

  lemma FairWhen(items: seq<Item>, amount: int, ws: seq<int>, shares: seq<int>)
    requires |ws| == |shares| == |items| && (forall k | 0 <= k < |items| :: ws[k] == items[k].amount >= 0)
    requires Sum(items, Original) == Sum(ws, AsIs) > 0 && Sum(Signed(amount, shares), Yen) == amount
    requires forall k | 0 <= k < |ws| ::
               Size(amount) * ws[k] / Sum(ws, AsIs) <= shares[k] <= Size(amount) * ws[k] / Sum(ws, AsIs) + 1
    requires forall i, j | 0 <= i < |ws| && 0 <= j < |ws| &&
                           shares[i] == Size(amount) * ws[i] / Sum(ws, AsIs) + 1 &&
                           shares[j] == Size(amount) * ws[j] / Sum(ws, AsIs) ::
               Size(amount) * ws[i] % Sum(ws, AsIs) > Size(amount) * ws[j] % Sum(ws, AsIs) ||
               (Size(amount) * ws[i] % Sum(ws, AsIs) == Size(amount) * ws[j] % Sum(ws, AsIs) && i < j)
    ensures FairlySpread(items, amount, Signed(amount, shares))
  {
    var total, xs := Sum(ws, AsIs), Signed(amount, shares);
    hide Sum;
    forall k | 0 <= k < |xs|
      ensures Size(xs[k]) == shares[k] >= 0 && Quota(items, amount, k) == Size(amount) * ws[k] / total
    {
      QuotaNotNegative(Size(amount), ws[k], total);
    }
    forall k | 0 <= k < |xs| ensures LeftOver(items, amount, k) == Size(amount) * ws[k] % total {
    }
    hide Quota, LeftOver, Size;
  }

  lemma QuotaNotNegative(n: int, w: int, total: int)
    requires n >= 0 && w >= 0 && total > 0
    ensures n * w / total >= 0
  {
  }

  /** No two fair spreads differ. */
  lemma FairIsSigned(items: seq<Item>, amount: int, xs: seq<int>)
    requires FairlySpread(items, amount, xs) && Sum(Weights(items), AsIs) == Sum(items, Original) > 0
    requires forall i | i in items :: i.amount >= 0
    ensures |Shares(Magnitude(amount), Weights(items))| == |items|
    ensures xs == Signed(amount, Shares(Magnitude(amount), Weights(items)))
  {
    hide *;
    var ws, n := Weights(items), Magnitude(amount);
    MagnitudeIs(amount);
    WeightsAre(items);
    var sizes := Map(xs, Size);
    FairSizes(items, amount, xs);
    SizesSum(items, amount, xs);
    FairApportions(items, amount, xs, ws, sizes);
    SharesUnique(n, ws, sizes);
    SignedSizes(items, amount, xs, sizes);
  }

  lemma FairSizes(items: seq<Item>, amount: int, xs: seq<int>)
    requires FairlySpread(items, amount, xs)
    ensures |xs| == |items| && Sum(items, Original) > 0 && Sum(xs, Yen) == amount
    ensures forall k | 0 <= k < |xs| :: if amount < 0 then xs[k] <= 0 else xs[k] >= 0
  {
    hide Sum, Quota, LeftOver, Size;
  }

  lemma {:induction false} SizesAdd(xs: seq<int>, negative: bool)
    requires forall k | 0 <= k < |xs| :: if negative then xs[k] <= 0 else xs[k] >= 0
    ensures Sum(Map(xs, Size), AsIs) == if negative then -Sum(xs, Yen) else Sum(xs, Yen)
  {
    if xs != [] {
      assert Map(xs, Size)[1..] == Map(xs[1..], Size);
      SizesAdd(xs[1..], negative);
    }
  }

  lemma SizesSum(items: seq<Item>, amount: int, xs: seq<int>)
    requires Sum(xs, Yen) == amount
    requires forall k | 0 <= k < |xs| :: if amount < 0 then xs[k] <= 0 else xs[k] >= 0
    ensures Sum(Map(xs, Size), AsIs) == Size(amount)
  {
    SizesAdd(xs, amount < 0);
    hide Sum;
  }

  lemma SignedSizes(items: seq<Item>, amount: int, xs: seq<int>, sizes: seq<int>)
    requires sizes == Map(xs, Size)
    requires forall k | 0 <= k < |xs| :: if amount < 0 then xs[k] <= 0 else xs[k] >= 0
    ensures xs == Signed(amount, sizes)
  {
  }

  lemma FairApportions(items: seq<Item>, amount: int, xs: seq<int>, ws: seq<int>, sizes: seq<int>)
    requires FairlySpread(items, amount, xs) && |ws| == |items| && forall k | 0 <= k < |ws| :: ws[k] == items[k].amount
    requires Sum(ws, AsIs) == Sum(items, Original) > 0 && sizes == Map(xs, Size) && Sum(sizes, AsIs) == Size(amount)
    ensures Apportioned(Size(amount), Sum(ws, AsIs), Portions(ws, sizes))
  {
    var n, total, ps := Size(amount), Sum(ws, AsIs), Portions(ws, sizes);
    PortionSum(ps, sizes);
    hide Sum, Size, Floor, Beats;
    forall k | 0 <= k < |ws|
      ensures ps[k].share == Floor(n, total, ps[k].weight) || ps[k].share == Floor(n, total, ps[k].weight) + 1
    {
      FloorSays(n, total, ws[k]);
    }
    forall i, j | 0 <= i < |ws| && 0 <= j < |ws| && ps[i].share > Floor(n, total, ps[i].weight) &&
                  ps[j].share == Floor(n, total, ps[j].weight)
      ensures Beats(n, total, ps[i], ps[j])
    {
      FairBeats(items, amount, xs, ws, i, j);
    }
    hide FairlySpread;
    assert forall p | p in ps :: exists k :: 0 <= k < |ws| && ps[k] == p;
  }

  lemma FairBeats(items: seq<Item>, amount: int, xs: seq<int>, ws: seq<int>, i: nat, j: nat)
    requires FairlySpread(items, amount, xs) && |ws| == |items| && forall k | 0 <= k < |ws| :: ws[k] == items[k].amount
    requires Sum(ws, AsIs) == Sum(items, Original) > 0 && i < |xs| && j < |xs|
    requires Size(xs[i]) > Floor(Size(amount), Sum(ws, AsIs), ws[i])
    requires Size(xs[j]) == Floor(Size(amount), Sum(ws, AsIs), ws[j])
    ensures Beats(Size(amount), Sum(ws, AsIs), Portion(i, ws[i], Size(xs[i])), Portion(j, ws[j], Size(xs[j])))
  {
    QuotaIs(items, amount, Sum(ws, AsIs), i);
    QuotaIs(items, amount, Sum(ws, AsIs), j);
    hide Sum, Size, Floor, Quota, LeftOver, Apportionment.Remainder;
    assert Size(xs[i]) == Quota(items, amount, i) + 1 && Size(xs[j]) == Quota(items, amount, j);
  }

  lemma QuotaIs(items: seq<Item>, amount: int, total: int, k: nat)
    requires k < |items| && total == Sum(items, Original) > 0
    ensures Quota(items, amount, k) == Floor(Size(amount), total, items[k].amount)
    ensures LeftOver(items, amount, k) == Apportionment.Remainder(Size(amount), total, items[k].amount)
  {
    hide Sum, Size;
  }

  // ---- one adjustment ----

  lemma ItemsAre(items: seq<Item>)
    ensures ItemsCheck(items, 0).Pass? <==> ItemsFine(items)
  {
    ItemsAccepted(items);
    hide ItemsCheck, Nonempty, Written;
    forall i: Item ensures Nonempty(i.id) <==> Written(i.id) {
      WrittenIs(i.id);
    }
    if DistinctBy(items, ItemIdOf) {
      forall i, j | 0 <= i < j < |items| ensures items[i].id != items[j].id {
        assert ItemIdOf(items[i]) != ItemIdOf(items[j]);
      }
    }
  }

  lemma AdjustmentIs(items: seq<Item>, a: Adjustment)
    ensures AdjustmentValid(items, a) <==> AdjustmentFine(items, a)
  {
  }

  lemma OnlyThatItem(items: seq<Item>, a: Adjustment)
    requires ItemsCheck(items, 0).Pass? && a.target.OneItem? && SpreadOf(items, a).Ok?
    ensures RestsOn(items, a, SpreadOf(items, a).value)
  {
    ItemsAre(items);
    hide ItemsCheck, Written, SignValid;
    var k := IndexOf(items, a.target.itemId).value;
    assert forall m | 0 <= m < |items| && m != k ::
        if m < k then items[m].id != items[k].id else items[k].id != items[m].id;
  }

  lemma WholeSpread(items: seq<Item>, a: Adjustment)
    requires ItemsCheck(items, 0).Pass? && a.target.WholeReceipt? && SpreadOf(items, a).Ok?
    ensures Sum(Weights(items), AsIs) > 0
    ensures SpreadOf(items, a).value == Signed(a.amount, Shares(Magnitude(a.amount), Weights(items)))
  {
    hide ItemsCheck, Shares, Sum;
  }

  lemma NoneNegative(items: seq<Item>)
    requires ItemsFine(items)
    ensures forall i | i in items :: i.amount >= 0
  {
    hide Written;
  }

  /** What an adjustment adds to the items is the one list that rests on them as it should. */
  lemma SpreadFits(items: seq<Item>, a: Adjustment, xs: seq<int>)
    requires ItemsCheck(items, 0).Pass? && SpreadOf(items, a).Ok?
    ensures RestsOn(items, a, xs) <==> xs == SpreadOf(items, a).value
  {
    hide *;
    ItemsAre(items);
    NoneNegative(items);
    OriginalSum(items);
    match a.target
    case OneItem(id) => OnlyThatItem(items, a); RestsOnce(items, a, xs, SpreadOf(items, a).value);
    case WholeReceipt =>
      WholeSpread(items, a);
      SharesFair(items, a.amount);
      RestsSays(items, a, xs);
      if FairlySpread(items, a.amount, xs) {
        FairIsSigned(items, a.amount, xs);
      }
  }

  lemma RestsOnce(items: seq<Item>, a: Adjustment, xs: seq<int>, ys: seq<int>)
    requires a.target.OneItem? && RestsOn(items, a, ys)
    ensures RestsOn(items, a, xs) <==> xs == ys
  {
  }

  lemma RestsSays(items: seq<Item>, a: Adjustment, xs: seq<int>)
    requires a.target.WholeReceipt?
    ensures RestsOn(items, a, xs) <==> FairlySpread(items, a.amount, xs)
  {
    hide FairlySpread;
  }

  // ---- the whole calculation ----

  function Added(k: nat): Spread -> int {
    (s: Spread) => if k < |s.amounts| then s.amounts[k] else 0
  }

  /** The adjustment with what it adds to every item. */
  ghost predicate SpreadFor(items: seq<Item>, a: Adjustment, s: Spread) {
    s.kind == a.kind && s.amount == a.amount && RestsOn(items, a, s.amounts)
  }

  /** The spreads of the adjustments one by one, and every item with all of them added. */
  ghost predicate CalculatedAs(items: seq<Item>, adjustments: seq<Adjustment>, c: Calculation) {
    && |c.items| == |items| && |c.allocations| == |adjustments|
    && (forall k | 0 <= k < |adjustments| :: SpreadFor(items, adjustments[k], c.allocations[k]))
    && forall k | 0 <= k < |items| ::
         && c.items[k] == AdjustedItem(items[k].id, items[k].amount, items[k].amount + Sum(c.allocations, Added(k)))
         && 0 <= c.items[k].adjustedAmount <= MAX_SAFE
  }

  ghost predicate Calculable(items: seq<Item>, adjustments: seq<Adjustment>) {
    ItemsFine(items) && forall a | a in adjustments :: AdjustmentFine(items, a)
  }

  lemma SpreadForIs(items: seq<Item>, adjustments: seq<Adjustment>, k: nat, s: Spread)
    requires ItemsCheck(items, 0).Pass? && Spreads(items, adjustments, |adjustments|).Ok? && k < |adjustments|
    ensures SpreadFor(items, adjustments[k], s) <==> s == Spreads(items, adjustments, |adjustments|).value[k]
  {
    SpreadsExact(items, adjustments, |adjustments|, k);
    SpreadFits(items, adjustments[k], s.amounts);
    hide ItemsCheck, Spreads, RestsOn, SpreadOf, Sum;
  }

  /** The spreads made are the only ones that rest on the items as they should. */
  lemma SpreadsFit(items: seq<Item>, adjustments: seq<Adjustment>, spreads: seq<Spread>)
    requires ItemsCheck(items, 0).Pass? && Spreads(items, adjustments, |adjustments|).Ok?
    ensures spreads == Spreads(items, adjustments, |adjustments|).value <==>
            |spreads| == |adjustments| && forall k | 0 <= k < |adjustments| ::
              SpreadFor(items, adjustments[k], spreads[k])
  {
    var made := Spreads(items, adjustments, |adjustments|).value;
    hide *;
    if |spreads| == |adjustments| {
      forall k | 0 <= k < |adjustments|
        ensures SpreadFor(items, adjustments[k], spreads[k]) <==> spreads[k] == made[k]
      {
        SpreadForIs(items, adjustments, k, spreads[k]);
      }
    }
  }

  lemma AdjustedAre(items: seq<Item>, spreads: seq<Spread>)
    ensures forall k | 0 <= k < |items| ::
              Adjusted(items, spreads)[k] ==
              AdjustedItem(items[k].id, items[k].amount, items[k].amount + Sum(spreads, Added(k)))
  {
    forall k | 0 <= k < |items| ensures Sum(spreads, AddedTo(k)) == Sum(spreads, Added(k)) {
      SumsAlike(spreads, spreads, AddedTo(k), Added(k));
    }
    hide Sum, Added, AddedTo;
  }

  lemma CalculateSays(items: seq<Item>, adjustments: seq<Adjustment>)
    ensures Calculate(items, adjustments).Ok? <==>
            ItemsCheck(items, 0).Pass? && Spreads(items, adjustments, |adjustments|).Ok? &&
            forall i | i in Adjusted(items, Spreads(items, adjustments, |adjustments|).value) ::
              0 <= i.adjustedAmount <= MAX_SAFE
    ensures Calculate(items, adjustments).Ok? ==>
            Calculate(items, adjustments).value ==
            Calculation(Adjusted(items, Spreads(items, adjustments, |adjustments|).value),
                        Spreads(items, adjustments, |adjustments|).value)
  {
    hide Spreads, Adjusted, ItemsCheck;
    if ItemsCheck(items, 0).Pass? && Spreads(items, adjustments, |adjustments|).Ok? {
      RangePasses(Adjusted(items, Spreads(items, adjustments, |adjustments|).value));
    }
    hide RangeCheck;
  }

  lemma CalculatedSays(items: seq<Item>, adjustments: seq<Adjustment>, c: Calculation)
    requires ItemsCheck(items, 0).Pass? && Spreads(items, adjustments, |adjustments|).Ok?
    ensures var spreads := Spreads(items, adjustments, |adjustments|).value;
            CalculatedAs(items, adjustments, c) <==>
            c == Calculation(Adjusted(items, spreads), spreads) && forall i | i in c.items ::
              0 <= i.adjustedAmount <= MAX_SAFE
  {
    SpreadsFit(items, adjustments, c.allocations);
    AdjustedAre(items, c.allocations);
    hide ItemsCheck, Spreads, Adjusted, SpreadFor, Sum, Added;
    assert |c.items| == |items| ==> (c.items == Adjusted(items, c.allocations) <==>
                                     forall k | 0 <= k < |items| :: c.items[k] == Adjusted(items, c.allocations)[k]);
  }

  /**
   * A calculation is made exactly for well-formed items and adjustments whose one fair outcome keeps every item in
   * range, and it is that outcome.
   */
  lemma CalculateExact(items: seq<Item>, adjustments: seq<Adjustment>, c: Calculation)
    ensures Calculate(items, adjustments) == Ok(c) <==>
            Calculable(items, adjustments) && CalculatedAs(items, adjustments, c)
  {
    hide *;
    CalculateSays(items, adjustments);
    CalculableIs(items, adjustments);
    if ItemsCheck(items, 0).Pass? && Spreads(items, adjustments, |adjustments|).Ok? {
      CalculatedSays(items, adjustments, c);
    }
  }

  lemma CalculableIs(items: seq<Item>, adjustments: seq<Adjustment>)
    ensures Calculable(items, adjustments) <==>
            ItemsCheck(items, 0).Pass? && Spreads(items, adjustments, |adjustments|).Ok?
  {
    ItemsAre(items);
    if ItemsCheck(items, 0).Pass? {
      SpreadsAccept(items, adjustments, |adjustments|);
    }
    hide ItemsCheck, ItemsFine, Spreads, AdjustmentValid, AdjustmentFine;
    forall a | a in adjustments ensures AdjustmentValid(items, a) <==> AdjustmentFine(items, a) {
      AdjustmentIs(items, a);
    }
  }
}
