/** Receipt adjustments: tax, shipping, discounts and points spread over the items of a receipt. */
module ReceiptAdjustments {
  import opened Outcomes
  import opened Sorting
  import opened Sequences
  import opened Text
  import opened Apportionment

  datatype Kind = Tax | Shipping | Discount | Point

  datatype Target = WholeReceipt | OneItem(itemId: string)

  datatype Adjustment = Adjustment(kind: Kind, amount: int, target: Target)

  datatype Item = Item(id: string, amount: int)

  datatype Spread = Spread(kind: Kind, amount: int, amounts: seq<int>)

  datatype AdjustedItem = AdjustedItem(id: string, originalAmount: int, adjustedAmount: int)

  datatype Calculation = Calculation(items: seq<AdjustedItem>, allocations: seq<Spread>)

  datatype AdjustmentError =
    | ItemReferenceInvalid | ItemReferenceDuplicated | ItemAmountInvalid | AdjustmentAmountInvalid
    | AdjustmentSignInvalid | AdjustmentTargetInvalid | AdjustmentItemNotFound | ReceiptAdjustmentBasisZero
    | AdjustedAmountNegative | AdjustedAmountUnsafe

  function ItemIdOf(i: Item): string { i.id }
  function ItemAmountOf(i: Item): int { i.amount }
  function AdjustmentAmountOf(a: Adjustment): int { a.amount }
  function AdjustedAmountOf(i: AdjustedItem): int { i.adjustedAmount }
  function AsIs(n: int): int { n }

  // ---- the items ----

  predicate ItemValid(i: Item) {
    Nonempty(i.id) && 0 <= i.amount <= MAX_SAFE
  }

  /** The first rejection among the items from `k` on. */
  function ItemsCheck(items: seq<Item>, k: nat): Check<AdjustmentError>
    requires k <= |items|
    decreases |items| - k
  {
    if k == |items| then Pass
    else if !Nonempty(items[k].id) then Fail(ItemReferenceInvalid)
    else if items[k].id in Ids(items[..k]) then Fail(ItemReferenceDuplicated)
    else if !(SafeInteger(items[k].amount) && items[k].amount >= 0) then Fail(ItemAmountInvalid)
    else ItemsCheck(items, k + 1)
  }

  function Ids(items: seq<Item>): set<string> {
    set i | i in items :: i.id
  }

  function Weights(items: seq<Item>): (ws: seq<int>)
    ensures |ws| == |items|
  {
    Map(items, ItemAmountOf)
  }

  // ---- one adjustment ----

  /** The claims of the items in receipt order, each with the floor of its quota. */
  function Floors(amount: int, total: int, ws: seq<int>): (ps: seq<Portion>)
    requires total > 0
    ensures |ps| == |ws| && forall k | 0 <= k < |ws| :: ps[k] == Portion(k, ws[k], Floor(amount, total, ws[k]))
  {
    seq(|ws|, k requires 0 <= k < |ws| => Portion(k, ws[k], Floor(amount, total, ws[k])))
  }

  function NotAfter(amount: int, total: int): (Portion, Portion) -> bool
    requires total > 0
  {
    (p: Portion, q: Portion) => Beats(amount, total, p, q) || !Beats(amount, total, q, p)
  }

  predicate ByPlace(p: Portion, q: Portion) {
    p.place <= q.place
  }

  /** Largest remainder first, earlier items first among equals; back in receipt order at the end. */
  function Shares(amount: int, ws: seq<int>): seq<int>
    requires amount >= 0 && Sum(ws, AsIs) > 0
  {
    var total := Sum(ws, AsIs);
    var ranked := Sort(Floors(amount, total, ws), NotAfter(amount, total));
    var spare := Spare(amount, ranked);
    Map(Sort(Topped(ranked, if spare < 0 then 0 else spare), ByPlace), ShareOf)
  }

  function Signed(amount: int, shares: seq<int>): (r: seq<int>)
    ensures |r| == |shares| && forall k | 0 <= k < |r| :: r[k] == if amount < 0 then -shares[k] else shares[k]
  {
    seq(|shares|, k requires 0 <= k < |shares| => if amount < 0 then -shares[k] else shares[k])
  }

  function Magnitude(amount: int): nat {
    if amount < 0 then -amount else amount
  }

  function Zeros(n: nat): (r: seq<int>)
    ensures |r| == n && forall k | 0 <= k < n :: r[k] == 0
  {
    seq(n, _ => 0)
  }

  function ItemNamed(id: string): Item -> bool {
    (i: Item) => i.id == id
  }

  function IndexOf(items: seq<Item>, id: string): (r: Option<nat>)
    ensures r.Some? ==> r.value < |items| && items[r.value].id == id
    ensures r.None? ==> forall i | i in items :: i.id != id
  {
    FirstWhere(items, ItemNamed(id))
  }

  predicate SignValid(a: Adjustment) {
    if a.kind == Tax || a.kind == Shipping then a.amount > 0 else a.amount < 0
  }

  function SpreadOf(items: seq<Item>, a: Adjustment): (r: Result<seq<int>, AdjustmentError>)
    requires ItemsCheck(items, 0).Pass?
  {
    if !SafeInteger(a.amount) || a.amount == 0 then Err(AdjustmentAmountInvalid)
    else if !SignValid(a) then Err(AdjustmentSignInvalid)
    else match a.target
      case OneItem(id) => (
        if !Nonempty(id) then Err(AdjustmentTargetInvalid)
        else match IndexOf(items, id)
          case None => Err(AdjustmentItemNotFound)
          case Some(k) => Ok(Zeros(|items|)[k := a.amount]))
      case WholeReceipt =>
        if Sum(Weights(items), AsIs) <= 0 then Err(ReceiptAdjustmentBasisZero)
        else Ok(Signed(a.amount, Shares(Magnitude(a.amount), Weights(items))))
  }

  // ---- all adjustments ----

  /** The spreads of the first `n` adjustments. */
  function Spreads(items: seq<Item>, adjustments: seq<Adjustment>, n: nat): (r: Result<seq<Spread>, AdjustmentError>)
    requires ItemsCheck(items, 0).Pass? && n <= |adjustments|
    ensures r.Ok? ==> |r.value| == n
  {
    if n == 0 then Ok([])
    else
      var earlier :- Spreads(items, adjustments, n - 1);
      var amounts :- SpreadOf(items, adjustments[n - 1]);
      Ok(earlier + [Spread(adjustments[n - 1].kind, adjustments[n - 1].amount, amounts)])
  }

  /** What is added to item `k` by the spreads. */
  function AddedTo(k: nat): Spread -> int {
    (s: Spread) => if k < |s.amounts| then s.amounts[k] else 0
  }

  function AdjustedAmount(items: seq<Item>, spreads: seq<Spread>, k: nat): int
    requires k < |items|
  {
    items[k].amount + Sum(spreads, AddedTo(k))
  }

  function Adjusted(items: seq<Item>, spreads: seq<Spread>): (r: seq<AdjustedItem>)
    ensures |r| == |items|
    ensures forall k | 0 <= k < |r| ::
            r[k] == AdjustedItem(items[k].id, items[k].amount, AdjustedAmount(items, spreads, k))
  {
    seq(|items|, k requires 0 <= k < |items| =>
      AdjustedItem(items[k].id, items[k].amount, AdjustedAmount(items, spreads, k)))
  }

  function RangeCheck(adjusted: seq<AdjustedItem>): Check<AdjustmentError> {
    if adjusted == [] then Pass
    else if adjusted[0].adjustedAmount < 0 then Fail(AdjustedAmountNegative)
    else if adjusted[0].adjustedAmount > MAX_SAFE then Fail(AdjustedAmountUnsafe)
    else RangeCheck(adjusted[1..])
  }

  function Calculate(items: seq<Item>, adjustments: seq<Adjustment>): (r: Result<Calculation, AdjustmentError>)
    ensures r.Ok? ==> |r.value.items| == |items| && |r.value.allocations| == |adjustments|
  {
    var check := ItemsCheck(items, 0);
    :- check;
    var spreads :- Spreads(items, adjustments, |adjustments|);
    :- RangeCheck(Adjusted(items, spreads));
    Ok(Calculation(Adjusted(items, spreads), spreads))
  }

  // ---- the whole-receipt spread is an apportionment ----

  lemma RankOrder(amount: int, total: int)
    requires total > 0
    ensures TotalPreorder(NotAfter(amount, total))
  {
  }

  lemma {:induction false} WeightsAddUp(ps: seq<Portion>, ws: seq<int>)
    requires |ps| == |ws| && forall k | 0 <= k < |ps| :: ps[k].weight == ws[k]
    ensures Sum(ps, WeightOf) == Sum(ws, AsIs)
  {
    if ps != [] {
      WeightsAddUp(ps[1..], ws[1..]);
    }
  }

  /** The ranking of the items: a rearrangement of their claims, best remainder first. */
  lemma RankingRanks(amount: int, ws: seq<int>) returns (ranked: seq<Portion>)
    requires Sum(ws, AsIs) > 0
    ensures ranked == Sort(Floors(amount, Sum(ws, AsIs), ws), NotAfter(amount, Sum(ws, AsIs)))
    ensures multiset(ranked) == multiset(Floors(amount, Sum(ws, AsIs), ws)) && |ranked| == |ws|
    ensures Ranked(amount, Sum(ws, AsIs), ranked) && DistinctBy(ranked, PlaceOf)
    ensures Sum(ranked, WeightOf) == Sum(ws, AsIs)
  {
    var total := Sum(ws, AsIs);
    var floors := Floors(amount, total, ws);
    ranked := Sort(floors, NotAfter(amount, total));
    RankOrder(amount, total);
    SortSorts(floors, NotAfter(amount, total));
    SamePlaces(ranked, floors);
    assert DistinctBy(floors, PlaceOf);
    DistinctByRearranged(floors, ranked, PlaceOf);
    SumPermutation(ranked, floors, WeightOf);
    WeightsAddUp(floors, ws);
    forall i, j | 0 <= i < j < |ranked| ensures Beats(amount, total, ranked[i], ranked[j]) {
      assert NotAfter(amount, total)(ranked[i], ranked[j]);
      assert PlaceOf(ranked[i]) != PlaceOf(ranked[j]);
    }
  }

  predicate ClaimsInOrder(x: (int, int), y: (int, int)) {
    x.0 <= y.0
  }

  /** Claims sorted by place are the claims standing at their own positions. */
  lemma SortedClaims(xs: seq<(int, int)>, ys: seq<(int, int)>)
    requires multiset(xs) == multiset(ys) && SortedBy(xs, ClaimsInOrder) && forall k | 0 <= k < |ys| :: ys[k].0 == k
    ensures xs == ys
  {
    SamePlaces(xs, ys);
    forall x, y | x in multiset(xs) && y in multiset(xs) && ClaimsInOrder(x, y) && ClaimsInOrder(y, x) ensures x == y {
      assert x in ys && y in ys;
    }
    SortedUnique(xs, ys, ClaimsInOrder);
  }

  /** Sorting by place puts every claim back at its own position. */
  lemma BackInPlace(ps: seq<Portion>, floors: seq<Portion>)
    requires multiset(Map(ps, Claim)) == multiset(Map(floors, Claim))
    requires forall k | 0 <= k < |floors| :: floors[k].place == k
    ensures |Sort(ps, ByPlace)| == |ps| == |floors| && multiset(Sort(ps, ByPlace)) == multiset(ps)
    ensures forall k | 0 <= k < |floors| :: Claim(Sort(ps, ByPlace)[k]) == Claim(floors[k])
  {
    SortSorts(ps, ByPlace);
    var sorted := Sort(ps, ByPlace);
    hide Sort;
    MapPermutation(sorted, ps, Claim);
    var xs, ys := Map(sorted, Claim), Map(floors, Claim);
    forall i, j | 0 <= i < j < |xs| ensures ClaimsInOrder(xs[i], xs[j]) {
      assert ByPlace(sorted[i], sorted[j]);
    }
    SortedClaims(xs, ys);
    forall k | 0 <= k < |floors| ensures Claim(sorted[k]) == Claim(floors[k]) {
      assert xs[k] == Claim(sorted[k]) && ys[k] == Claim(floors[k]);
    }
  }

  lemma ToppedClaims(ps: seq<Portion>, n: nat)
    ensures Map(Topped(ps, n), Claim) == Map(ps, Claim)
  {
  }

  /** The shares of a whole-receipt adjustment, as portions in receipt order. */
  function Portions(ws: seq<int>, shares: seq<int>): (ps: seq<Portion>)
    requires |shares| == |ws|
    ensures |ps| == |ws| && forall k | 0 <= k < |ws| :: ps[k] == Portion(k, ws[k], shares[k])
  {
    seq(|ws|, k requires 0 <= k < |ws| => Portion(k, ws[k], shares[k]))
  }

  /** What `Shares` hands out is the largest-remainder apportionment of the amount over the item amounts. */
  lemma SharesApportion(amount: int, ws: seq<int>)
    requires amount >= 0 && Sum(ws, AsIs) > 0
    ensures |Shares(amount, ws)| == |ws|
    ensures Apportioned(amount, Sum(ws, AsIs), Portions(ws, Shares(amount, ws)))
    ensures Sum(Portions(ws, Shares(amount, ws)), WeightOf) == Sum(ws, AsIs)
  {
    var total := Sum(ws, AsIs);
    var ranked := RankingRanks(amount, ws);
    ToppedApportions(amount, total, ranked);
    var topped := Topped(ranked, Spare(amount, ranked));
    var floors := Floors(amount, total, ws);
    ToppedClaims(ranked, Spare(amount, ranked));
    MapPermutation(ranked, floors, Claim);
    hide Apportioned, Ranked;
    BackInPlace(topped, floors);
    ApportionedRearranged(amount, total, topped, Sort(topped, ByPlace));
    var shares := Shares(amount, ws);
    assert shares == Map(Sort(topped, ByPlace), ShareOf);
    assert Portions(ws, shares) == Sort(topped, ByPlace) by {
      forall k | 0 <= k < |ws| ensures Portions(ws, shares)[k] == Sort(topped, ByPlace)[k] {
        assert Claim(Sort(topped, ByPlace)[k]) == Claim(floors[k]);
        assert shares[k] == ShareOf(Sort(topped, ByPlace)[k]);
      }
    }
    WeightsAddUp(Portions(ws, shares), ws);
  }

  /** Any shares that apportion the amount are the ones handed out. */
  lemma SharesUnique(amount: int, ws: seq<int>, shares: seq<int>)
    requires amount >= 0 && Sum(ws, AsIs) > 0 && |shares| == |ws|
    requires Apportioned(amount, Sum(ws, AsIs), Portions(ws, shares))
    ensures shares == Shares(amount, ws)
  {
    SharesApportion(amount, ws);
    var p, q := Portions(ws, shares), Portions(ws, Shares(amount, ws));
    ApportionedUnique(amount, Sum(ws, AsIs), p, q);
    forall k | 0 <= k < |ws| ensures shares[k] == Shares(amount, ws)[k] {
      assert p[k] == q[k];
    }
  }
}
